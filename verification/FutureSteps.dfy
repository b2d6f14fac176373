/** The future of kernel/future.h, for any number of threads that get its value. */
module FutureSteps {
  import opened Common

  /** Where a thread is in `set` or in `get`. */
  datatype Pc<T> =
    | Away
    | Setting(v: T) | Writing(v: T) | Marking | Raising
    | Getting | Lowering | Passing | Reading | Got(v: T)

  /** `sets` are the arguments that `set` has been called with. */
  datatype State<T> = State(ready: bool, cell: T, sem: nat, pcs: seq<Pc<T>>, sets: seq<T>, panicked: bool)

  datatype Step<T> = Set(t: nat, v: T) | Get(t: nat) | Go(t: nat)

  predicate Enabled<T>(s: State<T>, step: Step<T>) {
    && !s.panicked && step.t < |s.pcs|
    && match step
       case Set(t, _) => s.pcs[t].Away?
       case Get(t) => s.pcs[t].Away?
       case Go(t) => !s.pcs[t].Away? && !s.pcs[t].Got? && (s.pcs[t].Lowering? ==> s.sem > 0)
  }

  function Moves<T>(s: State<T>, t: nat, pc: Pc<T>): State<T>
    requires t < |s.pcs|
  {
    s.(pcs := s.pcs[t := pc])
  }

  function Apply<T>(s: State<T>, step: Step<T>): State<T>
    requires Enabled(s, step)
  {
    match step
    case Set(t, v) => Moves(s, t, Setting(v)).(sets := s.sets + [v])
    case Get(t) => Moves(s, t, Getting)
    case Go(t) =>
      match s.pcs[t]
      case Setting(v) => if s.ready then s.(panicked := true) else Moves(s, t, Writing(v))
      case Writing(v) => Moves(s, t, Marking).(cell := v)
      case Marking => Moves(s, t, Raising).(ready := true)
      case Raising => Moves(s, t, Away).(sem := s.sem + 1)
      case Getting => Moves(s, t, if s.ready then Reading else Lowering)
      case Lowering => Moves(s, t, Passing).(sem := s.sem - 1)
      case Passing => Moves(s, t, Reading).(sem := s.sem + 1)
      case Reading => Moves(s, t, Got(s.cell))
  }

  // ---- one setter at a time ----

  function InSet<T>(pc: Pc<T>): nat {
    if pc.Setting? || pc.Writing? || pc.Marking? || pc.Raising? then 1 else 0
  }

  /** No call of `set` overlaps another. */
  predicate Alone<T>(s: State<T>, step: Step<T>) {
    step.Set? ==> forall u | 0 <= u < |s.pcs| :: InSet(s.pcs[u]) == 0
  }

  /** Having the token: about to raise the semaphore. */
  function Token<T>(pc: Pc<T>): nat {
    if pc.Raising? || pc.Passing? then 1 else 0
  }

  function TokenParts<T>(pcs: seq<Pc<T>>): seq<nat> {
    seq(|pcs|, t requires 0 <= t < |pcs| => Token(pcs[t]))
  }

  predicate Asked<T(==)>(s: State<T>, v: T) {
    exists i :: 0 <= i < |s.sets| && s.sets[i] == v
  }

  predicate ThreadOk<T(==)>(s: State<T>, v: T, t: nat)
    requires t < |s.pcs|
  {
    match s.pcs[t]
    case Setting(w) => Asked(s, w)
    case Writing(w) => !s.ready && Asked(s, w)
    case Marking => !s.ready
    case Raising => s.ready
    case Passing => s.ready
    case Reading => s.ready
    case Got(w) => s.ready && w == v
    case _ => true
  }

  /** Once it is ready the cell holds the value v, and there is one token. */
  ghost predicate Inv<T>(s: State<T>, v: T) {
    && (s.ready ==> s.cell == v && Asked(s, v))
    && (forall t {:trigger ThreadOk(s, v, t)} | 0 <= t < |s.pcs| :: ThreadOk(s, v, t))
    && s.sem + Sum(TokenParts(s.pcs)) == (if s.ready then 1 else 0)
    && (forall t, u | 0 <= t < u < |s.pcs| :: InSet(s.pcs[t]) + InSet(s.pcs[u]) <= 1)
    && (forall t {:trigger s.pcs[t]} | 0 <= t < |s.pcs| :: s.pcs[t].Marking? ==> s.cell == v && Asked(s, v))
  }

  lemma PartsMove<T>(pcs: seq<Pc<T>>, t: nat, pc: Pc<T>)
    requires t < |pcs|
    ensures Sum(TokenParts(pcs[t := pc])) + Token(pcs[t]) == Sum(TokenParts(pcs)) + Token(pc)
    ensures Sum(TokenParts(pcs)) >= Token(pcs[t])
  {
    SumUpdate(TokenParts(pcs), t, Token(pc));
    SumAtLeast(TokenParts(pcs), t);
    assert TokenParts(pcs[t := pc]) == TokenParts(pcs)[t := Token(pc)];
    assert TokenParts(pcs)[t] == Token(pcs[t]);
  }

  /** The value that will be the future's: what is in the cell, or what the setter is about to write. */
  ghost predicate Settles<T>(s: State<T>, step: Step<T>, v: T) {
    step.Go? && step.t < |s.pcs| && s.pcs[step.t].Writing? ==> s.pcs[step.t].v == v
  }

  lemma StepKeeps<T>(s: State<T>, step: Step<T>, v: T)
    requires Inv(s, v) && Enabled(s, step) && Alone(s, step) && Settles(s, step, v)
    ensures Inv(Apply(s, step), v) && (s.ready ==> Apply(s, step).ready)
  {
    hide Sum, TokenParts, Asked;
    var s', t := Apply(s, step), step.t;
    PartsMove(s.pcs, t, s'.pcs[t]);
    forall w | Asked(s, w) ensures Asked(s', w) {
      StillAsked(s, step, w);
    }
    if step.Set? {
      JustAsked(s, step);
    }
    assert ThreadOk(s, v, t);
    forall u | 0 <= u < |s'.pcs| ensures ThreadOk(s', v, u) {
      assert ThreadOk(s, v, u);
      if u != t {
        OneSetter(s, v, t, u);
      }
    }
    forall u | 0 <= u < |s'.pcs| && u != t ensures s'.pcs[u] == s.pcs[u] {
      OneSetter(s, v, t, u);
    }
    forall u, w | 0 <= u < w < |s'.pcs| ensures InSet(s'.pcs[u]) + InSet(s'.pcs[w]) <= 1 {
      assert InSet(s.pcs[u]) + InSet(s.pcs[w]) <= 1;
    }
  }

  lemma StillAsked<T>(s: State<T>, step: Step<T>, w: T)
    requires Enabled(s, step) && Asked(s, w)
    ensures Asked(Apply(s, step), w)
  {
    var i :| 0 <= i < |s.sets| && s.sets[i] == w;
    assert Apply(s, step).sets[i] == w;
  }

  lemma JustAsked<T>(s: State<T>, step: Step<T>)
    requires Enabled(s, step) && step.Set?
    ensures Asked(Apply(s, step), step.v)
  {
    assert Apply(s, step).sets[|s.sets|] == step.v;
  }

  lemma OneSetter<T>(s: State<T>, v: T, t: nat, u: nat)
    requires Inv(s, v) && t < |s.pcs| && u < |s.pcs| && u != t
    ensures InSet(s.pcs[t]) + InSet(s.pcs[u]) <= 1
  {
    if t < u {
    } else {
      assert InSet(s.pcs[u]) + InSet(s.pcs[t]) <= 1;
    }
  }

  // ---- whole runs ----

  /** With `apart` the callers keep calls of `set` apart; otherwise they may overlap. */
  predicate Taken<T>(s: State<T>, step: Step<T>, apart: bool) {
    Enabled(s, step) && (apart ==> Alone(s, step))
  }

  function Next<T>(s: State<T>, step: Step<T>, apart: bool): State<T> {
    if Taken(s, step, apart) then Apply(s, step) else s
  }

  function Run<T>(s: State<T>, steps: seq<Step<T>>, apart: bool): State<T>
    decreases |steps|
  {
    if steps == [] then s else Run(Next(s, steps[0], apart), steps[1..], apart)
  }

  /** The value belongs to the cell: it changes only while nobody can see it. */
  lemma CellStepKeeps<T>(s: State<T>, step: Step<T>)
    requires Inv(s, s.cell) && Enabled(s, step) && Alone(s, step)
    ensures var s' := Apply(s, step);
      Inv(s', s'.cell) && (s.ready ==> s'.ready && s'.cell == s.cell)
  {
    hide Asked;
    var s', t := Apply(s, step), step.t;
    assert ThreadOk(s, s.cell, t);
    if step.Go? && s.pcs[t].Writing? {
      var v := s.pcs[t].v;
      forall u | 0 <= u < |s.pcs| ensures ThreadOk(s, v, u) && !s.pcs[u].Marking? {
        assert ThreadOk(s, s.cell, u);
        if u != t {
          OneSetter(s, s.cell, t, u);
        }
      }
      StepKeeps(s, step, v);
    } else {
      StepKeeps(s, step, s.cell);
    }
  }

  /** A single thread keeps its calls apart whatever it does. */
  predicate Kept<T>(s: State<T>, apart: bool) {
    apart || |s.pcs| <= 1
  }

  lemma {:induction false} RunKeeps<T>(s: State<T>, steps: seq<Step<T>>, apart: bool)
    requires Inv(s, s.cell) && Kept(s, apart)
    ensures var s' := Run(s, steps, apart);
      Inv(s', s'.cell) && Kept(s', apart) && (s.ready ==> s'.ready && s'.cell == s.cell)
    decreases |steps|
  {
    hide Inv;
    if steps != [] {
      if Taken(s, steps[0], apart) {
        CellStepKeeps(s, steps[0]);
      }
      RunKeeps(Next(s, steps[0], apart), steps[1..], apart);
    }
  }

  function Initial<T>(junk: T, threads: nat): State<T> {
    State(false, junk, 0, seq(threads, _ => Away), [], false)
  }

  lemma InitialOk<T>(junk: T, threads: nat)
    ensures Inv(Initial(junk, threads), junk)
  {
    AllZero(TokenParts(Initial(junk, threads).pcs));
  }

  /** As long as no two calls of `set` overlap, every `get` returns the same value, however much later it
      ends, and that value is one that `set` was called with. */
  lemma OneValue<T>(junk: T, threads: nat, apart: bool, steps: seq<Step<T>>, t: nat, later: seq<Step<T>>, u: nat)
    requires apart || threads <= 1
    requires var s := Run(Initial(junk, threads), steps, apart); t < |s.pcs| && s.pcs[t].Got?
    requires var s := Run(Run(Initial(junk, threads), steps, apart), later, apart); u < |s.pcs| && s.pcs[u].Got?
    ensures var s := Run(Initial(junk, threads), steps, apart);
      s.pcs[t].v == Run(s, later, apart).pcs[u].v && Asked(s, s.pcs[t].v)
  {
    hide Run, Asked;
    InitialOk(junk, threads);
    RunKeeps(Initial(junk, threads), steps, apart);
    var s := Run(Initial(junk, threads), steps, apart);
    RunKeeps(s, later, apart);
    assert ThreadOk(s, s.cell, t);
    assert ThreadOk(Run(s, later, apart), Run(s, later, apart).cell, u);
  }

  lemma {:induction false} SomeToken<T>(pcs: seq<Pc<T>>)
    requires Sum(TokenParts(pcs)) > 0
    ensures exists t :: 0 <= t < |pcs| && Token(pcs[t]) == 1
  {
    if forall t | 0 <= t < |pcs| :: Token(pcs[t]) == 0 {
      AllZero(TokenParts(pcs));
    }
  }

  /** Once the value is there, as long as a thread is in `get`, some thread can go on. */
  lemma NotStuck<T>(s: State<T>, t: nat)
    requires Inv(s, s.cell) && s.ready && !s.panicked
    requires t < |s.pcs| && !s.pcs[t].Away? && !s.pcs[t].Got?
    ensures exists u :: 0 <= u < |s.pcs| && Enabled(s, Go(u))
  {
    hide Asked;
    if s.pcs[t].Lowering? && s.sem == 0 {
      SomeToken(s.pcs);
      var u :| 0 <= u < |s.pcs| && Token(s.pcs[u]) == 1;
      assert Enabled(s, Go(u));
    } else {
      assert Enabled(s, Go(t));
    }
  }

  // ---- calls of `set` that overlap ----

  lemma {:induction false} OneMore<T>(s: State<T>, steps: seq<Step<T>>, step: Step<T>, apart: bool)
    ensures Run(s, steps + [step], apart) == Next(Run(s, steps, apart), step, apart)
    decreases |steps|
  {
    if steps == [] {
      assert [step][1..] == [];
    } else {
      OneMore(Next(s, steps[0], apart), steps[1..], step, apart);
      assert (steps + [step])[1..] == steps[1..] + [step];
    }
  }

  lemma Then<T>(s0: State<T>, before: seq<Step<T>>, s: State<T>, step: Step<T>)
    returns (steps: seq<Step<T>>, s': State<T>)
    requires Run(s0, before, false) == s && Enabled(s, step)
    ensures s' == Apply(s, step) && Run(s0, steps, false) == s'
  {
    OneMore(s0, before, step, false);
    steps, s' := before + [step], Apply(s, step);
  }

  /** From `Setting` or `Writing` on, up to the end of `set`, and then a call of `get`. */
  lemma SetsAndGets<T>(s0: State<T>, before: seq<Step<T>>, s: State<T>, t: nat)
    returns (steps: seq<Step<T>>, s': State<T>)
    requires Run(s0, before, false) == s && t < |s.pcs| && s.pcs[t].Writing? && !s.panicked
    ensures Run(s0, steps, false) == s' && !s'.panicked && s'.pcs == s.pcs[t := Got(s.pcs[t].v)]
  {
    hide Run;
    steps, s' := Then(s0, before, s, Go(t));
    steps, s' := Then(s0, steps, s', Go(t));
    steps, s' := Then(s0, steps, s', Go(t));
    steps, s' := Then(s0, steps, s', Get(t));
    steps, s' := Then(s0, steps, s', Go(t));
    steps, s' := Then(s0, steps, s', Go(t));
  }

  /** The assertion in `set` does not stop two calls that overlap: whatever their values, there is a run in
      which both pass it, and one `get` returns the one value and a later one the other. */
  lemma RacingSetters<T>(junk: T, threads: nat, v: T, w: T) returns (steps: seq<Step<T>>)
    requires threads >= 2
    ensures var s := Run(Initial(junk, threads), steps, false);
      |s.pcs| == threads && s.pcs[0] == Got(v) && s.pcs[1] == Got(w)
  {
    hide Run;
    var s0 := Initial(junk, threads);
    var s;
    assert Run(s0, [], false) == s0 by {
      Nothing(s0, false);
    }
    steps, s := Then(s0, [], s0, Set(0, v));
    steps, s := Then(s0, steps, s, Set(1, w));
    steps, s := Then(s0, steps, s, Go(0));
    steps, s := Then(s0, steps, s, Go(1));
    steps, s := SetsAndGets(s0, steps, s, 0);
    steps, s := SetsAndGets(s0, steps, s, 1);
  }

  lemma Nothing<T>(s: State<T>, apart: bool)
    ensures Run(s, [], apart) == s
  {
  }

  ghost predicate Agree<T>(s: State<T>) {
    forall t, u | 0 <= t < |s.pcs| && 0 <= u < |s.pcs| && s.pcs[t].Got? && s.pcs[u].Got? :: s.pcs[t].v == s.pcs[u].v
  }

  /** In every run all calls of `get` that have returned have returned the same. */
  ghost predicate AlwaysAgree<T(!new)>(junk: T, threads: nat, apart: bool) {
    forall steps :: Agree(Run(Initial(junk, threads), steps, apart))
  }

  /** A future has one value exactly if calls of `set` are kept apart, or there is no second thread to
      overlap with. */
  lemma OneValueExactly<T(!new)>(junk: T, threads: nat, apart: bool, v: T, w: T)
    requires v != w
    ensures AlwaysAgree(junk, threads, apart) <==> apart || threads <= 1
  {
    hide Run;
    if apart || threads <= 1 {
      forall steps ensures Agree(Run(Initial(junk, threads), steps, apart)) {
        var s := Run(Initial(junk, threads), steps, apart);
        forall t: nat, u: nat | t < |s.pcs| && u < |s.pcs| && s.pcs[t].Got? && s.pcs[u].Got?
          ensures s.pcs[t].v == s.pcs[u].v
        {
          Nothing(s, apart);
          OneValue(junk, threads, apart, steps, t, [], u);
        }
      }
    } else {
      var steps := RacingSetters(junk, threads, v, w);
      assert !Agree(Run(Initial(junk, threads), steps, apart));
    }
  }
}
