/** The one-shot barrier of kernel/barrier.h, for any number of threads. */
module OneShotBarrier {
  import opened Common

  const TWO31 := 0x8000_0000
  const TWO32 := 0x1_0000_0000

  /** An `int32_t` that is given or comes to the value a. */
  function Int32(a: int): (r: int)
    ensures -TWO31 <= r < TWO31
    ensures -TWO31 <= a < TWO31 ==> r == a
  {
    (a + TWO31) % TWO32 - TWO31
  }

  /** Where a thread is in `sync`: about to count down; the last to do so, about to raise the semaphore; or
      about to lower it, and then about to raise it again for the next. */
  datatype Pc = Away | Arriving | Opening | Waiting | Passing | Through

  datatype State = State(count: int, sem: nat, pcs: seq<Pc>, arrivals: nat, panicked: bool)

  datatype Step = Call(t: nat) | Go(t: nat)

  predicate Enabled(s: State, step: Step) {
    && !s.panicked && step.t < |s.pcs|
    && match step
       case Call(t) => s.pcs[t] == Away
       case Go(t) => s.pcs[t] != Away && s.pcs[t] != Through && (s.pcs[t] == Waiting ==> s.sem > 0)
  }

  function Apply(s: State, step: Step): State
    requires Enabled(s, step)
  {
    match step
    case Call(t) => s.(pcs := s.pcs[t := Arriving])
    case Go(t) =>
      match s.pcs[t]
      case Arriving =>
        var x := Int32(s.count - 1);
        State(x, s.sem, s.pcs[t := if x == 0 then Opening else Waiting], s.arrivals + 1, x < 0)
      case Opening => s.(pcs := s.pcs[t := Through], sem := s.sem + 1)
      case Waiting => s.(pcs := s.pcs[t := Passing], sem := s.sem - 1)
      case Passing => s.(pcs := s.pcs[t := Through], sem := s.sem + 1)
  }

  // ---- the token ----

  /** A thread that is about to raise the semaphore has the token. */
  function Token(pc: Pc): nat {
    if pc == Opening || pc == Passing then 1 else 0
  }

  /** How many steps a thread has still to make. */
  function Left(pc: Pc): nat {
    match pc
    case Arriving => 3
    case Waiting => 2
    case Opening => 1
    case Passing => 1
    case _ => 0
  }

  function TokenParts(pcs: seq<Pc>): seq<nat> {
    seq(|pcs|, t requires 0 <= t < |pcs| => Token(pcs[t]))
  }

  function LeftParts(pcs: seq<Pc>): seq<nat> {
    seq(|pcs|, t requires 0 <= t < |pcs| => Left(pcs[t]))
  }

  /** The tokens there are: on the semaphore or with a thread. */
  function Tokens(s: State): nat {
    s.sem + Sum(TokenParts(s.pcs))
  }

  ghost predicate Inv(s: State, size: nat) {
    && s.count == Int32(size - s.arrivals)
    && (!s.panicked ==> s.arrivals <= size && (1 <= size <= TWO31 || s.arrivals == 0))
    && (!s.panicked ==> Tokens(s) == if s.arrivals == size && size > 0 then 1 else 0)
    && (forall t {:trigger s.pcs[t]} | 0 <= t < |s.pcs| :: s.pcs[t] == Through ==> s.arrivals >= size > 0)
  }

  lemma PartsMove(pcs: seq<Pc>, t: nat, pc: Pc)
    requires t < |pcs|
    ensures Sum(TokenParts(pcs[t := pc])) + Token(pcs[t]) == Sum(TokenParts(pcs)) + Token(pc)
    ensures Sum(LeftParts(pcs[t := pc])) + Left(pcs[t]) == Sum(LeftParts(pcs)) + Left(pc)
    ensures Sum(TokenParts(pcs)) >= Token(pcs[t])
  {
    SumUpdate(TokenParts(pcs), t, Token(pc));
    SumUpdate(LeftParts(pcs), t, Left(pc));
    SumAtLeast(TokenParts(pcs), t);
    assert TokenParts(pcs[t := pc]) == TokenParts(pcs)[t := Token(pc)];
    assert LeftParts(pcs[t := pc]) == LeftParts(pcs)[t := Left(pc)];
    assert TokenParts(pcs)[t] == Token(pcs[t]);
  }

  lemma CountsDown(size: nat, arrivals: nat)
    requires size < TWO32
    ensures Int32(Int32(size - arrivals) - 1) == Int32(size - (arrivals + 1))
    ensures 1 <= size <= TWO31 && arrivals < size ==> Int32(size - (arrivals + 1)) == size - arrivals - 1
    ensures size == 0 || size > TWO31 ==> Int32(size - 1) < 0
    ensures arrivals == size ==> Int32(size - (arrivals + 1)) == -1
  {
  }

  lemma StepKeeps(s: State, step: Step, size: nat)
    requires Inv(s, size) && size < TWO32 && Enabled(s, step)
    ensures Inv(Apply(s, step), size)
  {
    hide Sum, Int32;
    var s', t := Apply(s, step), step.t;
    PartsMove(s.pcs, t, s'.pcs[t]);
    CountsDown(size, s.arrivals);
  }

  // ---- whole runs ----

  function Run(s: State, steps: seq<Step>): State
    decreases |steps|
  {
    if steps == [] then s else Run(if Enabled(s, steps[0]) then Apply(s, steps[0]) else s, steps[1..])
  }

  lemma {:induction false} RunKeeps(s: State, steps: seq<Step>, size: nat)
    requires Inv(s, size) && size < TWO32
    ensures Inv(Run(s, steps), size)
    decreases |steps|
  {
    hide Inv;
    if steps != [] {
      if Enabled(s, steps[0]) {
        StepKeeps(s, steps[0], size);
        RunKeeps(Apply(s, steps[0]), steps[1..], size);
      } else {
        RunKeeps(s, steps[1..], size);
      }
    }
  }

  function Initial(size: nat, threads: nat): State {
    State(Int32(size), 0, seq(threads, _ => Away), 0, false)
  }

  lemma InitialOk(size: nat, threads: nat)
    ensures Inv(Initial(size, threads), size)
  {
    AllZero(TokenParts(Initial(size, threads).pcs));
  }

  /** In every run nobody is through before the last of `size` arrivals, and from then on there is one token,
      on the semaphore or with one thread. */
  lemma AnyRun(size: nat, threads: nat, steps: seq<Step>)
    requires size < TWO32
    ensures var s := Run(Initial(size, threads), steps);
      && (forall t | 0 <= t < |s.pcs| && s.pcs[t] == Through :: s.arrivals >= size)
      && (!s.panicked ==> Tokens(s) == if s.arrivals == size && size > 0 then 1 else 0)
  {
    hide Run, Tokens;
    InitialOk(size, threads);
    RunKeeps(Initial(size, threads), steps, size);
  }

  /** A barrier panics when one thread too many arrives; one for none or for more than 2^31 threads does so
      at the first. */
  lemma PanicsWhenOverrun(size: nat, threads: nat, steps: seq<Step>, t: nat)
    requires size < TWO32
    requires var s := Run(Initial(size, threads), steps); Enabled(s, Go(t)) && s.pcs[t] == Arriving
    ensures var s := Run(Initial(size, threads), steps);
      Apply(s, Go(t)).panicked <==> s.arrivals >= size || size > TWO31
  {
    hide Run, Tokens, Int32;
    InitialOk(size, threads);
    RunKeeps(Initial(size, threads), steps, size);
    CountsDown(size, Run(Initial(size, threads), steps).arrivals);
  }

  // ---- nobody is stuck ----

  /** Each step of a thread that has arrived brings the end nearer. */
  lemma Progress(s: State, t: nat)
    requires Enabled(s, Go(t))
    ensures Sum(LeftParts(Apply(s, Go(t)).pcs)) < Sum(LeftParts(s.pcs))
  {
    hide Sum, Int32;
    PartsMove(s.pcs, t, Apply(s, Go(t)).pcs[t]);
  }

  lemma {:induction false} SomeToken(pcs: seq<Pc>)
    requires Sum(TokenParts(pcs)) > 0
    ensures exists t :: 0 <= t < |pcs| && Token(pcs[t]) == 1
  {
    if forall t | 0 <= t < |pcs| :: Token(pcs[t]) == 0 {
      AllZero(TokenParts(pcs));
    }
  }

  /** After the last arrival, as long as some thread is in `sync`, one of them can go on. */
  lemma NotStuck(s: State, size: nat)
    requires Inv(s, size) && !s.panicked && s.arrivals == size > 0
    requires exists t :: 0 <= t < |s.pcs| && s.pcs[t] != Away && s.pcs[t] != Through
    ensures exists t :: 0 <= t < |s.pcs| && Enabled(s, Go(t))
  {
    var t :| 0 <= t < |s.pcs| && s.pcs[t] != Away && s.pcs[t] != Through;
    if s.pcs[t] != Waiting || s.sem > 0 {
      assert Enabled(s, Go(t));
    } else {
      SomeToken(s.pcs);
      var u :| 0 <= u < |s.pcs| && Token(s.pcs[u]) == 1;
      assert Enabled(s, Go(u));
    }
  }
}
