/** `put` and `get` of kernel/bb.h with any number of threads interleaving between their accesses to the
    buffer and its semaphores.  The semaphores are atomic objects here; a thread that has to wait in
    `down` is one whose step comes later. */
module BufferSteps {
  import opened Common
  import opened BoundedBuffer

  type Item = int

  datatype Pc =
    | Idle
    | Putting(x: Item) | PutSlot(x: Item) | PutLocked(x: Item) | PutWritten(x: Item) | PutCounted | PutUnlocked
    | Getting | GetItem | GetLocked | GetRead(x: Item) | GetMoved(x: Item) | GetCounted(x: Item) | GetUnlocked(x: Item)

  /** The counts of `nEmpty`, `nFull` and `lock`, the ring, the threads, and the history: what has been
      put and taken, in the order of the changes to `n`, and by whom; and, thread by thread, the arguments
      of its calls of `put` and what its calls of `get` have returned. */
  datatype State = State(
    empty: nat, full: nat, lock: nat,
    data: seq<Item>, head: int, n: int,
    pcs: seq<Pc>, put: seq<Item>, got: seq<Item>, putters: seq<nat>, takers: seq<nat>,
    args: seq<seq<Item>>, returned: seq<seq<Item>>)

  datatype Step = Call(t: nat, pc: Pc) | Go(t: nat)

  predicate Enabled(s: State, step: Step) {
    && step.t < |s.pcs| == |s.args| == |s.returned|
    && match step
       case Call(t, pc) => s.pcs[t] == Idle && (pc.Putting? || pc.Getting?)
       case Go(t) =>
         match s.pcs[t]
         case Idle => false
         case Putting(_) => s.empty > 0
         case PutSlot(_) => s.lock > 0
         case PutLocked(_) => |s.data| > 0
         case Getting => s.full > 0
         case GetItem => s.lock > 0
         case GetLocked => 0 <= s.head < |s.data|
         case GetRead(_) => |s.data| > 0
         case _ => true
  }

  function Moves(s: State, t: nat, pc: Pc): State
    requires t < |s.pcs|
  {
    s.(pcs := s.pcs[t := pc])
  }

  function Apply(s: State, step: Step): State
    requires Enabled(s, step)
  {
    match step
    case Call(t, pc) => Moves(s, t, pc).(args := if pc.Putting? then s.args[t := s.args[t] + [pc.x]] else s.args)
    case Go(t) =>
      match s.pcs[t]
      case Putting(x) => Moves(s, t, PutSlot(x)).(empty := s.empty - 1)
      case PutSlot(x) => Moves(s, t, PutLocked(x)).(lock := s.lock - 1)
      case PutLocked(x) => Moves(s, t, PutWritten(x)).(data := s.data[Sum32(s.head, s.n) % |s.data| := x])
      case PutWritten(x) => Moves(s, t, PutCounted).(n := s.n + 1, put := s.put + [x], putters := s.putters + [t])
      case PutCounted => Moves(s, t, PutUnlocked).(lock := s.lock + 1)
      case PutUnlocked => Moves(s, t, Idle).(full := s.full + 1)
      case Getting => Moves(s, t, GetItem).(full := s.full - 1)
      case GetItem => Moves(s, t, GetLocked).(lock := s.lock - 1)
      case GetLocked => Moves(s, t, GetRead(s.data[s.head]))
      case GetRead(x) => Moves(s, t, GetMoved(x)).(head := (s.head + 1) % |s.data|)
      case GetMoved(x) => Moves(s, t, GetCounted(x)).(n := s.n - 1, got := s.got + [x], takers := s.takers + [t])
      case GetCounted(x) => Moves(s, t, GetUnlocked(x)).(lock := s.lock + 1)
      case GetUnlocked(x) => Moves(s, t, Idle).(empty := s.empty + 1, returned := s.returned[t := s.returned[t] + [x]])
  }

  // ---- the invariant ----

  /** Does a thread hold the lock? */
  function Inside(pc: Pc): nat {
    if pc.PutLocked? || pc.PutWritten? || pc.PutCounted?
       || pc.GetLocked? || pc.GetRead? || pc.GetMoved? || pc.GetCounted? then 1 else 0
  }

  /** Between its two calls on `nEmpty` and `nFull` a thread has one slot of the buffer to itself: one
      whose item is counted in `n`, or one that is free. */
  function Full(pc: Pc): nat {
    if pc.PutCounted? || pc.PutUnlocked? || pc.GetItem? || pc.GetLocked? || pc.GetRead? || pc.GetMoved? then 1 else 0
  }

  function Free(pc: Pc): nat {
    if pc.PutSlot? || pc.PutLocked? || pc.PutWritten? || pc.GetCounted? || pc.GetUnlocked? then 1 else 0
  }

  function InsideParts(pcs: seq<Pc>): seq<nat> {
    seq(|pcs|, t requires 0 <= t < |pcs| => Inside(pcs[t]))
  }

  function FullParts(pcs: seq<Pc>): seq<nat> {
    seq(|pcs|, t requires 0 <= t < |pcs| => Full(pcs[t]))
  }

  function FreeParts(pcs: seq<Pc>): seq<nat> {
    seq(|pcs|, t requires 0 <= t < |pcs| => Free(pcs[t]))
  }

  /** Put and not yet taken. */
  function Items(s: State): seq<Item>
    requires |s.got| <= |s.put|
  {
    s.put[|s.got|..]
  }

  /** What the thread inside has read or has yet to write. */
  predicate ThreadOk(s: State, t: nat)
    requires |s.got| <= |s.put| && t < |s.pcs|
  {
    var items := Items(s);
    match s.pcs[t]
    case PutWritten(x) => 0 <= s.head < |s.data| && |items| < |s.data| && s.data[Spot(|s.data|, s.head, |items|)] == x
    case GetRead(x) => items != [] && items[0] == x
    case GetMoved(x) => items != [] && items[0] == x
    case _ => true
  }

  predicate Moving(s: State) {
    exists t :: 0 <= t < |s.pcs| && s.pcs[t].GetMoved?
  }

  ghost predicate RingOk(s: State) {
    && s.got <= s.put && s.n == |Items(s)|
    && (forall t {:trigger ThreadOk(s, t)} | 0 <= t < |s.pcs| :: ThreadOk(s, t))
    && (if Moving(s) then Items(s) != [] && Holds(s.data, s.head, Items(s)[1..]) else Holds(s.data, s.head, Items(s)))
  }

  ghost predicate Accounts(s: State, size: nat) {
    && Sum(InsideParts(s.pcs)) + s.lock == 1
    && s.n == s.full + Sum(FullParts(s.pcs))
    && s.n + s.empty + Sum(FreeParts(s.pcs)) == size
  }

  ghost predicate Inv(s: State, size: nat) {
    && |s.data| == size <= 0x8000_0000 && Accounts(s, size) && |s.args| == |s.returned| == |s.pcs|
    && (size > 0 ==> RingOk(s))
  }

  // ---- every step keeps the invariant ----

  lemma PartsMove(pcs: seq<Pc>, t: nat, pc: Pc)
    requires t < |pcs|
    ensures Sum(InsideParts(pcs[t := pc])) + Inside(pcs[t]) == Sum(InsideParts(pcs)) + Inside(pc)
    ensures Sum(FullParts(pcs[t := pc])) + Full(pcs[t]) == Sum(FullParts(pcs)) + Full(pc)
    ensures Sum(FreeParts(pcs[t := pc])) + Free(pcs[t]) == Sum(FreeParts(pcs)) + Free(pc)
    ensures Sum(InsideParts(pcs)) >= Inside(pcs[t])
    ensures Sum(FullParts(pcs)) >= Full(pcs[t])
    ensures Sum(FreeParts(pcs)) >= Free(pcs[t])
  {
    hide Inside, Full, Free;
    SumUpdate(InsideParts(pcs), t, Inside(pc));
    SumUpdate(FullParts(pcs), t, Full(pc));
    SumUpdate(FreeParts(pcs), t, Free(pc));
    SumAtLeast(InsideParts(pcs), t);
    SumAtLeast(FullParts(pcs), t);
    SumAtLeast(FreeParts(pcs), t);
    assert InsideParts(pcs[t := pc]) == InsideParts(pcs)[t := Inside(pc)];
    assert FullParts(pcs[t := pc]) == FullParts(pcs)[t := Full(pc)];
    assert FreeParts(pcs[t := pc]) == FreeParts(pcs)[t := Free(pc)];
    assert InsideParts(pcs)[t] == Inside(pcs[t]) && FullParts(pcs)[t] == Full(pcs[t]) && FreeParts(pcs)[t] == Free(pcs[t]);
  }

  /** Nobody else is inside. */
  lemma OneInside(s: State, size: nat, t: nat, u: nat)
    requires Accounts(s, size) && t < |s.pcs| && u < |s.pcs| && u != t && Inside(s.pcs[t]) == 1
    ensures Inside(s.pcs[u]) == 0
  {
    hide Inside;
    SumAtLeast(InsideParts(s.pcs), t);
    assert InsideParts(s.pcs)[t] == Inside(s.pcs[t]) && InsideParts(s.pcs)[u] == Inside(s.pcs[u]);
  }

  lemma AccountsKept(s: State, step: Step, size: nat)
    requires Inv(s, size) && Enabled(s, step)
    ensures Accounts(Apply(s, step), size)
  {
    hide RingOk, Sum;
    PartsMove(s.pcs, step.t, Apply(s, step).pcs[step.t]);
  }

  /** The thread that makes the step is the only one inside. */
  ghost predicate Alone(s: State, t: nat) {
    t < |s.pcs| && forall u {:trigger s.pcs[u]} | 0 <= u < |s.pcs| && u != t :: Inside(s.pcs[u]) == 0
  }

  lemma NotMoving(s: State, t: nat)
    requires Alone(s, t) && !s.pcs[t].GetMoved?
    ensures !Moving(s)
  {
  }

  lemma OthersOk(s: State, s': State, t: nat)
    requires Alone(s, t) && |s'.pcs| == |s.pcs| && s'.pcs == s.pcs[t := s'.pcs[t]] && |s'.got| <= |s'.put|
    requires ThreadOk(s', t)
    ensures forall u {:trigger ThreadOk(s', u)} | 0 <= u < |s'.pcs| :: ThreadOk(s', u)
  {
    forall u | 0 <= u < |s'.pcs| ensures ThreadOk(s', u) {
      assert u != t ==> s'.pcs[u] == s.pcs[u];
    }
  }

  lemma WriteStep(s: State, t: nat)
    requires RingOk(s) && Enabled(s, Go(t)) && 0 < |s.data| <= 0x8000_0000 && Alone(s, t)
    requires s.pcs[t].PutLocked? && s.n < |s.data|
    ensures RingOk(Apply(s, Go(t)))
  {
    hide Holds, Sum32, Spot;
    var s', items, x := Apply(s, Go(t)), Items(s), s.pcs[t].x;
    NotMoving(s, t);
    HeadIn(s.data, s.head, items);
    PlaceIs(s.head, s.n, |s.data|);
    PutHolds(s.data, s.head, items, x);
    assert s'.data == s.data[Spot(|s.data|, s.head, |items|) := x];
    OthersOk(s, s', t);
    NotMoving(s', t);
  }

  lemma CountStep(s: State, t: nat)
    requires RingOk(s) && Enabled(s, Go(t)) && Alone(s, t) && s.pcs[t].PutWritten?
    ensures RingOk(Apply(s, Go(t)))
  {
    var s', items := Apply(s, Go(t)), Items(s);
    NotMoving(s, t);
    assert ThreadOk(s, t);
    assert Items(s') == items + [s.pcs[t].x];
    OthersOk(s, s', t);
    NotMoving(s', t);
  }

  lemma ReadStep(s: State, t: nat)
    requires RingOk(s) && Enabled(s, Go(t)) && Alone(s, t) && s.pcs[t].GetLocked? && s.n > 0
    ensures RingOk(Apply(s, Go(t)))
  {
    var s' := Apply(s, Go(t));
    NotMoving(s, t);
    GetHolds(s.data, s.head, Items(s));
    OthersOk(s, s', t);
    NotMoving(s', t);
  }

  lemma HeadStep(s: State, t: nat)
    requires RingOk(s) && Enabled(s, Go(t)) && Alone(s, t) && s.pcs[t].GetRead?
    ensures RingOk(Apply(s, Go(t)))
  {
    var s' := Apply(s, Go(t));
    NotMoving(s, t);
    assert ThreadOk(s, t);
    GetHolds(s.data, s.head, Items(s));
    Wraps(s.head + 1, |s.data|);
    OthersOk(s, s', t);
    assert s'.pcs[t].GetMoved?;
  }

  lemma TakeStep(s: State, t: nat)
    requires RingOk(s) && Enabled(s, Go(t)) && Alone(s, t) && s.pcs[t].GetMoved?
    ensures RingOk(Apply(s, Go(t)))
  {
    var s', items := Apply(s, Go(t)), Items(s);
    assert Moving(s) && ThreadOk(s, t);
    assert s.put[|s.got|] == items[0];
    assert Items(s') == items[1..];
    OthersOk(s, s', t);
    NotMoving(s', t);
  }

  /** A step that touches only the semaphores. */
  lemma OtherStep(s: State, step: Step)
    requires RingOk(s) && Enabled(s, step)
    requires var pc := s.pcs[step.t];
      !pc.PutLocked? && !pc.PutWritten? && !pc.GetLocked? && !pc.GetRead? && !pc.GetMoved?
    ensures RingOk(Apply(s, step))
  {
    hide Holds;
    var s', t := Apply(s, step), step.t;
    forall u | 0 <= u < |s'.pcs| ensures ThreadOk(s', u) {
      assert ThreadOk(s, u);
    }
    assert Moving(s') <==> Moving(s) by {
      if u :| 0 <= u < |s.pcs| && s.pcs[u].GetMoved? {
        assert s'.pcs[u].GetMoved?;
      }
    }
  }

  lemma StepKeeps(s: State, step: Step, size: nat)
    requires Inv(s, size) && Enabled(s, step)
    ensures Inv(Apply(s, step), size)
  {
    hide RingOk, Sum;
    AccountsKept(s, step, size);
    var t := step.t;
    PartsMove(s.pcs, t, Apply(s, step).pcs[t]);
    if size > 0 {
      if Inside(s.pcs[t]) == 1 {
        forall u | 0 <= u < |s.pcs| && u != t ensures Inside(s.pcs[u]) == 0 {
          OneInside(s, size, t, u);
        }
      }
      match s.pcs[t] {
        case PutLocked(_) => WriteStep(s, t);
        case PutWritten(_) => CountStep(s, t);
        case GetLocked => ReadStep(s, t);
        case GetRead(_) => HeadStep(s, t);
        case GetMoved(_) => TakeStep(s, t);
        case _ => OtherStep(s, step);
      }
    }
  }

  // ---- whole runs ----

  function Run(s: State, steps: seq<Step>): State
    decreases |steps|
  {
    if steps == [] then s else Run(if Enabled(s, steps[0]) then Apply(s, steps[0]) else s, steps[1..])
  }

  lemma {:induction false} RunKeeps(s: State, steps: seq<Step>, size: nat)
    requires Inv(s, size)
    ensures Inv(Run(s, steps), size)
    decreases |steps|
  {
    hide Inv;
    if steps != [] {
      if Enabled(s, steps[0]) {
        StepKeeps(s, steps[0], size);
        RunKeeps(Apply(s, steps[0]), steps[1..], size);
      } else {
        RunKeeps(s, steps[1..], size);
      }
    }
  }

  function Initial(data: seq<Item>, threads: nat): State {
    State(|data|, 0, 1, data, 0, 0, seq(threads, _ => Idle), [], [], [], [],
          seq(threads, _ => []), seq(threads, _ => []))
  }

  lemma InitialOk(data: seq<Item>, threads: nat)
    requires |data| <= 0x8000_0000
    ensures Inv(Initial(data, threads), |data|)
  {
    var s := Initial(data, threads);
    AllZero(InsideParts(s.pcs));
    AllZero(FullParts(s.pcs));
    AllZero(FreeParts(s.pcs));
  }

  // ---- what goes in and what comes out ----

  /** The items of thread t. */
  function By(items: seq<Item>, who: seq<nat>, t: nat): seq<Item>
    requires |items| == |who|
  {
    if items == [] then []
    else By(items[..|items| - 1], who[..|who| - 1], t) + if who[|who| - 1] == t then [items[|items| - 1]] else []
  }

  lemma ByGrows(items: seq<Item>, who: seq<nat>, t: nat, x: Item, u: nat)
    requires |items| == |who|
    ensures By(items + [x], who + [u], t) == By(items, who, t) + if u == t then [x] else []
  {
    assert (items + [x])[..|items|] == items && (who + [u])[..|who|] == who;
  }

  /** The item that a call of `put` has still to deliver, and the one that a call of `get` is to return. */
  function Bringing(pc: Pc): seq<Item> {
    match pc
    case Putting(x) => [x]
    case PutSlot(x) => [x]
    case PutLocked(x) => [x]
    case PutWritten(x) => [x]
    case _ => []
  }

  function Carrying(pc: Pc): seq<Item> {
    match pc
    case GetCounted(x) => [x]
    case GetUnlocked(x) => [x]
    case _ => []
  }

  predicate Matched(s: State) {
    |s.pcs| == |s.args| == |s.returned| && |s.put| == |s.putters| && |s.got| == |s.takers|
  }

  predicate Tells(s: State, t: nat)
    requires Matched(s) && t < |s.pcs|
  {
    && s.args[t] == By(s.put, s.putters, t) + Bringing(s.pcs[t])
    && s.returned[t] + Carrying(s.pcs[t]) == By(s.got, s.takers, t)
  }

  /** What thread t has called `put` with is what it has put into the buffer, in that order, and the item
      that it is bringing; and what its calls of `get` have returned is what it has taken out, in that order,
      but for the item with which it is on its way back. */
  ghost predicate Told(s: State) {
    && Matched(s)
    && (forall i | 0 <= i < |s.putters| :: s.putters[i] < |s.pcs|)
    && (forall i | 0 <= i < |s.takers| :: s.takers[i] < |s.pcs|)
    && (forall t {:trigger Tells(s, t)} | 0 <= t < |s.pcs| :: Tells(s, t))
  }

  lemma StepTells(s: State, step: Step)
    requires Told(s) && Enabled(s, step)
    ensures Told(Apply(s, step))
  {
    hide Tells;
    var s' := Apply(s, step);
    forall u | 0 <= u < |s'.pcs| ensures Tells(s', u) {
      assert Tells(s, u);
      ThreadTells(s, step, u);
    }
  }

  lemma ThreadTells(s: State, step: Step, u: nat)
    requires Matched(s) && Enabled(s, step) && u < |s.pcs| && Tells(s, u)
    ensures var s' := Apply(s, step); Matched(s') && u < |s'.pcs| && Tells(s', u)
  {
    if u == step.t {
      OwnTells(s, step);
    } else {
      OthersTell(s, step, u);
    }
  }

  lemma OthersTell(s: State, step: Step, u: nat)
    requires Matched(s) && Enabled(s, step) && u < |s.pcs| && Tells(s, u) && u != step.t
    ensures var s' := Apply(s, step); Matched(s') && u < |s'.pcs| && Tells(s', u)
  {
    hide By, Bringing, Carrying;
    var t := step.t;
    if step.Go? && s.pcs[t].PutWritten? {
      ByGrows(s.put, s.putters, u, s.pcs[t].x, t);
    }
    if step.Go? && s.pcs[t].GetMoved? {
      ByGrows(s.got, s.takers, u, s.pcs[t].x, t);
    }
  }

  lemma OwnTells(s: State, step: Step)
    requires Matched(s) && Enabled(s, step) && Tells(s, step.t)
    ensures var s' := Apply(s, step); Matched(s') && step.t < |s'.pcs| && Tells(s', step.t)
  {
    hide By;
    var t := step.t;
    if step.Go? {
      match s.pcs[t]
      case PutWritten(x) => ByGrows(s.put, s.putters, t, x, t);
      case GetMoved(x) => ByGrows(s.got, s.takers, t, x, t);
      case _ =>
    }
  }

  lemma {:induction false} RunTells(s: State, steps: seq<Step>)
    requires Told(s)
    ensures Told(Run(s, steps))
    decreases |steps|
  {
    hide Told, Enabled, Apply;
    if steps != [] {
      if Enabled(s, steps[0]) {
        StepTells(s, steps[0]);
        RunTells(Apply(s, steps[0]), steps[1..]);
      } else {
        RunTells(s, steps[1..]);
      }
    }
  }

  /** In every run what each thread has called `put` with and what its calls of `get` have returned is, in
      order, what it has put and taken; and what has been taken is the beginning of what has been put. */
  lemma ArgumentsComeOut(data: seq<Item>, threads: nat, steps: seq<Step>)
    requires 0 < |data| <= 0x8000_0000
    ensures var s := Run(Initial(data, threads), steps);
      Told(s) && s.got <= s.put
  {
    hide Run;
    InitialOk(data, threads);
    RunKeeps(Initial(data, threads), steps, |data|);
    RunTells(Initial(data, threads), steps);
  }

  /** Threads that have a slot. */
  function Slots(s: State): nat {
    Sum(FullParts(s.pcs)) + Sum(FreeParts(s.pcs))
  }

  /** In every run: what has been taken is, in order, the beginning of what has been put; never more than
      the size is in the buffer, and the head is in range; both counts and the threads between their calls
      account for all slots; and a thread that has a slot and the lock finds room, or an item. */
  lemma AnyRun(data: seq<Item>, threads: nat, steps: seq<Step>)
    requires 0 < |data| <= 0x8000_0000
    ensures var s := Run(Initial(data, threads), steps);
      && s.got <= s.put && s.n == |s.put| - |s.got|
      && 0 <= s.n <= |data| && 0 <= s.head < |data|
      && s.empty + s.full + Slots(s) == |data|
      && (forall t | 0 <= t < |s.pcs| && s.pcs[t].PutLocked? :: s.n < |data|)
      && (forall t | 0 <= t < |s.pcs| && s.pcs[t].GetLocked? :: s.n > 0)
      && (forall t, u | 0 <= t < u < |s.pcs| :: Inside(s.pcs[t]) + Inside(s.pcs[u]) <= 1)
  {
    hide Sum, Run;
    InitialOk(data, threads);
    RunKeeps(Initial(data, threads), steps, |data|);
    var s := Run(Initial(data, threads), steps);
    forall t | 0 <= t < |s.pcs|
      ensures s.pcs[t].PutLocked? ==> s.n < |data|
      ensures s.pcs[t].GetLocked? ==> s.n > 0
    {
      PartsMove(s.pcs, t, s.pcs[t]);
    }
    forall t, u | 0 <= t < u < |s.pcs| ensures Inside(s.pcs[t]) + Inside(s.pcs[u]) <= 1 {
      if Inside(s.pcs[t]) == 1 {
        OneInside(s, |data|, t, u);
      }
    }
  }

  /** If nobody can go on, nobody is between the calls, and whoever waits has reason to: producers for a
      full buffer, consumers for an empty one, so never both. */
  lemma StuckOnlyWhenFullOrEmpty(s: State, size: nat)
    requires Inv(s, size) && size > 0
    requires forall t | 0 <= t < |s.pcs| :: !Enabled(s, Go(t))
    ensures forall t | 0 <= t < |s.pcs| :: s.pcs[t].Idle? || s.pcs[t].Putting? || s.pcs[t].Getting?
    ensures (exists t :: 0 <= t < |s.pcs| && s.pcs[t].Putting?) ==> s.n == size
    ensures (exists t :: 0 <= t < |s.pcs| && s.pcs[t].Getting?) ==> s.n == 0
  {
    hide Sum;
    HeadInRange(s);
    forall t | 0 <= t < |s.pcs| ensures Inside(s.pcs[t]) == 0 {
      assert !Enabled(s, Go(t));
    }
    NoneInside(s);
    forall t | 0 <= t < |s.pcs| ensures s.pcs[t].Idle? || s.pcs[t].Putting? || s.pcs[t].Getting? {
      assert !Enabled(s, Go(t));
    }
    NoSlots(s);
    if t :| 0 <= t < |s.pcs| && s.pcs[t].Putting? {
      assert !Enabled(s, Go(t));
    }
    if t :| 0 <= t < |s.pcs| && s.pcs[t].Getting? {
      assert !Enabled(s, Go(t));
    }
  }

  lemma HeadInRange(s: State)
    requires RingOk(s)
    ensures 0 <= s.head < |s.data|
  {
  }

  lemma NoneInside(s: State)
    requires forall t | 0 <= t < |s.pcs| :: Inside(s.pcs[t]) == 0
    ensures Sum(InsideParts(s.pcs)) == 0
  {
    AllZero(InsideParts(s.pcs));
  }

  lemma NoSlots(s: State)
    requires forall t | 0 <= t < |s.pcs| :: s.pcs[t].Idle? || s.pcs[t].Putting? || s.pcs[t].Getting?
    ensures Sum(FullParts(s.pcs)) == Sum(FreeParts(s.pcs)) == 0
  {
    AllZero(FullParts(s.pcs));
    AllZero(FreeParts(s.pcs));
  }
}
