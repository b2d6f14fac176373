/** The scheduler of kernel/threads.h, kernel/threads.cc and kernel/context.s as a step system: any
    number of cores interleave at the steps below, and the timer may interrupt anywhere that interrupts
    are enabled. */
module Scheduler {
  import opened Common

  /** A thread by its id.  The first ids are those of the idle threads, one per core. */
  type Tid = nat

  datatype BlockOption = MustBlock | CanReturn

  /** What the function given to `block` does with the thread that has been switched away from. */
  datatype Action = Requeue | Bury | Sleep(queue: nat)

  /** Where a core is: in ordinary code of a thread, at the points of `block` between its accesses to
      shared data, in the switch on the new thread's stack, or in a `block` inside a `block`. */
  datatype Pc =
    | Running(me: Tid)
    | Asked(me: Tid, option: BlockOption, action: Action)
    | Chosen(me: Tid, next: Tid, action: Action)
    | Committed(me: Tid, next: Tid, action: Action)
    | Closing(prev: Tid, next: Tid, action: Action)
    | Nested

  /** A thread control block that a thread's code has taken out of a queue, or has just made.  Code that
      holds one may wake another before it is done with the first: freeing a thread that has stopped
      takes and releases the lock of the heap. */
  datatype Held = Woken(tid: Tid) | Corpse(tid: Tid)

  /** `joined` and `left` are the threads that have entered and left the ready queue so far, in order. */
  datatype State = State(
    pcs: seq<Pc>, active: seq<Tid>,
    saved: seq<bool>, noPreempt: seq<bool>, hands: seq<seq<Held>>,
    ready: seq<Tid>, waits: seq<seq<Tid>>, zombies: seq<Tid>,
    stopped: set<Tid>, deleted: set<Tid>,
    joined: seq<Tid>, left: seq<Tid>)

  function Cores(s: State): nat {
    |s.pcs|
  }

  function Next(s: State): nat {
    |s.saved|
  }

  predicate Idle(s: State, t: Tid) {
    t < Cores(s)
  }

  // ---- steps ----

  datatype Step =
    | Create(k: nat)
    | Wake(k: nat, queue: nat)
    | Schedule(k: nat)
    | Reap(k: nat)
    | Delete(k: nat)
    | Block(k: nat, option: BlockOption, action: Action)
    | Pick(k: nat)
    | Commit(k: nat)
    | Switch(k: nat)
    | Close(k: nat, asleep: bool)
    | Tick(k: nat)

  predicate AtWork(s: State, k: nat) {
    k < Cores(s) && s.pcs[k].Running? && s.pcs[k].me < |s.hands|
  }

  /** The last thread taken is one to be freed, or one to be scheduled. */
  predicate TopIs(s: State, t: Tid, corpse: bool) {
    t < |s.hands| && s.hands[t] != [] && s.hands[t][|s.hands[t]| - 1].Corpse? == corpse
  }

  /** Idle threads only ever stop; any other may block in any way, but it holds no thread when it stops. */
  predicate MayBlock(s: State, t: Tid, option: BlockOption, action: Action) {
    && (Idle(s, t) ==> action == Bury)
    && (action.Bury? || action.Sleep? ==> option == MustBlock)
    && (action.Bury? ==> t < |s.hands| && s.hands[t] == [])
    && (action.Sleep? ==> action.queue < |s.waits|)
  }

  predicate Enabled(s: State, step: Step) {
    && step.k < Cores(s)
    && match step
       case Create(k) => AtWork(s, k)
       case Wake(k, q) => AtWork(s, k) && q < |s.waits| && s.waits[q] != []
       case Schedule(k) => AtWork(s, k) && TopIs(s, s.pcs[k].me, false)
       case Reap(k) => AtWork(s, k) && s.zombies != []
       case Delete(k) => AtWork(s, k) && TopIs(s, s.pcs[k].me, true)
       case Block(k, option, action) =>
         AtWork(s, k) && MayBlock(s, s.pcs[k].me, option, action) && s.pcs[k].me < |s.noPreempt|
       case Pick(k) => s.pcs[k].Asked?
       case Commit(k) => s.pcs[k].Chosen? && s.pcs[k].next < |s.noPreempt| && k < |s.active|
       case Switch(k) =>
         && s.pcs[k].Committed? && s.pcs[k].me < |s.saved| && s.pcs[k].next < |s.saved|
         && s.pcs[k].me < |s.noPreempt| && s.pcs[k].next < |s.noPreempt|
       case Close(k, asleep) =>
         s.pcs[k].Closing? && (s.pcs[k].action.Sleep? ==> s.pcs[k].action.queue < |s.waits|)
       case Tick(k) => !s.pcs[k].Closing? && !s.pcs[k].Nested? && k < |s.active| && s.active[k] < |s.noPreempt|
  }

  function Hold(s: State, t: Tid, held: Held): seq<seq<Held>>
    requires t < |s.hands|
  {
    s.hands[t := s.hands[t] + [held]]
  }

  function Drop(s: State, t: Tid): seq<seq<Held>>
    requires t < |s.hands| && s.hands[t] != []
  {
    s.hands[t := s.hands[t][..|s.hands[t]| - 1]]
  }

  /** A thread enters the ready queue. */
  function Queues(s: State, t: Tid): State {
    s.(ready := s.ready + [t], joined := s.joined + [t])
  }

  function TopTid(s: State, t: Tid): Tid
    requires t < |s.hands| && s.hands[t] != []
  {
    s.hands[t][|s.hands[t]| - 1].tid
  }

  function Apply(s: State, step: Step): State
    requires Enabled(s, step)
  {
    var k := step.k;
    match step
    case Create(_) =>
      s.(hands := Hold(s, s.pcs[k].me, Woken(Next(s))) + [[]], saved := s.saved + [true],
         noPreempt := s.noPreempt + [false])
    case Wake(_, q) =>
      s.(hands := Hold(s, s.pcs[k].me, Woken(s.waits[q][0])), waits := s.waits[q := s.waits[q][1..]])
    case Schedule(_) =>
      Queues(s, TopTid(s, s.pcs[k].me)).(hands := Drop(s, s.pcs[k].me))
    case Reap(_) =>
      s.(hands := Hold(s, s.pcs[k].me, Corpse(s.zombies[0])), zombies := s.zombies[1..])
    case Delete(_) =>
      s.(hands := Drop(s, s.pcs[k].me), deleted := s.deleted + {TopTid(s, s.pcs[k].me)})
    case Block(_, option, action) =>
      s.(pcs := s.pcs[k := Asked(s.pcs[k].me, option, action)], noPreempt := s.noPreempt[s.pcs[k].me := true],
         stopped := if action == Bury && !Idle(s, s.pcs[k].me) then s.stopped + {s.pcs[k].me} else s.stopped)
    case Pick(_) => Picked(s, k)
    case Commit(_) =>
      s.(pcs := s.pcs[k := Committed(s.pcs[k].me, s.pcs[k].next, s.pcs[k].action)],
         noPreempt := s.noPreempt[s.pcs[k].next := true], active := s.active[k := s.pcs[k].next])
    case Switch(_) =>
      s.(pcs := s.pcs[k := Closing(s.pcs[k].me, s.pcs[k].next, s.pcs[k].action)],
         saved := s.saved[s.pcs[k].me := true][s.pcs[k].next := false],
         noPreempt := s.noPreempt[s.pcs[k].me := false][s.pcs[k].next := false])
    case Close(_, asleep) => Closed(s, k, asleep)
    case Tick(_) => Ticked(s, k)
  }

  /** The queue is asked for a thread. */
  function Picked(s: State, k: nat): State
    requires k < Cores(s) && s.pcs[k].Asked?
  {
    var pc := s.pcs[k];
    if s.ready != [] then
      s.(pcs := s.pcs[k := Chosen(pc.me, s.ready[0], pc.action)], ready := s.ready[1..], left := s.left + [s.ready[0]])
    else if pc.option == CanReturn then s.(pcs := s.pcs[k := Running(pc.me)])
    else if Idle(s, pc.me) then s
    else s.(pcs := s.pcs[k := Chosen(pc.me, k, pc.action)])
  }

  /** The function given to `block` runs on the new stack; one that puts the thread to sleep may find
      that it need not. */
  function Closed(s: State, k: nat, asleep: bool): State
    requires k < Cores(s) && s.pcs[k].Closing?
    requires s.pcs[k].action.Sleep? ==> s.pcs[k].action.queue < |s.waits|
  {
    var pc := s.pcs[k];
    var s' := s.(pcs := s.pcs[k := Running(pc.next)]);
    if Idle(s, pc.prev) then s'
    else
      match pc.action
      case Requeue => Queues(s', pc.prev)
      case Bury => s'.(zombies := s.zombies + [pc.prev])
      case Sleep(q) =>
        if asleep then s'.(waits := s.waits[q := s.waits[q] + [pc.prev]]) else Queues(s', pc.prev)
  }

  /** The timer's handler yields unless the active thread is idle or must not be preempted. */
  function Ticked(s: State, k: nat): State
    requires k < Cores(s) && k < |s.active| && s.active[k] < |s.noPreempt|
  {
    var me := s.active[k];
    if Idle(s, me) || s.noPreempt[me] then s
    else if s.pcs[k].Running? then
      s.(pcs := s.pcs[k := Asked(me, CanReturn, Requeue)], noPreempt := s.noPreempt[me := true])
    else s.(pcs := s.pcs[k := Nested])
  }

  // ---- the census ----

  function Is(cores: nat, u: Tid, t: Tid): nat {
    if u == t && t >= cores then 1 else 0
  }

  /** How often core k has hold of thread t, idle threads aside. */
  function On(cores: nat, pc: Pc, t: Tid): nat {
    match pc
    case Running(u) => Is(cores, u, t)
    case Asked(u, _, _) => Is(cores, u, t)
    case Chosen(u, n, _) => Is(cores, u, t) + Is(cores, n, t)
    case Committed(u, n, _) => Is(cores, u, t) + Is(cores, n, t)
    case Closing(p, n, _) => Is(cores, p, t) + Is(cores, n, t)
    case Nested => 0
  }

  function InHand(h: seq<Held>, t: Tid): nat {
    if h == [] then 0 else InHand(h[..|h| - 1], t) + if h[|h| - 1].tid == t then 1 else 0
  }

  function InQueue(q: seq<Tid>, t: Tid): nat {
    multiset(q)[t]
  }

  function CoreParts(pcs: seq<Pc>, t: Tid): seq<nat> {
    seq(|pcs|, k requires 0 <= k < |pcs| => On(|pcs|, pcs[k], t))
  }

  function HandParts(hands: seq<seq<Held>>, t: Tid): seq<nat> {
    seq(|hands|, h requires 0 <= h < |hands| => InHand(hands[h], t))
  }

  function QueueParts(waits: seq<seq<Tid>>, t: Tid): seq<nat> {
    seq(|waits|, q requires 0 <= q < |waits| => InQueue(waits[q], t))
  }

  /** In how many places thread t is. */
  function Places(s: State, t: Tid): nat {
    Sum(CoreParts(s.pcs, t)) + InQueue(s.ready, t) + Sum(QueueParts(s.waits, t)) + InQueue(s.zombies, t)
    + Sum(HandParts(s.hands, t))
  }

  /** In how many it should be. */
  function Alive(s: State, t: Tid): nat {
    if Cores(s) <= t < Next(s) && t !in s.deleted then 1 else 0
  }

  // ---- the invariant ----

  /** The stack a core executes on. */
  function Stack(pc: Pc): Option<Tid> {
    match pc
    case Running(t) => Some(t)
    case Asked(t, _, _) => Some(t)
    case Chosen(t, _, _) => Some(t)
    case Committed(t, _, _) => Some(t)
    case Closing(_, n, _) => Some(n)
    case Nested => None
  }

  predicate Known(s: State, t: Tid) {
    t < Next(s) == |s.hands| == |s.noPreempt|
  }

  /** A thread that may be switched to: its registers are saved, and it has not stopped. */
  predicate Resting(s: State, t: Tid) {
    Known(s, t) && Cores(s) <= t && s.saved[t] && t !in s.stopped
  }

  predicate Dead(s: State, t: Tid) {
    Known(s, t) && Cores(s) <= t && s.saved[t] && t in s.stopped
  }

  /** A thread on core k that has called `block` and must not be preempted until the switch. */
  predicate Leaving(s: State, k: nat, t: Tid, action: Action) {
    && Known(s, t) && !s.saved[t] && s.noPreempt[t] && (t in s.stopped <==> action == Bury && !Idle(s, t))
    && (Idle(s, t) ==> t == k && action == Bury)
    && (action.Sleep? ==> action.queue < |s.waits|)
    && (action.Bury? ==> s.hands[t] == [])
  }

  /** The thread core k is switching to. */
  predicate Coming(s: State, k: nat, t: Tid) {
    if Idle(s, t) then t == k && Known(s, t) && s.saved[t] && t !in s.stopped else Resting(s, t)
  }

  predicate CoreOk(s: State, k: nat)
    requires k < Cores(s) == |s.active|
  {
    match s.pcs[k]
    case Running(t) => Known(s, t) && !s.saved[t] && t !in s.stopped && s.active[k] == t && (Idle(s, t) ==> t == k)
    case Asked(t, option, action) =>
      Leaving(s, k, t, action) && s.active[k] == t && (action != Requeue ==> option == MustBlock)
    case Chosen(t, n, action) => Leaving(s, k, t, action) && Coming(s, k, n) && s.active[k] == t && n != t
    case Committed(t, n, action) =>
      Leaving(s, k, t, action) && Coming(s, k, n) && s.noPreempt[n] && s.active[k] == n && n != t
    case Closing(p, n, action) =>
      && Known(s, p) && s.saved[p] && (p in s.stopped <==> action == Bury && !Idle(s, p))
      && (Idle(s, p) ==> p == k && action == Bury)
      && (action.Sleep? ==> action.queue < |s.waits|)
      && (action.Bury? ==> s.hands[p] == [])
      && Known(s, n) && !s.saved[n] && !s.noPreempt[n]
      && n !in s.stopped && s.active[k] == n && (Idle(s, n) ==> n == k) && n != p
    case Nested => false
  }

  /** The idle thread of a core that is running another is saved. */
  predicate IdleOk(s: State, k: nat)
    requires k < Cores(s)
  {
    k < Next(s) && k !in s.stopped && (Stack(s.pcs[k]) != Some(k) ==> s.saved[k])
  }

  predicate HeldOk(s: State, h: Held) {
    match h
    case Woken(x) => Resting(s, x)
    case Corpse(x) => Dead(s, x)
  }

  predicate HandOk(s: State, t: nat)
    requires t < |s.hands|
  {
    forall i | 0 <= i < |s.hands[t]| :: HeldOk(s, s.hands[t][i])
  }

  predicate ReadyOk(s: State, i: nat)
    requires i < |s.ready|
  {
    Resting(s, s.ready[i])
  }

  predicate WaitOk(s: State, q: nat, i: nat)
    requires q < |s.waits| && i < |s.waits[q]|
  {
    Resting(s, s.waits[q][i])
  }

  predicate ZombieOk(s: State, i: nat)
    requires i < |s.zombies|
  {
    Dead(s, s.zombies[i])
  }

  predicate CoreFine(s: State, k: nat)
    requires k < Cores(s) == |s.active|
  {
    CoreOk(s, k) && IdleOk(s, k)
  }

  ghost predicate CoresOk(s: State) {
    && |s.saved| == |s.hands| == |s.noPreempt| && |s.active| == Cores(s) <= Next(s)
    && (forall t | t in s.stopped || t in s.deleted :: Cores(s) <= t < Next(s))
    && (forall k {:trigger CoreOk(s, k)} {:trigger CoreFine(s, k)} | 0 <= k < Cores(s) :: CoreFine(s, k))
  }

  ghost predicate PlacesOk(s: State) {
    && CoresOk(s)
    && (forall t {:trigger HandOk(s, t)} | 0 <= t < |s.hands| :: HandOk(s, t))
    && (forall i {:trigger ReadyOk(s, i)} | 0 <= i < |s.ready| :: ReadyOk(s, i))
    && (forall q, i {:trigger WaitOk(s, q, i)} | 0 <= q < |s.waits| && 0 <= i < |s.waits[q]| :: WaitOk(s, q, i))
    && (forall i {:trigger ZombieOk(s, i)} | 0 <= i < |s.zombies| :: ZombieOk(s, i))
  }

  /** Each thread that exists is in exactly one place, and no other is anywhere. */
  ghost predicate Counted(s: State) {
    forall t {:trigger Places(s, t)} :: Places(s, t) == Alive(s, t)
  }

  /** The ready queue is served in order. */
  predicate InOrder(s: State) {
    s.joined == s.left + s.ready
  }

  ghost predicate Inv(s: State) {
    PlacesOk(s) && Counted(s) && InOrder(s)
  }

  // ---- one place at a time ----

  lemma CoreMoves(pcs: seq<Pc>, k: nat, pc: Pc, t: Tid)
    requires k < |pcs|
    ensures Sum(CoreParts(pcs[k := pc], t)) + On(|pcs|, pcs[k], t) == Sum(CoreParts(pcs, t)) + On(|pcs|, pc, t)
  {
    SumUpdate(CoreParts(pcs, t), k, On(|pcs|, pc, t));
    assert CoreParts(pcs[k := pc], t) == CoreParts(pcs, t)[k := On(|pcs|, pc, t)];
  }

  lemma HandMoves(hands: seq<seq<Held>>, h: nat, hand: seq<Held>, t: Tid)
    requires h < |hands|
    ensures Sum(HandParts(hands[h := hand], t)) + InHand(hands[h], t) == Sum(HandParts(hands, t)) + InHand(hand, t)
  {
    SumUpdate(HandParts(hands, t), h, InHand(hand, t));
    assert HandParts(hands[h := hand], t) == HandParts(hands, t)[h := InHand(hand, t)];
  }

  lemma QueueMoves(waits: seq<seq<Tid>>, q: nat, queue: seq<Tid>, t: Tid)
    requires q < |waits|
    ensures Sum(QueueParts(waits[q := queue], t)) + InQueue(waits[q], t)
         == Sum(QueueParts(waits, t)) + InQueue(queue, t)
  {
    SumUpdate(QueueParts(waits, t), q, InQueue(queue, t));
    assert QueueParts(waits[q := queue], t) == QueueParts(waits, t)[q := InQueue(queue, t)];
  }

  lemma HeadOff(q: seq<Tid>, t: Tid)
    requires q != []
    ensures InQueue(q, t) == InQueue(q[1..], t) + if q[0] == t then 1 else 0
  {
    assert q == [q[0]] + q[1..];
  }

  lemma TailOn(q: seq<Tid>, u: Tid, t: Tid)
    ensures InQueue(q + [u], t) == InQueue(q, t) + if u == t then 1 else 0
  {
  }

  lemma Queued(q: seq<Tid>, i: nat)
    requires i < |q|
    ensures InQueue(q, q[i]) >= 1
  {
    assert q[i] in multiset(q);
  }

  lemma {:induction false} InHandAt(h: seq<Held>, i: nat)
    requires i < |h|
    ensures InHand(h, h[i].tid) >= 1
  {
    if i < |h| - 1 {
      InHandAt(h[..|h| - 1], i);
    }
  }

  lemma OneMoreHeld(h: seq<Held>, x: Held, t: Tid)
    ensures InHand(h + [x], t) == InHand(h, t) + if x.tid == t then 1 else 0
  {
    assert (h + [x])[..|h|] == h;
  }

  /** Thread t is in a queue or in a hand. */
  predicate Stored(s: State, t: Tid) {
    || (exists i :: 0 <= i < |s.ready| && s.ready[i] == t)
    || (exists q, i :: 0 <= q < |s.waits| && 0 <= i < |s.waits[q]| && s.waits[q][i] == t)
    || (exists i :: 0 <= i < |s.zombies| && s.zombies[i] == t)
    || (exists h :: 0 <= h < |s.hands| && InHand(s.hands[h], t) > 0)
  }

  /** A thread that core k has hold of is nowhere else. */
  lemma OnlyThere(s: State, k: nat, t: Tid)
    requires Places(s, t) <= 1 && k < Cores(s) && On(Cores(s), s.pcs[k], t) > 0
    ensures On(Cores(s), s.pcs[k], t) == 1 && !Stored(s, t)
    ensures forall j {:trigger CoreOk(s, j)} | 0 <= j < Cores(s) == |s.active| && j != k :: On(Cores(s), s.pcs[j], t) == 0
  {
    hide InQueue, Sum, InHand, On;
    SumAtLeast(CoreParts(s.pcs, t), k);
    assert CoreParts(s.pcs, t)[k] == On(Cores(s), s.pcs[k], t);
    forall i | 0 <= i < |s.ready| ensures s.ready[i] != t {
      Queued(s.ready, i);
    }
    forall i | 0 <= i < |s.zombies| ensures s.zombies[i] != t {
      Queued(s.zombies, i);
    }
    forall q, i | 0 <= q < |s.waits| && 0 <= i < |s.waits[q]| ensures s.waits[q][i] != t {
      SumAtLeast(QueueParts(s.waits, t), q);
      Queued(s.waits[q], i);
      assert QueueParts(s.waits, t)[q] == InQueue(s.waits[q], t);
    }
    forall h | 0 <= h < |s.hands| ensures InHand(s.hands[h], t) == 0 {
      SumAtLeast(HandParts(s.hands, t), h);
      assert HandParts(s.hands, t)[h] == InHand(s.hands[h], t);
    }
    forall j | 0 <= j < Cores(s) && j != k ensures On(Cores(s), s.pcs[j], t) == 0 {
      assert CoreParts(s.pcs, t)[j] == On(Cores(s), s.pcs[j], t);
    }
  }

  // ---- every step moves threads, and loses or doubles none ----

  lemma NewHand(hands: seq<seq<Held>>, t: Tid)
    ensures Sum(HandParts(hands + [[]], t)) == Sum(HandParts(hands, t))
  {
    assert HandParts(hands + [[]], t) == HandParts(hands, t) + [0];
    assert (HandParts(hands, t) + [0])[..|hands|] == HandParts(hands, t);
  }

  lemma ReadyHead(s: State)
    requires PlacesOk(s)
    ensures s.ready != [] ==> Coming(s, 0, s.ready[0]) && !Idle(s, s.ready[0])
  {
    assert s.ready != [] ==> ReadyOk(s, 0);
  }

  /** The timer does nothing while its core is inside `block`: the thread that the handler finds active is
      idle, or is one that must not be preempted. */
  lemma TimerSafe(s: State, k: nat)
    requires PlacesOk(s) && Enabled(s, Tick(k)) && !s.pcs[k].Running?
    ensures Apply(s, Tick(k)) == s
  {
    assert CoreOk(s, k);
  }

  predicate HandStep(step: Step) {
    step.Create? || step.Wake? || step.Schedule? || step.Reap? || step.Delete?
  }

  lemma HandStepPlaces(s: State, step: Step, t: Tid)
    requires Enabled(s, step) && HandStep(step)
    ensures var s' := Apply(s, step);
      Places(s', t) + (if step.Delete? && TopTid(s, s.pcs[step.k].me) == t then 1 else 0)
      == Places(s, t) + (if step.Create? && t == Next(s) then 1 else 0)
  {
    hide Sum, InQueue, On;
    var s', me := Apply(s, step), s.pcs[step.k].me;
    match step
    case Create(_) =>
      HandMoves(s.hands, me, s.hands[me] + [Woken(Next(s))], t);
      OneMoreHeld(s.hands[me], Woken(Next(s)), t);
      NewHand(Hold(s, me, Woken(Next(s))), t);
    case Wake(_, q) =>
      HandMoves(s.hands, me, s'.hands[me], t);
      OneMoreHeld(s.hands[me], Woken(s.waits[q][0]), t);
      QueueMoves(s.waits, q, s.waits[q][1..], t);
      HeadOff(s.waits[q], t);
    case Schedule(_) =>
      HandMoves(s.hands, me, s'.hands[me], t);
      TailOn(s.ready, TopTid(s, me), t);
    case Reap(_) =>
      HandMoves(s.hands, me, s'.hands[me], t);
      OneMoreHeld(s.hands[me], Corpse(s.zombies[0]), t);
      HeadOff(s.zombies, t);
    case Delete(_) =>
      HandMoves(s.hands, me, s'.hands[me], t);
  }

  lemma ClosePlaces(s: State, k: nat, asleep: bool, t: Tid)
    requires Enabled(s, Close(k, asleep))
    ensures Places(Closed(s, k, asleep), t) == Places(s, t)
  {
    hide Sum, InQueue, HandParts;
    var s', p := Closed(s, k, asleep), s.pcs[k].prev;
    CoreMoves(s.pcs, k, s'.pcs[k], t);
    TailOn(s.ready, p, t);
    TailOn(s.zombies, p, t);
    if s.pcs[k].action.Sleep? {
      var q := s.pcs[k].action.queue;
      TailOn(s.waits[q], p, t);
      QueueMoves(s.waits, q, s.waits[q] + [p], t);
    }
  }

  lemma BlockStepPlaces(s: State, step: Step, t: Tid)
    requires PlacesOk(s) && Enabled(s, step) && !HandStep(step)
    ensures Places(Apply(s, step), t) == Places(s, t)
  {
    hide Sum, InQueue, PlacesOk, HandParts, QueueParts;
    var s', k := Apply(s, step), step.k;
    if step.Close? {
      ClosePlaces(s, k, step.asleep, t);
    } else if step.Tick? && !s.pcs[k].Running? {
      TimerSafe(s, k);
    } else {
      CoreMoves(s.pcs, k, s'.pcs[k], t);
      if step.Pick? && s.ready != [] {
        ReadyHead(s);
        HeadOff(s.ready, t);
      } else if step.Tick? || step.Block? {
        ActiveIsMe(s, k);
      }
    }
  }

  lemma ActiveIsMe(s: State, k: nat)
    requires PlacesOk(s) && k < Cores(s) && s.pcs[k].Running?
    ensures s.active[k] == s.pcs[k].me
  {
    assert CoreOk(s, k);
  }

  // ---- every thread is as its place requires ----

  /** The thread at work on core k is not one that is leaving another core. */
  lemma OneHolder(s: State, k: nat, j: nat)
    requires Inv(s) && AtWork(s, k) && j < Cores(s) && j != k
    ensures match s.pcs[j]
            case Asked(t, _, _) => t != s.pcs[k].me
            case Chosen(t, _, _) => t != s.pcs[k].me
            case Committed(t, _, _) => t != s.pcs[k].me
            case Closing(p, _, _) => p != s.pcs[k].me
            case _ => true
  {
    hide Places;
    assert CoreOk(s, k) && CoreOk(s, j);
    if !Idle(s, s.pcs[k].me) {
      assert Places(s, s.pcs[k].me) <= 1;
      OnlyThere(s, k, s.pcs[k].me);
    }
  }

  /** Nothing about any core or thread changes but the hands of the thread at work on core k. */
  predicate OnlyHands(s: State, s': State, k: nat) {
    && AtWork(s, k) && s'.pcs == s.pcs && s'.active == s.active && s'.stopped == s.stopped
    && |s'.waits| == |s.waits| && s.saved <= s'.saved && s.noPreempt <= s'.noPreempt
    && |s'.hands| == |s'.saved| == |s'.noPreempt| >= |s.hands|
    && (forall t | 0 <= t < |s.hands| && t != s.pcs[k].me :: s'.hands[t] == s.hands[t])
  }

  lemma CoresStay(s: State, s': State, k: nat)
    requires Inv(s) && OnlyHands(s, s', k)
    ensures forall j {:trigger CoreOk(s', j)} {:trigger CoreFine(s', j)} | 0 <= j < Cores(s') :: CoreFine(s', j)
  {
    hide Counted, Places;
    forall j | 0 <= j < Cores(s') ensures CoreFine(s', j) {
      assert CoreOk(s, j) && IdleOk(s, j);
      if j != k {
        OneHolder(s, k, j);
      }
    }
  }

  lemma HandStepHands(s: State, step: Step)
    requires PlacesOk(s) && Enabled(s, step) && HandStep(step)
    ensures var s' := Apply(s, step);
      forall t {:trigger HandOk(s', t)} | 0 <= t < |s'.hands| :: HandOk(s', t)
  {
    hide CoreOk, IdleOk;
    var s', me := Apply(s, step), s.pcs[step.k].me;
    assert HandOk(s, me);
    assert step.Wake? ==> WaitOk(s, step.queue, 0);
    assert step.Reap? ==> ZombieOk(s, 0);
    forall t | 0 <= t < |s'.hands| ensures HandOk(s', t) {
      assert t < |s.hands| ==> HandOk(s, t);
      forall i | 0 <= i < |s'.hands[t]| ensures HeldOk(s', s'.hands[t][i]) {
        assert t < |s.hands| && i < |s.hands[t]| ==> s'.hands[t][i] == s.hands[t][i];
      }
    }
  }

  lemma HandStepQueues(s: State, step: Step)
    requires PlacesOk(s) && Enabled(s, step) && HandStep(step)
    ensures var s' := Apply(s, step);
      && (forall i {:trigger ReadyOk(s', i)} | 0 <= i < |s'.ready| :: ReadyOk(s', i))
      && (forall q, i {:trigger WaitOk(s', q, i)} | 0 <= q < |s'.waits| && 0 <= i < |s'.waits[q]| :: WaitOk(s', q, i))
      && (forall i {:trigger ZombieOk(s', i)} | 0 <= i < |s'.zombies| :: ZombieOk(s', i))
  {
    hide CoreOk, IdleOk;
    var s', me := Apply(s, step), s.pcs[step.k].me;
    assert HandOk(s, me);
    forall i | 0 <= i < |s'.ready| ensures ReadyOk(s', i) {
      assert i < |s.ready| ==> ReadyOk(s, i);
    }
    forall q, i | 0 <= q < |s'.waits| && 0 <= i < |s'.waits[q]| ensures WaitOk(s', q, i) {
      assert WaitOk(s, q, if step.Wake? && q == step.queue then i + 1 else i);
    }
    forall i | 0 <= i < |s'.zombies| ensures ZombieOk(s', i) {
      assert ZombieOk(s, if step.Reap? then i + 1 else i);
    }
  }

  lemma HandStepCores(s: State, step: Step)
    requires Inv(s) && Enabled(s, step) && HandStep(step)
    ensures CoresOk(Apply(s, step))
  {
    hide Places, CoreOk, IdleOk, ReadyOk, WaitOk, ZombieOk, Counted;
    var s', me := Apply(s, step), s.pcs[step.k].me;
    CoresStay(s, s', step.k);
    assert HandOk(s, me);
  }

  lemma HandStepKeeps(s: State, step: Step)
    requires Inv(s) && Enabled(s, step) && HandStep(step)
    ensures PlacesOk(Apply(s, step))
  {
    hide Apply, Enabled, HandStep, CoresOk, CoreOk, IdleOk, HandOk, ReadyOk, WaitOk, ZombieOk, Counted;
    HandStepCores(s, step);
    HandStepHands(s, step);
    HandStepQueues(s, step);
    Assembled(Apply(s, step));
  }

  lemma Assembled(s: State)
    requires CoresOk(s)
    requires forall t {:trigger HandOk(s, t)} | 0 <= t < |s.hands| :: HandOk(s, t)
    requires forall i {:trigger ReadyOk(s, i)} | 0 <= i < |s.ready| :: ReadyOk(s, i)
    requires forall q, i {:trigger WaitOk(s, q, i)} | 0 <= q < |s.waits| && 0 <= i < |s.waits[q]| :: WaitOk(s, q, i)
    requires forall i {:trigger ZombieOk(s, i)} | 0 <= i < |s.zombies| :: ZombieOk(s, i)
    ensures PlacesOk(s)
  {
    hide CoresOk, HandOk, ReadyOk, WaitOk, ZombieOk;
  }

  predicate Mentions(pc: Pc, t: Tid) {
    match pc
    case Running(u) => u == t
    case Asked(u, _, _) => u == t
    case Chosen(u, n, _) => u == t || n == t
    case Committed(u, n, _) => u == t || n == t
    case Closing(p, n, _) => p == t || n == t
    case Nested => false
  }

  predicate SameThread(s: State, s': State, t: Tid)
    requires t < |s.saved| == |s'.saved| && t < |s.noPreempt| == |s'.noPreempt|
  {
    s'.saved[t] == s.saved[t] && s'.noPreempt[t] == s.noPreempt[t] && (t in s'.stopped <==> t in s.stopped)
  }

  /** Nothing changes but core k and the threads it has hold of. */
  ghost predicate OnlyCore(s: State, s': State, k: nat) {
    && k < Cores(s) == Cores(s') == |s.active| == |s'.active|
    && |s.saved| == |s'.saved| == |s.noPreempt| == |s'.noPreempt| && s'.hands == s.hands && |s'.waits| == |s.waits|
    && s'.deleted == s.deleted
    && (forall t | t in s'.stopped :: t in s.stopped || Cores(s) <= t < Next(s))
    && (forall j {:trigger s'.pcs[j]} | 0 <= j < Cores(s) && j != k :: s'.pcs[j] == s.pcs[j] && s'.active[j] == s.active[j])
    && (forall t {:trigger SameThread(s, s', t)} | 0 <= t < |s.saved| && !Mentions(s.pcs[k], t) :: SameThread(s, s', t))
  }

  lemma NotMentionedTwice(s: State, k: nat, j: nat, t: Tid)
    requires Inv(s) && k < Cores(s) && j < Cores(s) && j != k && Mentions(s.pcs[j], t)
    ensures !Mentions(s.pcs[k], t) && t < Next(s)
  {
    hide Places;
    assert CoreOk(s, k) && CoreOk(s, j);
    if !Idle(s, t) {
      assert Places(s, t) <= 1;
      OnlyThere(s, j, t);
    }
  }

  lemma MentionedStays(s: State, s': State, k: nat, j: nat, t: Tid)
    requires Inv(s) && OnlyCore(s, s', k) && j < Cores(s) && j != k && Mentions(s.pcs[j], t)
    ensures t < Next(s) && SameThread(s, s', t)
  {
    hide Places, Counted, CoreOk, IdleOk;
    NotMentionedTwice(s, k, j, t);
  }

  lemma CoreStays(s: State, s': State, k: nat, j: nat)
    requires Inv(s) && OnlyCore(s, s', k) && j < Cores(s) && j != k
    ensures CoreOk(s', j) && IdleOk(s', j)
  {
    hide Places, Counted;
    assert CoreOk(s, j) && IdleOk(s, j) && s'.pcs[j] == s.pcs[j];
    match s.pcs[j] {
      case Running(t) => MentionedStays(s, s', k, j, t);
      case Asked(t, _, _) => MentionedStays(s, s', k, j, t);
      case Chosen(t, n, _) => MentionedStays(s, s', k, j, t); MentionedStays(s, s', k, j, n);
      case Committed(t, n, _) => MentionedStays(s, s', k, j, t); MentionedStays(s, s', k, j, n);
      case Closing(p, n, _) => MentionedStays(s, s', k, j, p); MentionedStays(s, s', k, j, n);
      case Nested =>
    }
    IdleElsewhere(s, k, j);
    assert SameThread(s, s', j);
  }

  lemma QueuesStay(s: State, s': State, k: nat)
    requires Inv(s) && OnlyCore(s, s', k)
    ensures forall i {:trigger ReadyOk(s, i)} | 0 <= i < |s.ready| :: Resting(s', s.ready[i])
    ensures forall q, i {:trigger WaitOk(s, q, i)} | 0 <= q < |s.waits| && 0 <= i < |s.waits[q]| ::
      Resting(s', s.waits[q][i])
    ensures forall i {:trigger ZombieOk(s, i)} | 0 <= i < |s.zombies| :: Dead(s', s.zombies[i])
    ensures forall t {:trigger HandOk(s', t)} | 0 <= t < |s'.hands| :: HandOk(s', t)
  {
    hide Places, Counted, CoreOk, IdleOk;
    forall i | 0 <= i < |s.ready| ensures Resting(s', s.ready[i]) {
      assert ReadyOk(s, i);
      QueuedElsewhere(s, k, s.ready[i]);
      assert SameThread(s, s', s.ready[i]);
    }
    forall q, i | 0 <= q < |s.waits| && 0 <= i < |s.waits[q]| ensures Resting(s', s.waits[q][i]) {
      assert WaitOk(s, q, i);
      QueuedElsewhere(s, k, s.waits[q][i]);
      assert SameThread(s, s', s.waits[q][i]);
    }
    forall i | 0 <= i < |s.zombies| ensures Dead(s', s.zombies[i]) {
      assert ZombieOk(s, i);
      QueuedElsewhere(s, k, s.zombies[i]);
      assert SameThread(s, s', s.zombies[i]);
    }
    forall t | 0 <= t < |s'.hands| ensures HandOk(s', t) {
      assert HandOk(s, t);
      forall i | 0 <= i < |s.hands[t]| ensures HeldOk(s', s.hands[t][i]) {
        assert HeldOk(s, s.hands[t][i]);
        InHandAt(s.hands[t], i);
        QueuedElsewhere(s, k, s.hands[t][i].tid);
        assert SameThread(s, s', s.hands[t][i].tid);
      }
    }
  }

  lemma QueuedElsewhere(s: State, k: nat, t: Tid)
    requires Inv(s) && k < Cores(s) && !Idle(s, t) && Stored(s, t)
    ensures !Mentions(s.pcs[k], t)
  {
    hide Places, Counted, CoreOk, IdleOk, Stored;
    AtMostOnce(s, t);
    if Mentions(s.pcs[k], t) {
      OnlyThere(s, k, t);
    }
  }

  lemma AtMostOnce(s: State, t: Tid)
    requires Counted(s)
    ensures Places(s, t) <= 1
  {
    hide Places;
  }

  lemma IdleElsewhere(s: State, k: nat, j: nat)
    requires PlacesOk(s) && k < Cores(s) && j < Cores(s) && j != k
    ensures !Mentions(s.pcs[k], j)
  {
    assert CoreOk(s, k);
  }

  lemma OwnChanges(s: State, step: Step)
    requires Inv(s) && Enabled(s, step) && !HandStep(step)
    ensures OnlyCore(s, Apply(s, step), step.k)
  {
    hide Places, Counted, IdleOk, Picked, Closed;
    assert CoreOk(s, step.k);
    match step
    case Pick(k) => PickedChanges(s, k);
    case Close(k, asleep) => ClosedChanges(s, k, asleep);
    case _ =>
  }

  lemma PickedChanges(s: State, k: nat)
    requires PlacesOk(s) && Enabled(s, Pick(k))
    ensures OnlyCore(s, Picked(s, k), k)
  {
  }

  lemma ClosedChanges(s: State, k: nat, asleep: bool)
    requires PlacesOk(s) && Enabled(s, Close(k, asleep))
    ensures OnlyCore(s, Closed(s, k, asleep), k)
  {
  }

  lemma PickedWell(s: State, k: nat)
    requires Inv(s) && Enabled(s, Pick(k))
    ensures CoreOk(Picked(s, k), k)
  {
    hide Places, Counted;
    assert CoreOk(s, k) && IdleOk(s, k);
    if s.ready != [] {
      assert ReadyOk(s, 0);
      QueuedElsewhere(s, k, s.ready[0]);
    }
  }

  lemma ClosedWell(s: State, k: nat, asleep: bool)
    requires Inv(s) && Enabled(s, Close(k, asleep))
    ensures CoreOk(Closed(s, k, asleep), k)
  {
    hide Places, Counted;
    assert CoreOk(s, k);
  }

  lemma SwitchedWell(s: State, k: nat)
    requires Inv(s) && Enabled(s, Switch(k))
    ensures CoreOk(Apply(s, Switch(k)), k)
  {
    hide Places, Counted, PlacesOk;
    CoreIsOk(s, k);
  }

  lemma CoreIsOk(s: State, k: nat)
    requires PlacesOk(s) && k < Cores(s)
    ensures |s.active| == Cores(s) <= Next(s) == |s.hands| == |s.noPreempt| && CoreOk(s, k) && IdleOk(s, k)
  {
  }

  /** Core k itself is in order after its step. */
  lemma OwnCore(s: State, step: Step)
    requires Inv(s) && Enabled(s, step) && !HandStep(step)
    ensures CoreOk(Apply(s, step), step.k) && IdleOk(Apply(s, step), step.k)
  {
    hide Places, Counted, PlacesOk, Picked, Closed;
    var k := step.k;
    CoreIsOk(s, k);
    match step
    case Pick(_) => PickedWell(s, k); PickedIdle(s, k);
    case Close(_, asleep) => ClosedWell(s, k, asleep); ClosedIdle(s, k, asleep);
    case Switch(_) => SwitchedWell(s, k);
    case _ =>
  }

  lemma PickedIdle(s: State, k: nat)
    requires Enabled(s, Pick(k)) && IdleOk(s, k)
    ensures IdleOk(Picked(s, k), k)
  {
  }

  lemma ClosedIdle(s: State, k: nat, asleep: bool)
    requires Enabled(s, Close(k, asleep)) && IdleOk(s, k)
    ensures IdleOk(Closed(s, k, asleep), k)
  {
  }

  lemma ClosedQueues(s: State, k: nat, asleep: bool)
    requires Inv(s) && Enabled(s, Close(k, asleep))
    ensures var s', p := Closed(s, k, asleep), s.pcs[k].prev;
      && (s'.ready == s.ready || (s'.ready == s.ready + [p] && Resting(s', p)))
      && (s'.zombies == s.zombies || (s'.zombies == s.zombies + [p] && Dead(s', p)))
      && (s'.waits == s.waits || exists q :: 0 <= q < |s.waits| && s'.waits == s.waits[q := s.waits[q] + [p]] && Resting(s', p))
  {
    hide Places, Counted;
    assert CoreOk(s, k);
  }

  lemma BlockStepKeeps(s: State, step: Step)
    requires Inv(s) && Enabled(s, step) && !HandStep(step)
    ensures PlacesOk(Apply(s, step))
  {
    hide Places, Counted, CoreOk, IdleOk, HandOk;
    var s', k := Apply(s, step), step.k;
    OwnChanges(s, step);
    OwnCore(s, step);
    QueuesStay(s, s', k);
    if step.Close? {
      ClosedQueues(s, k, step.asleep);
    }
    forall j | 0 <= j < Cores(s') ensures CoreFine(s', j) {
      if j != k {
        CoreStays(s, s', k, j);
      }
    }
    forall i | 0 <= i < |s'.ready| ensures ReadyOk(s', i) {
      var i' := if step.Pick? && s.ready != [] then i + 1 else i;
      assert i' < |s.ready| ==> ReadyOk(s, i');
    }
    forall q, i | 0 <= q < |s'.waits| && 0 <= i < |s'.waits[q]| ensures WaitOk(s', q, i) {
      assert i < |s.waits[q]| ==> WaitOk(s, q, i);
    }
    forall i | 0 <= i < |s'.zombies| ensures ZombieOk(s', i) {
      assert i < |s.zombies| ==> ZombieOk(s, i);
    }
  }

  lemma StepKeeps(s: State, step: Step)
    requires Inv(s) && Enabled(s, step)
    ensures Inv(Apply(s, step))
  {
    hide PlacesOk, Places, Enabled;
    var s' := Apply(s, step);
    OrderKept(s, step);
    if HandStep(step) {
      HandStepKeeps(s, step);
    } else {
      BlockStepKeeps(s, step);
    }
    forall t ensures Places(s', t) == Alive(s', t) {
      assert Places(s, t) == Alive(s, t);
      if HandStep(step) {
        HandStepPlaces(s, step, t);
        CensusFollows(s, step, t);
      } else {
        BlockStepPlaces(s, step, t);
        SameThreads(s, step, t);
      }
    }
  }

  lemma OrderKept(s: State, step: Step)
    requires InOrder(s) && Enabled(s, step)
    ensures var s' := Apply(s, step);
      && InOrder(s') && s.left <= s'.left && s.joined <= s'.joined
      && (s'.left != s.left ==> step.Pick?)
  {
  }

  lemma SameThreads(s: State, step: Step, t: Tid)
    requires Enabled(s, step) && !HandStep(step)
    ensures Alive(Apply(s, step), t) == Alive(s, t)
  {
  }

  lemma CensusFollows(s: State, step: Step, t: Tid)
    requires PlacesOk(s) && Enabled(s, step) && HandStep(step) && Places(s, t) == Alive(s, t)
    requires var s' := Apply(s, step);
      Places(s', t) + (if step.Delete? && TopTid(s, s.pcs[step.k].me) == t then 1 else 0)
      == Places(s, t) + (if step.Create? && t == Next(s) then 1 else 0)
    ensures Places(Apply(s, step), t) == Alive(Apply(s, step), t)
  {
    hide Places, CoreOk, IdleOk, ReadyOk, ZombieOk, WaitOk;
    assert step.Delete? ==> HandOk(s, s.pcs[step.k].me);
  }

  // ---- whole runs ----

  /** The machine as `threadsInit` leaves it: each core runs its idle thread. */
  function Initial(cores: nat, queues: nat): State {
    State(seq(cores, k requires 0 <= k < cores => Running(k)), seq(cores, k requires 0 <= k < cores => k),
          seq(cores, _ => false), seq(cores, _ => false), seq(cores, _ => []),
          [], seq(queues, _ => []), [], {}, {}, [], [])
  }

  lemma InitialOk(cores: nat, queues: nat)
    ensures Inv(Initial(cores, queues))
  {
    var s := Initial(cores, queues);
    forall k | 0 <= k < cores ensures CoreOk(s, k) && IdleOk(s, k) {
      assert s.pcs[k] == Running(k);
    }
    forall t ensures Places(s, t) == Alive(s, t) {
      AllZero(CoreParts(s.pcs, t));
      AllZero(HandParts(s.hands, t));
      AllZero(QueueParts(s.waits, t));
    }
  }

  /** The steps that can be taken, in the order given; a step that cannot is passed over. */
  function Run(s: State, steps: seq<Step>): State
    decreases |steps|
  {
    if steps == [] then s
    else Run(if Enabled(s, steps[0]) then Apply(s, steps[0]) else s, steps[1..])
  }

  lemma {:induction false} RunKeeps(s: State, steps: seq<Step>)
    requires Inv(s)
    ensures Inv(Run(s, steps)) && Cores(Run(s, steps)) == Cores(s)
    ensures s.deleted <= Run(s, steps).deleted && s.stopped <= Run(s, steps).stopped
    ensures s.joined <= Run(s, steps).joined && s.left <= Run(s, steps).left
    decreases |steps|
  {
    hide Inv, Enabled, Apply;
    if steps != [] {
      if Enabled(s, steps[0]) {
        StepKeeps(s, steps[0]);
        StepGrows(s, steps[0]);
        InvOrder(s);
        OrderKept(s, steps[0]);
        RunKeeps(Apply(s, steps[0]), steps[1..]);
      } else {
        RunKeeps(s, steps[1..]);
      }
    }
  }

  lemma InvOrder(s: State)
    requires Inv(s)
    ensures InOrder(s)
  {
  }

  lemma StepGrows(s: State, step: Step)
    requires Enabled(s, step)
    ensures var s' := Apply(s, step); Cores(s') == Cores(s) && s.deleted <= s'.deleted && s.stopped <= s'.stopped
  {
  }

  /** In every run each thread that exists is in exactly one place, no stack is on two cores, the timer
      has never nested one `block` in another, an idle thread waits for work on its own core, where it is
      the active thread, and only threads whose registers are saved are queued. */
  lemma AnyRun(cores: nat, queues: nat, steps: seq<Step>)
    ensures var s := Run(Initial(cores, queues), steps);
      && (forall t | Cores(s) <= t < Next(s) && t !in s.deleted :: Places(s, t) == 1)
      && (forall j, k | 0 <= j < k < Cores(s) :: Stack(s.pcs[j]) != Stack(s.pcs[k]))
      && (forall k | 0 <= k < Cores(s) :: !s.pcs[k].Nested?)
      && (forall k | 0 <= k < Cores(s) && s.pcs[k].Asked? && Idle(s, s.pcs[k].me) ::
            s.pcs[k].me == k && k < |s.active| && s.active[k] == k)
      && (forall i | 0 <= i < |s.ready| :: Known(s, s.ready[i]) && s.saved[s.ready[i]])
      && (forall q, i | 0 <= q < |s.waits| && 0 <= i < |s.waits[q]| ::
            Known(s, s.waits[q][i]) && s.saved[s.waits[q][i]])
      && (forall i | 0 <= i < |s.zombies| :: Known(s, s.zombies[i]) && s.saved[s.zombies[i]])
      && s.joined == s.left + s.ready
  {
    hide Places, Run;
    InitialOk(cores, queues);
    RunKeeps(Initial(cores, queues), steps);
    var s := Run(Initial(cores, queues), steps);
    forall j, k | 0 <= j < k < Cores(s) ensures Stack(s.pcs[j]) != Stack(s.pcs[k]) {
      OneStackEach(s, j, k);
    }
    forall k | 0 <= k < Cores(s)
      ensures !s.pcs[k].Nested?
      ensures s.pcs[k].Asked? && Idle(s, s.pcs[k].me) ==> s.pcs[k].me == k && s.active[k] == k
    {
      assert CoreOk(s, k);
    }
    forall i | 0 <= i < |s.ready| ensures Known(s, s.ready[i]) && s.saved[s.ready[i]] {
      assert ReadyOk(s, i);
    }
    forall q, i | 0 <= q < |s.waits| && 0 <= i < |s.waits[q]|
      ensures Known(s, s.waits[q][i]) && s.saved[s.waits[q][i]]
    {
      assert WaitOk(s, q, i);
    }
    forall i | 0 <= i < |s.zombies| ensures Known(s, s.zombies[i]) && s.saved[s.zombies[i]] {
      assert ZombieOk(s, i);
    }
  }

  // ---- `block` gives the core away ----

  /** The ready queue is served in turn: after i more have been taken, it is the turn of the thread that is
      now the i-th. */
  lemma ServedInTurn(s: State, steps: seq<Step>, i: nat)
    requires Inv(s) && i < |s.ready|
    ensures var s' := Run(s, steps);
      && |s'.left| >= |s.left|
      && var taken := |s'.left| - |s.left|;
      if taken > i then s'.left[|s.left| + i] == s.ready[i]
      else |s'.ready| > i - taken && s'.ready[i - taken] == s.ready[i]
  {
    hide Run, PlacesOk, Counted;
    RunKeeps(s, steps);
    var s' := Run(s, steps);
    assert s.joined[|s.left| + i] == s.ready[i];
    assert s'.joined[|s.left| + i] == s.ready[i];
  }

  /** What `block` finds decides where it goes: to the head of the queue, whatever it was asked; with an
      empty queue back to its caller, or to the core's idle thread, which itself looks again. */
  lemma PickGoes(s: State, k: nat)
    requires Inv(s) && Enabled(s, Pick(k))
    ensures var s', pc := Apply(s, Pick(k)), s.pcs[k];
      if s.ready != [] then s'.pcs[k] == Chosen(pc.me, s.ready[0], pc.action) && s.ready == [s.ready[0]] + s'.ready
      else if pc.option == CanReturn then s'.pcs[k] == Running(pc.me)
      else if pc.me < Cores(s) then s' == s
      else s'.pcs[k] == Chosen(pc.me, k, pc.action)
  {
    hide Places, Counted;
  }

  /** Without a switch `block` comes back to its caller only if the queue was empty and it was allowed to. */
  lemma ReturnsOnlyWhenEmpty(s: State, step: Step, k: nat)
    requires Inv(s) && Enabled(s, step) && k < Cores(s) && s.pcs[k].Asked?
    ensures var s' := Apply(s, step);
      && k < Cores(s')
      && (s'.pcs[k].Running? ==> step == Pick(k) && s.ready == [] && s.pcs[k].option == CanReturn)
  {
    hide Places, Counted, PlacesOk;
    if step.Tick? && step.k == k {
      TimerSafe(s, k);
    }
  }

  /** A step of another core, or the timer's. */
  predicate Quiet(step: Step, k: nat) {
    step.k != k || step.Tick?
  }

  lemma QuietStep(s: State, step: Step, k: nat)
    requires Inv(s) && Enabled(s, step) && k < Cores(s) && Quiet(step, k) && !s.pcs[k].Running?
    ensures Cores(Apply(s, step)) == Cores(s) && Apply(s, step).pcs[k] == s.pcs[k]
  {
    hide Places, Counted, PlacesOk;
    if step.k == k {
      TimerSafe(s, k);
    }
  }

  lemma {:induction false} QuietRun(s: State, steps: seq<Step>, k: nat)
    requires Inv(s) && k < Cores(s) && !s.pcs[k].Running? && forall i | 0 <= i < |steps| :: Quiet(steps[i], k)
    ensures var s' := Run(s, steps); Inv(s') && Cores(s') == Cores(s) && s'.pcs[k] == s.pcs[k]
    decreases |steps|
  {
    hide Inv, Enabled, Apply;
    if steps != [] {
      if Enabled(s, steps[0]) {
        StepKeeps(s, steps[0]);
        QuietStep(s, steps[0], k);
        QuietRun(Apply(s, steps[0]), steps[1..], k);
      } else {
        QuietRun(s, steps[1..], k);
      }
    }
  }

  /** Where the thread that was switched away from ends up. */
  predicate PutAway(s: State, s': State, t: Tid, action: Action, asleep: bool) {
    if t < Cores(s) then s'.ready == s.ready && s'.waits == s.waits && s'.zombies == s.zombies
    else
      match action
      case Requeue => s'.ready == s.ready + [t] && s'.waits == s.waits && s'.zombies == s.zombies
      case Bury => s'.ready == s.ready && s'.waits == s.waits && s'.zombies == s.zombies + [t]
      case Sleep(q) =>
        && q < |s.waits| && s'.zombies == s.zombies
        && if asleep then s'.ready == s.ready && s'.waits == s.waits[q := s.waits[q] + [t]]
           else s'.ready == s.ready + [t] && s'.waits == s.waits
  }

  /** Once core k has chosen thread n, whatever the other cores do and whenever the timer comes, its own next
      three steps can be made when it comes to them, and then it runs n, which may be preempted, and the
      thread that it ran is where `block` was to put it. */
  lemma ChosenRuns(s: State, k: nat, b: seq<Step>, c: seq<Step>, d: seq<Step>, asleep: bool)
    requires Inv(s) && k < Cores(s) && s.pcs[k].Chosen?
    requires forall i | 0 <= i < |b| :: Quiet(b[i], k)
    requires forall i | 0 <= i < |c| :: Quiet(c[i], k)
    requires forall i | 0 <= i < |d| :: Quiet(d[i], k)
    ensures var s1 := Run(s, b);
      && Enabled(s1, Commit(k))
      && var s2 := Run(Apply(s1, Commit(k)), c);
      && Enabled(s2, Switch(k))
      && var s3 := Run(Apply(s2, Switch(k)), d);
      && Enabled(s3, Close(k, asleep))
      && var s4, t, n := Apply(s3, Close(k, asleep)), s.pcs[k].me, s.pcs[k].next;
      && k < Cores(s4) && s4.pcs[k] == Running(n) && n < |s4.noPreempt| && !s4.noPreempt[n]
      && PutAway(s3, s4, t, s.pcs[k].action, asleep)
  {
    hide Inv, Run, Apply, Enabled, PutAway;
    QuietRun(s, b, k);
    var s1 := Run(s, b);
    CommitGoes(s1, k);
    var s1' := Apply(s1, Commit(k));
    QuietRun(s1', c, k);
    var s2 := Run(s1', c);
    SwitchGoes(s2, k);
    var s2' := Apply(s2, Switch(k));
    QuietRun(s2', d, k);
    CloseGoes(Run(s2', d), k, asleep);
  }

  lemma CommitGoes(s: State, k: nat)
    requires Inv(s) && k < Cores(s) && s.pcs[k].Chosen?
    ensures Enabled(s, Commit(k))
    ensures var s', pc := Apply(s, Commit(k)), s.pcs[k];
      Inv(s') && k < Cores(s') && s'.pcs[k] == Committed(pc.me, pc.next, pc.action)
  {
    hide Inv;
    NeverStuck(s, k, false);
    StepKeeps(s, Commit(k));
  }

  lemma SwitchGoes(s: State, k: nat)
    requires Inv(s) && k < Cores(s) && s.pcs[k].Committed?
    ensures Enabled(s, Switch(k))
    ensures var s', pc := Apply(s, Switch(k)), s.pcs[k];
      Inv(s') && k < Cores(s') && s'.pcs[k] == Closing(pc.me, pc.next, pc.action)
  {
    hide Inv;
    NeverStuck(s, k, false);
    StepKeeps(s, Switch(k));
  }

  lemma CloseGoes(s: State, k: nat, asleep: bool)
    requires Inv(s) && k < Cores(s) && s.pcs[k].Closing?
    ensures Enabled(s, Close(k, asleep))
    ensures var s', pc := Apply(s, Close(k, asleep)), s.pcs[k];
      && k < Cores(s') && s'.pcs[k] == Running(pc.next) && pc.next < |s'.noPreempt| && !s'.noPreempt[pc.next]
      && PutAway(s, s', pc.prev, pc.action, asleep)
  {
    hide Places, Counted;
    NeverStuck(s, k, asleep);
    assert CoreOk(s, k);
  }

  /** Waking takes the thread that has waited longest, and scheduling it puts it at the end of the ready queue. */
  lemma WokenInTurn(s: State, k: nat, q: nat)
    requires Inv(s) && Enabled(s, Wake(k, q))
    ensures var s1 := Apply(s, Wake(k, q));
      && Enabled(s1, Schedule(k)) && |s1.waits| == |s.waits|
      && s.waits[q] == [s.waits[q][0]] + s1.waits[q]
      && (forall r | 0 <= r < |s.waits| && r != q :: s1.waits[r] == s.waits[r])
      && var s2 := Apply(s1, Schedule(k));
      && s2.ready == s.ready + [s.waits[q][0]] && s2.waits == s1.waits && s2.hands == s.hands && s2.pcs == s.pcs
  {
    var me, s1 := s.pcs[k].me, Apply(s, Wake(k, q));
    assert s1.hands[me][..|s.hands[me]|] == s.hands[me];
    assert Apply(s1, Schedule(k)).hands == s.hands;
  }

  /** The timer takes the core from a thread that may be preempted: the thread is on its way to the end of the
      ready queue if there is another to run. */
  lemma TimerYields(s: State, k: nat)
    requires Inv(s) && k < Cores(s) && s.pcs[k].Running? && Cores(s) <= s.pcs[k].me < |s.noPreempt|
    ensures Enabled(s, Tick(k))
    ensures Apply(s, Tick(k)).pcs[k] ==
      if s.noPreempt[s.pcs[k].me] then s.pcs[k] else Asked(s.pcs[k].me, CanReturn, Requeue)
  {
    hide Places, Counted;
    assert CoreOk(s, k);
  }

  lemma OneStackEach(s: State, j: nat, k: nat)
    requires Inv(s) && j < Cores(s) && k < Cores(s) && j != k
    ensures Stack(s.pcs[j]).Some? && Stack(s.pcs[j]) != Stack(s.pcs[k])
  {
    hide Places;
    assert CoreOk(s, j) && CoreOk(s, k);
    NotMentionedTwice(s, j, k, Stack(s.pcs[k]).value);
  }

  /** From when the reaper takes a thread until it is freed, also while the reaper itself sleeps: the thread
      has stopped, no core is on its stack or switching to or from it, no queue has it, and nobody else. */
  lemma ReaperSafe(s: State, h: nat, i: nat)
    requires Inv(s) && h < |s.hands| && i < |s.hands[h]| && s.hands[h][i].Corpse?
    ensures var t := s.hands[h][i].tid;
      && t in s.stopped && t !in s.deleted
      && (forall j | 0 <= j < Cores(s) :: !Mentions(s.pcs[j], t))
      && !Stored(s.(hands := []), t)
      && (forall g, j | 0 <= g < |s.hands| && 0 <= j < |s.hands[g]| && s.hands[g][j].tid == t :: g == h && j == i)
  {
    hide Places, CoreOk, IdleOk;
    var t := s.hands[h][i].tid;
    assert HandOk(s, h) && HeldOk(s, s.hands[h][i]);
    InHandAt(s.hands[h], i);
    forall j | 0 <= j < Cores(s) ensures !Mentions(s.pcs[j], t) {
      QueuedElsewhere(s, j, t);
    }
    AtMostOnce(s, t);
    HeldOnly(s, h, t);
    forall g, j | 0 <= g < |s.hands| && 0 <= j < |s.hands[g]| && s.hands[g][j].tid == t ensures g == h && j == i {
      InHandAt(s.hands[g], j);
      if g == h && j != i {
        HeldTwice(s.hands[h], if i < j then i else j, if i < j then j else i);
      }
    }
  }

  lemma {:induction false} HeldTwice(h: seq<Held>, i: nat, j: nat)
    requires i < j < |h| && h[i].tid == h[j].tid
    ensures InHand(h, h[i].tid) >= 2
  {
    if j < |h| - 1 {
      HeldTwice(h[..|h| - 1], i, j);
    } else {
      InHandAt(h[..|h| - 1], i);
    }
  }

  lemma HeldOnly(s: State, h: nat, t: Tid)
    requires Counted(s) && h < |s.hands| && InHand(s.hands[h], t) > 0
    ensures InHand(s.hands[h], t) == 1 && !Stored(s.(hands := []), t) && t !in s.deleted
    ensures forall g | 0 <= g < |s.hands| && g != h :: InHand(s.hands[g], t) == 0
  {
    hide InQueue, Sum, InHand;
    assert Places(s, t) == Alive(s, t);
    SumAtLeast(HandParts(s.hands, t), h);
    assert HandParts(s.hands, t)[h] == InHand(s.hands[h], t);
    forall i | 0 <= i < |s.ready| ensures s.ready[i] != t {
      Queued(s.ready, i);
    }
    forall i | 0 <= i < |s.zombies| ensures s.zombies[i] != t {
      Queued(s.zombies, i);
    }
    forall q, i | 0 <= q < |s.waits| && 0 <= i < |s.waits[q]| ensures s.waits[q][i] != t {
      SumAtLeast(QueueParts(s.waits, t), q);
      Queued(s.waits[q], i);
      assert QueueParts(s.waits, t)[q] == InQueue(s.waits[q], t);
    }
    forall g | 0 <= g < |s.hands| && g != h ensures InHand(s.hands[g], t) == 0 {
      assert HandParts(s.hands, t)[g] == InHand(s.hands[g], t);
    }
  }

  /** A thread that has called `stop` never runs again, deleted or not: the assertion behind the call of
      `block` in `stop` only ever meets idle threads. */
  lemma StoppedStaysOff(s: State, steps: seq<Step>, t: Tid, k: nat)
    requires Inv(s) && (t in s.stopped || t in s.deleted) && k < Cores(s)
    ensures Cores(Run(s, steps)) == Cores(s) && Run(s, steps).pcs[k] != Running(t)
  {
    hide Run, Places;
    RunKeeps(s, steps);
    var s' := Run(s, steps);
    assert CoreOk(s', k);
    if t in s'.deleted && s'.pcs[k] == Running(t) {
      assert Places(s', t) == Alive(s', t);
      DeletedNowhere(s', k, t);
    }
  }

  lemma DeletedNowhere(s: State, k: nat, t: Tid)
    requires Inv(s) && k < Cores(s) && t in s.deleted && !Idle(s, t)
    ensures !Mentions(s.pcs[k], t)
  {
    hide InQueue, Sum, PlacesOk;
    assert Places(s, t) == Alive(s, t) == 0;
    SumAtLeast(CoreParts(s.pcs, t), k);
    assert CoreParts(s.pcs, t)[k] == On(Cores(s), s.pcs[k], t);
  }

  /** A core inside `block` can always go on, and so can a thread with another in its hand: what the steps
      take for granted of the state is so. */
  lemma NeverStuck(s: State, k: nat, asleep: bool)
    requires Inv(s) && k < Cores(s)
    ensures |s.hands| == Next(s) && (s.pcs[k].Running? ==> s.pcs[k].me < Next(s))
    ensures match s.pcs[k]
            case Running(t) =>
              if s.hands[t] == [] then Enabled(s, Block(k, MustBlock, Bury)) else Enabled(s, Schedule(k)) || Enabled(s, Delete(k))
            case Asked(_, _, _) => Enabled(s, Pick(k))
            case Chosen(_, _, _) => Enabled(s, Commit(k))
            case Committed(_, _, _) => Enabled(s, Switch(k))
            case Closing(_, _, _) => Enabled(s, Close(k, asleep))
            case Nested => false
  {
    hide Places, Counted;
    assert CoreOk(s, k);
  }
}
