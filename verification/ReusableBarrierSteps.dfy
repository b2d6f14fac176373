/** The reusable barrier of kernel/barrier.h over the condition variable's steps. */
module ReusableBarrierSteps {
  import opened Common
  import C = ConditionSteps

  type Tid = nat

  /** Where a thread is in `sync`: outside; waiting for the lock on entry; holding it with its count taken
      and the epoch of its arrival remembered; in the loop, or ready to leave it; about to notify. */
  datatype Pc =
    | Away
    | Entering
    | Counted(t: nat)
    | Last(t: nat)
    | Looping(t: nat)
    | Leaving(t: nat)
    | Panicked

  /** The condition with its lock, the fields of the barrier, the threads, and how many have arrived. */
  datatype State = State(c: C.State, size: nat, count: nat, epoch: nat, pcs: seq<Pc>, arrivals: nat)

  datatype Step =
    | Call(t: Tid)
    | Arrive(t: Tid)
    | Turn(t: Tid)
    | Finish(t: Tid)
    | Check(t: Tid)
    | Leave(t: Tid)
    | Inner(step: C.Step)

  function Who(step: Step): Tid {
    match step
    case Call(t) => t
    case Arrive(t) => t
    case Turn(t) => t
    case Finish(t) => t
    case Check(t) => t
    case Leave(t) => t
    case Inner(i) => i.t
  }

  /** Between the barrier's own steps a thread only takes the lock, waits, or wakes others. */
  predicate InnerEnabled(s: State, i: C.Step) {
    && i.t < |s.pcs| && C.Enabled(s.c, i)
    && match i
       case Lock(t) => s.pcs[t].Entering? || s.pcs[t].Looping?
       case Close(t) => true
       case Decide(t) => true
       case Next(t) => true
       case _ => false
  }

  predicate Enabled(s: State, step: Step) {
    && Who(step) < |s.pcs| == |s.c.pcs| == |s.c.off|
    && match step
       case Call(t) => s.pcs[t].Away?
       case Arrive(t) => s.pcs[t].Entering? && s.c.pcs[t].Inside?
       case Turn(t) => s.pcs[t].Counted? && s.count == 0 && s.c.pcs[t].Inside?
       case Finish(t) => s.pcs[t].Last? && s.c.pcs[t].Inside?
       case Check(t) => (s.pcs[t].Looping? || (s.pcs[t].Counted? && s.count != 0)) && s.c.pcs[t].Inside?
       case Leave(t) => s.pcs[t].Leaving? && s.c.pcs[t].Inside?
       case Inner(i) => InnerEnabled(s, i)
  }

  function Apply(s: State, step: Step): State
    requires Enabled(s, step)
  {
    match step
    case Call(t) => s.(pcs := s.pcs[t := Entering])
    case Arrive(t) =>
      if s.count == 0 then s.(pcs := s.pcs[t := Panicked])
      else s.(pcs := s.pcs[t := Counted(s.epoch)], count := s.count - 1, arrivals := s.arrivals + 1)
    case Turn(t) =>
      s.(pcs := s.pcs[t := Last(s.pcs[t].t)], epoch := s.epoch + 1, count := s.size,
         c := C.Apply(s.c, C.Notify(t, C.ALL)))
    case Finish(t) => s.(pcs := s.pcs[t := Leaving(s.pcs[t].t)])
    case Check(t) =>
      if s.epoch <= s.pcs[t].t then s.(pcs := s.pcs[t := Looping(s.pcs[t].t)], c := C.Apply(s.c, C.Wait(t)))
      else s.(pcs := s.pcs[t := Leaving(s.pcs[t].t)])
    case Leave(t) => s.(pcs := s.pcs[t := Away], c := C.Apply(s.c, C.Unlock(t)))
    case Inner(i) => s.(c := C.Apply(s.c, i))
  }

  // ---- the invariant ----

  /** Does a thread wait for the present epoch to end? */
  function Pending(pc: Pc, epoch: nat): nat {
    if (pc.Counted? || pc.Looping?) && pc.t == epoch then 1 else 0
  }

  function PendingParts(pcs: seq<Pc>, epoch: nat): seq<nat> {
    seq(|pcs|, t requires 0 <= t < |pcs| => Pending(pcs[t], epoch))
  }

  /** In the loop a thread waits since the epoch of its arrival. */
  predicate WaitingSince(pc: C.Pc, e: nat) {
    match pc
    case Inside => true
    case Woken => true
    case Waiting(since) => since == e
    case Closing(since) => since == e
    case Queued(since) => since == e
    case _ => false
  }

  /** How far a thread's place in the barrier fits its place in the condition. */
  predicate ThreadOk(s: State, t: Tid)
    requires t < |s.pcs| == |s.c.pcs|
  {
    && (s.c.pcs[t].Notifying? ==> s.pcs[t].Last? && s.c.pcs[t].all)
    && match s.pcs[t]
       case Away => s.c.pcs[t].Out?
       case Entering => s.c.pcs[t].Out? || s.c.pcs[t].Inside?
       case Counted(e) => s.c.pcs[t].Inside? && e == s.epoch
       case Last(e) => (s.c.pcs[t].Inside? || s.c.pcs[t].Notifying?) && e < s.epoch
       case Leaving(e) => s.c.pcs[t].Inside? && e < s.epoch
       case Looping(e) =>
         && e <= s.epoch
         && WaitingSince(s.c.pcs[t], e)
       case Panicked => s.size == 0 && s.c.pcs[t].Inside?
  }

  predicate Waking(s: State) {
    exists t :: 0 <= t < |s.c.pcs| && s.c.pcs[t].Notifying?
  }

  predicate Turning(s: State) {
    exists t :: 0 <= t < |s.pcs| && s.pcs[t].Counted?
  }

  ghost predicate Inv(s: State, flags: seq<bool>) {
    && C.Inv(s.c, flags) && |s.pcs| == |s.c.pcs| && s.c.epoch == s.epoch
    && (forall t {:trigger ThreadOk(s, t)} | 0 <= t < |s.pcs| :: ThreadOk(s, t))
    && s.count <= s.size && s.arrivals == s.size * s.epoch + (s.size - s.count)
    && Sum(PendingParts(s.pcs, s.epoch)) == s.size - s.count
    && (s.count == 0 ==> s.size == 0 || Turning(s))
    && (s.c.lastAll == s.c.epoch || Waking(s))
  }

  // ---- every step keeps the invariant ----

  lemma PendingMoves(pcs: seq<Pc>, t: nat, pc: Pc, epoch: nat)
    requires t < |pcs|
    ensures Sum(PendingParts(pcs[t := pc], epoch)) + Pending(pcs[t], epoch)
         == Sum(PendingParts(pcs, epoch)) + Pending(pc, epoch)
  {
    SumUpdate(PendingParts(pcs, epoch), t, Pending(pc, epoch));
    assert PendingParts(pcs[t := pc], epoch) == PendingParts(pcs, epoch)[t := Pending(pc, epoch)];
  }

  /** The thread inside is the only one. */
  lemma OnlyInside(s: State, flags: seq<bool>, t: Tid, u: Tid)
    requires Inv(s, flags) && t < |s.pcs| && u < |s.pcs| && C.HoldsLock(s.c.pcs[t]) && u != t
    ensures !C.HoldsLock(s.c.pcs[u])
  {
    assert C.ThreadOk(s.c, flags, t) && C.ThreadOk(s.c, flags, u);
  }

  lemma InnerThreadStays(s: State, i: C.Step, flags: seq<bool>, u: Tid)
    requires Inv(s, flags) && Enabled(s, Inner(i)) && u < |s.pcs|
    ensures ThreadOk(Apply(s, Inner(i)), u)
  {
    hide C.Inv, Sum, PendingParts;
    assert ThreadOk(s, i.t) && ThreadOk(s, u);
    if i.Next? && s.c.queue != [] {
      C.Head(s.c.queue);
      QueuedIs(s, flags, s.c.queue[0]);
      assert ThreadOk(s, s.c.queue[0]);
    }
  }

  lemma OwnThreadStays(s: State, step: Step, flags: seq<bool>, u: Tid)
    requires Inv(s, flags) && Enabled(s, step) && !step.Inner? && u < |s.pcs|
    ensures ThreadOk(Apply(s, step), u)
  {
    hide C.Inv, Sum, PendingParts;
    var t := Who(step);
    assert ThreadOk(s, t) && ThreadOk(s, u);
    if s.c.pcs[t].Inside? && u != t {
      OnlyInside(s, flags, t, u);
    }
    if step.Arrive? && s.count == 0 && s.size > 0 {
      NotTurning(s, flags, t);
    }
  }

  /** Whoever finds the count at zero is the one that set it. */
  lemma NotTurning(s: State, flags: seq<bool>, t: Tid)
    requires Inv(s, flags) && t < |s.pcs| && s.c.pcs[t].Inside? && !s.pcs[t].Counted?
    ensures !Turning(s)
  {
    hide C.Inv, Sum, PendingParts;
    forall u | 0 <= u < |s.pcs| ensures !s.pcs[u].Counted? {
      assert ThreadOk(s, u);
      if u != t {
        OnlyInside(s, flags, t, u);
      }
    }
  }

  lemma QueuedIs(s: State, flags: seq<bool>, t: Tid)
    requires Inv(s, flags) && t < |s.pcs| && C.Listed(s.c.queue, t)
    ensures s.c.pcs[t].Queued?
  {
    assert C.ThreadOk(s.c, flags, t);
  }

  lemma InnerStepKeeps(s: State, i: C.Step, flags: seq<bool>)
    requires Inv(s, flags) && Enabled(s, Inner(i))
    ensures Inv(Apply(s, Inner(i)), flags)
  {
    hide C.Inv, Sum, PendingParts, ThreadOk;
    var s' := Apply(s, Inner(i));
    C.StepKeeps(s.c, i, flags);
    forall u | 0 <= u < |s'.pcs| ensures ThreadOk(s', u) {
      InnerThreadStays(s, i, flags, u);
    }
    WakingStays(s, i, flags);
  }

  lemma WakingStays(s: State, i: C.Step, flags: seq<bool>)
    requires Inv(s, flags) && Enabled(s, Inner(i))
    ensures var s' := Apply(s, Inner(i));
      s'.c.epoch == s.c.epoch && (s'.c.lastAll == s'.c.epoch || Waking(s'))
  {
    hide C.Inv, Sum, PendingParts;
    var s' := Apply(s, Inner(i));
    assert ThreadOk(s, i.t);
    if u :| 0 <= u < |s.c.pcs| && s.c.pcs[u].Notifying? {
      if i.t != u {
        OnlyInside(s, flags, u, i.t);
      }
      assert s'.c.pcs[u].Notifying? || (i.Next? && i.t == u);
    }
    if i.Next? && s.c.queue != [] {
      C.Head(s.c.queue);
      QueuedIs(s, flags, s.c.queue[0]);
      assert s'.c.pcs[i.t].Notifying? || s'.c.lastAll == s'.c.epoch;
    }
  }

  lemma OwnStepKeeps(s: State, step: Step, flags: seq<bool>)
    requires Inv(s, flags) && Enabled(s, step) && !step.Inner?
    ensures Inv(Apply(s, step), flags)
  {
    hide C.Inv, Sum, PendingParts, ThreadOk, Waking;
    var s', t := Apply(s, step), Who(step);
    match step {
      case Turn(_) => C.StepKeeps(s.c, C.Notify(t, C.ALL), flags);
      case Check(_) => if s.epoch <= s.pcs[t].t { C.StepKeeps(s.c, C.Wait(t), flags); }
      case Leave(_) => C.StepKeeps(s.c, C.Unlock(t), flags);
      case _ =>
    }
    forall u | 0 <= u < |s'.pcs| ensures ThreadOk(s', u) {
      OwnThreadStays(s, step, flags, u);
    }
    OwnCount(s, step, flags);
    OwnWaking(s, step, flags);
  }

  lemma OwnWaking(s: State, step: Step, flags: seq<bool>)
    requires Inv(s, flags) && Enabled(s, step) && !step.Inner?
    ensures var s' := Apply(s, step); s'.c.lastAll == s'.c.epoch || Waking(s')
  {
    hide C.Inv, Sum, PendingParts, ThreadOk;
    var s', t := Apply(s, step), Who(step);
    if step.Turn? {
      assert s'.c.pcs[t].Notifying?;
    } else if u :| 0 <= u < |s.c.pcs| && s.c.pcs[u].Notifying? {
      assert s'.c.pcs[u].Notifying?;
    }
  }

  /** The counts before and after a step of the barrier itself. */
  lemma OwnCount(s: State, step: Step, flags: seq<bool>)
    requires Inv(s, flags) && Enabled(s, step) && !step.Inner?
    ensures var s' := Apply(s, step);
      && s'.count <= s'.size && s'.arrivals == s'.size * s'.epoch + (s'.size - s'.count)
      && Sum(PendingParts(s'.pcs, s'.epoch)) == s'.size - s'.count
      && (s'.count == 0 ==> s'.size == 0 || Turning(s'))
  {
    hide C.Inv, Sum, PendingParts;
    var s', t := Apply(s, step), Who(step);
    assert ThreadOk(s, t);
    PendingMoves(s.pcs, t, s'.pcs[t], s.epoch);
    if step.Turn? {
      assert s.size * (s.epoch + 1) == s.size * s.epoch + s.size;
      NobodyYet(s, flags, step);
    } else if step.Arrive? {
      if s.count == 0 {
        NotTurning(s, flags, t);
      } else {
        assert s'.pcs[t].Counted?;
      }
    } else {
      StillTurning(s, step, flags);
    }
  }

  lemma StillTurning(s: State, step: Step, flags: seq<bool>)
    requires Inv(s, flags) && Enabled(s, step) && !step.Inner? && !step.Turn? && !step.Arrive?
    ensures s.count == 0 && Turning(s) ==> Turning(Apply(s, step))
  {
    hide C.Inv, Sum, PendingParts;
    if s.count == 0 && Turning(s) {
      var u :| 0 <= u < |s.pcs| && s.pcs[u].Counted?;
      assert Apply(s, step).pcs[u].Counted?;
    }
  }

  /** Nobody has arrived in the epoch that begins. */
  lemma NobodyYet(s: State, flags: seq<bool>, step: Step)
    requires Inv(s, flags) && Enabled(s, step) && step.Turn?
    ensures Sum(PendingParts(Apply(s, step).pcs, s.epoch + 1)) == 0
  {
    hide C.Inv;
    var s' := Apply(s, step);
    forall u | 0 <= u < |s'.pcs| ensures Pending(s'.pcs[u], s.epoch + 1) == 0 {
      assert ThreadOk(s, u);
    }
    AllZero(PendingParts(s'.pcs, s.epoch + 1));
  }

  // ---- whole runs ----

  function Run(s: State, steps: seq<Step>): State
    decreases |steps|
  {
    if steps == [] then s else Run(if Enabled(s, steps[0]) then Apply(s, steps[0]) else s, steps[1..])
  }

  lemma {:induction false} RunKeeps(s: State, steps: seq<Step>, flags: seq<bool>)
    requires Inv(s, flags)
    ensures Inv(Run(s, steps), flags) && Run(s, steps).size == s.size
    decreases |steps|
  {
    hide Inv;
    if steps != [] {
      if Enabled(s, steps[0]) {
        if steps[0].Inner? {
          InnerStepKeeps(s, steps[0].step, flags);
        } else {
          OwnStepKeeps(s, steps[0], flags);
        }
        RunKeeps(Apply(s, steps[0]), steps[1..], flags);
      } else {
        RunKeeps(s, steps[1..], flags);
      }
    }
  }

  function Initial(size: nat, flags: seq<bool>): State {
    State(C.Initial(flags), size, size, 0, seq(|flags|, _ => Away), 0)
  }

  lemma InitialOk(size: nat, flags: seq<bool>)
    requires |flags| < C.ALL
    ensures Inv(Initial(size, flags), flags)
  {
    C.InitialOk(flags);
    AllZero(PendingParts(Initial(size, flags).pcs, 0));
  }

  /** In every run of a barrier for `size` threads: the arrivals are `size` for each finished epoch and those
      of the present one; a thread that leaves having arrived in epoch e sees `size` arrivals for each epoch
      up to e; the assertion fails exactly for a barrier made for none; and a thread asleep, while nobody
      is about to wake it, has arrived in the present epoch, which lacks arrivals. */
  lemma AnyRun(size: nat, flags: seq<bool>, steps: seq<Step>, t: Tid)
    requires |flags| < C.ALL && t < |flags|
    ensures var s := Run(Initial(size, flags), steps);
      && |s.pcs| == |s.c.pcs| == |s.c.off| == |flags|
      && s.arrivals == size * s.epoch + (size - s.count) && s.count <= size
      && (s.pcs[t].Leaving? ==> s.arrivals >= size * (s.pcs[t].t + 1))
      && (s.pcs[t].Panicked? ==> size == 0)
      && (size == 0 && s.pcs[t].Entering? && s.c.pcs[t].Inside? ==> Apply(s, Arrive(t)).pcs[t].Panicked?)
      && (s.c.pcs[t].Queued? && !Waking(s) ==>
            s.pcs[t] == Looping(s.epoch) && (s.c.holder == None ==> 0 < s.count < size))
  {
    hide Run, C.Inv, Sum, PendingParts;
    InitialOk(size, flags);
    RunKeeps(Initial(size, flags), steps, flags);
    var s := Run(Initial(size, flags), steps);
    SameThreads(s, flags);
    assert ThreadOk(s, t);
    if s.pcs[t].Leaving? {
      Grows(size, s.pcs[t].t + 1, s.epoch);
    }
    if s.c.pcs[t].Queued? && !Waking(s) {
      Asleep(s, flags, t);
    }
  }

  lemma SameThreads(s: State, flags: seq<bool>)
    requires Inv(s, flags)
    ensures |s.pcs| == |s.c.pcs| == |s.c.off| == |flags|
  {
  }

  lemma Grows(size: nat, a: nat, b: nat)
    requires a <= b
    ensures size * a <= size * b
  {
  }

  lemma Asleep(s: State, flags: seq<bool>, t: Tid)
    requires Inv(s, flags) && t < |s.pcs| && s.c.pcs[t].Queued? && !Waking(s)
    ensures s.pcs[t] == Looping(s.epoch) && (s.c.holder == None ==> 0 < s.count < s.size)
  {
    hide Sum, PendingParts;
    assert ThreadOk(s, t) && C.ThreadOk(s.c, flags, t);
    assert s.c.lastAll == s.epoch && s.c.pcs[t].since == s.epoch;
    PendingMoves(s.pcs, t, Away, s.epoch);
    if s.c.holder == None {
      NobodyInside(s, flags);
    }
  }

  lemma NobodyInside(s: State, flags: seq<bool>)
    requires Inv(s, flags) && s.c.holder == None
    ensures !Turning(s)
  {
    hide Sum, PendingParts;
    forall u | 0 <= u < |s.pcs| ensures !s.pcs[u].Counted? {
      assert ThreadOk(s, u) && C.ThreadOk(s.c, flags, u);
    }
  }

  /** Whoever has the lock of the barrier can go on, and whoever waits for it can take it when it is free. */
  lemma NeverStuck(s: State, flags: seq<bool>, t: Tid)
    requires Inv(s, flags) && t < |s.pcs| && !s.pcs[t].Panicked?
    ensures C.HoldsLock(s.c.pcs[t]) ==>
      || Enabled(s, Arrive(t)) || Enabled(s, Turn(t)) || Enabled(s, Finish(t)) || Enabled(s, Check(t))
      || Enabled(s, Leave(t)) || Enabled(s, Inner(C.Decide(t))) || Enabled(s, Inner(C.Next(t)))
    ensures s.c.holder == None && !s.pcs[t].Away? && !s.c.pcs[t].Queued? ==>
      Enabled(s, Inner(C.Lock(t))) || Enabled(s, Inner(C.Close(t)))
  {
    hide Sum, PendingParts;
    assert ThreadOk(s, t) && C.ThreadOk(s.c, flags, t);
    C.NeverStuck(s.c, flags, t);
  }
}
