/** The condition variable of kernel/condition.h with its InterruptSafeLock (kernel/atomic.h), for any
    number of threads and any use of `wait` and `notify` inside the lock. */
module ConditionSteps {
  import opened Common

  type Tid = nat

  /** The limit with which `notifyAll` calls `notify`. */
  const ALL := 0xFFFF_FFFF_FFFF_FFFF

  /** Outside; inside the lock; in `wait` with the lock released and the epoch remembered; in the function
      that looks at the epoch again, on the next thread's stack; in the queue; scheduled again, and about
      to take the lock; in the loop of `notify`. */
  datatype Pc =
    | Out
    | Inside
    | Waiting(since: nat)
    | Closing(since: nat)
    | Queued(since: nat)
    | Woken
    | Notifying(limit: nat, all: bool)

  /** `was` is the field of the lock; `off` tells for each thread whether interrupts are disabled for it;
      `lastAll` is the epoch that the last finished `notifyAll` began. */
  datatype State = State(
    holder: Option<Tid>, was: bool, epoch: nat, queue: seq<Tid>,
    pcs: seq<Pc>, off: seq<bool>, lastAll: nat)

  datatype Step =
    | Lock(t: Tid) | Unlock(t: Tid)
    | Wait(t: Tid) | Close(t: Tid) | Decide(t: Tid)
    | Notify(t: Tid, limit: nat) | Next(t: Tid)

  predicate Enabled(s: State, step: Step) {
    && step.t < |s.pcs| == |s.off|
    && match step
       case Lock(t) => (s.pcs[t].Out? || s.pcs[t].Woken?) && s.holder == None
       case Unlock(t) => s.pcs[t].Inside?
       case Wait(t) => s.pcs[t].Inside?
       case Close(t) => s.pcs[t].Waiting? && s.holder == None
       case Decide(t) => s.pcs[t].Closing?
       case Notify(t, limit) => s.pcs[t].Inside? && limit <= ALL
       case Next(t) => s.pcs[t].Notifying? && (s.queue != [] ==> s.queue[0] < |s.pcs|)
  }

  function Goes(s: State, t: Tid, pc: Pc): State
    requires t < |s.pcs|
  {
    s.(pcs := s.pcs[t := pc])
  }

  function Apply(s: State, step: Step): State
    requires Enabled(s, step)
  {
    match step
    case Lock(t) => Goes(s, t, Inside).(holder := Some(t), was := s.off[t], off := s.off[t := true])
    case Unlock(t) => Goes(s, t, Out).(holder := None, off := s.off[t := s.was])
    case Wait(t) => Goes(s, t, Waiting(s.epoch)).(holder := None, off := s.off[t := s.was])
    case Close(t) => Goes(s, t, Closing(s.pcs[t].since)).(holder := Some(t), was := true)
    case Decide(t) => Decided(s, t)
    case Notify(t, limit) => Goes(s, t, Notifying(limit, limit == ALL)).(epoch := s.epoch + 1)
    case Next(t) => Notified(s, t)
  }

  /** Only if no notification has come since the wait began does the thread join the queue. */
  function Decided(s: State, t: Tid): State
    requires t < |s.pcs| && s.pcs[t].Closing?
  {
    if s.epoch == s.pcs[t].since then Goes(s, t, Queued(s.pcs[t].since)).(holder := None, queue := s.queue + [t])
    else Goes(s, t, Woken).(holder := None)
  }

  /** One turn of the loop of `notify`. */
  function Notified(s: State, t: Tid): State
    requires t < |s.pcs| && s.pcs[t].Notifying? && (s.queue != [] ==> s.queue[0] < |s.pcs|)
  {
    if s.pcs[t].limit == 0 || s.queue == [] then
      Goes(s, t, Inside).(lastAll := if s.pcs[t].all then s.epoch else s.lastAll)
    else
      s.(pcs := s.pcs[t := Notifying(s.pcs[t].limit - 1, s.pcs[t].all)][s.queue[0] := Woken], queue := s.queue[1..])
  }

  // ---- the invariant ----

  predicate HoldsLock(pc: Pc) {
    pc.Inside? || pc.Closing? || pc.Notifying?
  }

  predicate Listed(q: seq<Tid>, t: Tid) {
    exists i :: 0 <= i < |q| && q[i] == t
  }

  /** The thread that has the lock has interrupts off, and the lock remembers how they were; everyone
      else has them as they came.  An epoch once seen is not in the future. */
  predicate ThreadOk(s: State, flags: seq<bool>, t: Tid)
    requires t < |s.pcs| == |s.off| == |flags|
  {
    && (HoldsLock(s.pcs[t]) <==> s.holder == Some(t))
    && (s.pcs[t].Queued? <==> Listed(s.queue, t))
    && match s.pcs[t]
       case Inside => s.off[t] && s.was == flags[t]
       case Notifying(limit, all) => s.off[t] && s.was == flags[t] && (all ==> limit >= |s.queue|)
       case Closing(since) => s.off[t] == flags[t] && s.was && since <= s.epoch
       case Waiting(since) => s.off[t] == flags[t] && since <= s.epoch
       case Queued(since) => s.off[t] == flags[t] && s.lastAll <= since <= s.epoch
       case _ => s.off[t] == flags[t]
  }

  /** While t notifies, whoever is in the queue began to wait before. */
  predicate Earlier(s: State, t: Tid, u: Tid)
    requires t < |s.pcs| && u < |s.pcs|
  {
    s.pcs[t].Notifying? && s.pcs[u].Queued? ==> s.pcs[u].since < s.epoch
  }

  ghost predicate Inv(s: State, flags: seq<bool>) {
    && |s.pcs| == |s.off| == |flags| < ALL
    && s.lastAll <= s.epoch
    && (forall t {:trigger ThreadOk(s, flags, t)} | 0 <= t < |s.pcs| :: ThreadOk(s, flags, t))
    && (forall i | 0 <= i < |s.queue| :: s.queue[i] < |s.pcs|)
    && (forall i, j | 0 <= i < j < |s.queue| :: s.queue[i] != s.queue[j])
    && (s.holder.Some? ==> s.holder.value < |s.pcs|)
    && (forall t, u {:trigger Earlier(s, t, u)} | 0 <= t < |s.pcs| && 0 <= u < |s.pcs| :: Earlier(s, t, u))
  }

  // ---- every step keeps the invariant ----

  /** Who is listed changes only by joining or leaving the queue. */
  lemma QueueChange(q: seq<Tid>, t: Tid, u: Tid)
    requires forall i, j | 0 <= i < j < |q| :: q[i] != q[j]
    ensures Listed(q + [t], u) <==> Listed(q, u) || u == t
    ensures q == [] ==> !Listed(q, u)
    ensures q != [] ==> (Listed(q[1..], u) <==> Listed(q, u) && u != q[0])
  {
    assert (q + [t])[|q|] == t;
    if i :| 0 <= i < |q| && q[i] == u {
      assert (q + [t])[i] == u;
      assert i > 0 ==> q[1..][i - 1] == u;
    }
    if q != [] {
      if i :| 0 <= i < |q[1..]| && q[1..][i] == u {
        assert q[i + 1] == u;
      }
    }
  }

  lemma ThreadStays(s: State, step: Step, flags: seq<bool>, u: Tid)
    requires Inv(s, flags) && Enabled(s, step) && u < |s.pcs|
    ensures ThreadOk(Apply(s, step), flags, u)
  {
    hide Listed;
    var t := step.t;
    assert ThreadOk(s, flags, t) && ThreadOk(s, flags, u);
    QueueChange(s.queue, t, u);
    if step.Notify? {
      FewDistinct(s.queue, |s.pcs|);
    }
    if step.Next? && s.queue != [] {
      assert ThreadOk(s, flags, s.queue[0]);
      Head(s.queue);
    }
  }

  lemma Head(q: seq<Tid>)
    requires q != []
    ensures Listed(q, q[0])
  {
  }

  lemma StepKeeps(s: State, step: Step, flags: seq<bool>)
    requires Inv(s, flags) && Enabled(s, step)
    ensures Inv(Apply(s, step), flags)
  {
    hide ThreadOk, Earlier;
    var s', t := Apply(s, step), step.t;
    forall u | 0 <= u < |s'.pcs| ensures ThreadOk(s', flags, u) {
      ThreadStays(s, step, flags, u);
    }
    forall u, w | 0 <= u < |s'.pcs| && 0 <= w < |s'.pcs| ensures Earlier(s', u, w) {
      StaysEarlier(s, step, flags, u, w);
    }
    if step.Decide? {
      ClosingNotListed(s, flags, t);
      assert forall i | 0 <= i < |s.queue| :: s.queue[i] != t;
    }
  }

  lemma StaysEarlier(s: State, step: Step, flags: seq<bool>, u: Tid, w: Tid)
    requires Inv(s, flags) && Enabled(s, step) && u < |s.pcs| && w < |s.pcs|
    ensures Earlier(Apply(s, step), u, w)
  {
    hide Listed;
    assert ThreadOk(s, flags, u) && ThreadOk(s, flags, w) && Earlier(s, u, w);
  }

  lemma ClosingNotListed(s: State, flags: seq<bool>, t: Tid)
    requires Inv(s, flags) && t < |s.pcs| && s.pcs[t].Closing?
    ensures forall i | 0 <= i < |s.queue| :: s.queue[i] != t
    ensures s.pcs[t].since <= s.epoch
  {
    assert ThreadOk(s, flags, t);
  }

  // ---- whole runs ----

  function Run(s: State, steps: seq<Step>): State
    decreases |steps|
  {
    if steps == [] then s else Run(if Enabled(s, steps[0]) then Apply(s, steps[0]) else s, steps[1..])
  }

  lemma {:induction false} RunKeeps(s: State, steps: seq<Step>, flags: seq<bool>)
    requires Inv(s, flags)
    ensures Inv(Run(s, steps), flags) && Run(s, steps).lastAll >= s.lastAll && Run(s, steps).epoch >= s.epoch
    decreases |steps|
  {
    hide Inv;
    if steps != [] {
      if Enabled(s, steps[0]) {
        StepKeeps(s, steps[0], flags);
        AllGrows(s, steps[0], flags);
        RunKeeps(Apply(s, steps[0]), steps[1..], flags);
      } else {
        RunKeeps(s, steps[1..], flags);
      }
    }
  }

  lemma AllGrows(s: State, step: Step, flags: seq<bool>)
    requires Inv(s, flags) && Enabled(s, step)
    ensures Apply(s, step).lastAll >= s.lastAll && Apply(s, step).epoch >= s.epoch
  {
  }

  function Initial(flags: seq<bool>): State {
    State(None, false, 0, [], seq(|flags|, _ => Out), flags, 0)
  }

  lemma InitialOk(flags: seq<bool>)
    requires |flags| < ALL
    ensures Inv(Initial(flags), flags)
  {
  }

  /** A finished `notifyAll` loses no signal: it leaves the queue empty, and in whatever follows no thread
      is in the queue whose wait began before; one that was still on its way there does not join. */
  lemma NothingLost(s: State, steps: seq<Step>, flags: seq<bool>, t: Tid, u: Tid)
    requires Inv(s, flags) && t < |s.pcs| && u < |s.pcs|
    requires s.pcs[t].Notifying? && s.pcs[t].all && (s.pcs[t].limit == 0 || s.queue == [])
    ensures s.queue == [] && Enabled(s, Next(t))
    ensures var s' := Run(Apply(s, Next(t)), steps);
      && u < |s'.pcs|
      && (s'.pcs[u].Queued? ==> s'.pcs[u].since >= s.epoch)
      && (s'.pcs[u].Closing? && s'.pcs[u].since < s.epoch ==> Decided(s', u).pcs[u] == Woken)
  {
    hide Run;
    assert ThreadOk(s, flags, t);
    StepKeeps(s, Next(t), flags);
    RunKeeps(Apply(s, Next(t)), steps, flags);
    var s' := Run(Apply(s, Next(t)), steps);
    assert ThreadOk(s', flags, u);
  }

  // ---- what `notify` wakes, and what ends a wait ----

  /** While a thread has the lock nobody else gets on, so a loop of `notify` is not interleaved with anything. */
  lemma OnlyTheHolder(s: State, flags: seq<bool>, step: Step, t: Tid)
    requires Inv(s, flags) && t < |s.pcs| && HoldsLock(s.pcs[t]) && Enabled(s, step)
    ensures step.t == t
  {
    assert ThreadOk(s, flags, t) && ThreadOk(s, flags, step.t);
  }

  function Lesser(a: nat, b: nat): nat {
    if a < b then a else b
  }

  /** The first m of the queue are awake, and the rest is still in the queue; no other thread is affected. */
  ghost predicate Wakes(s: State, s': State, t: Tid, m: nat)
    requires m <= |s.queue|
  {
    && |s'.pcs| == |s.pcs| && s'.queue == s.queue[m..]
    && (forall u | 0 <= u < |s.pcs| && u != t ::
          s'.pcs[u] == if Listed(s.queue[..m], u) then Woken else s.pcs[u])
  }

  lemma {:induction false} LoopWakes(s: State, flags: seq<bool>, t: Tid, m: nat)
    requires Inv(s, flags) && t < |s.pcs| && s.pcs[t].Notifying? && m == Lesser(s.pcs[t].limit, |s.queue|)
    ensures var s' := Run(s, seq(m + 1, _ => Next(t)));
      Wakes(s, s', t, m) && t < |s'.pcs| && s'.pcs[t] == Inside && s'.epoch == s.epoch
    decreases m
  {
    hide Inv, Wakes, Notified, Listed;
    var steps := seq(m + 1, _ => Next(t));
    NeverStuck(s, flags, t);
    StepKeeps(s, Next(t), flags);
    OneWakes(s, flags, t);
    var s1 := Apply(s, Next(t));
    assert steps[1..] == seq(m, _ => Next(t));
    if m > 0 {
      LoopWakes(s1, flags, t, m - 1);
      WakesTwice(s, s1, Run(s1, steps[1..]), t, m);
    }
  }

  /** One turn of the loop: the first is waked, or the loop ends. */
  lemma OneWakes(s: State, flags: seq<bool>, t: Tid)
    requires Inv(s, flags) && t < |s.pcs| && s.pcs[t].Notifying? && Enabled(s, Next(t))
    ensures var s', done := Apply(s, Next(t)), s.pcs[t].limit == 0 || s.queue == [];
      && Wakes(s, s', t, if done then 0 else 1) && (!done ==> |s'.queue| == |s.queue| - 1) && s'.epoch == s.epoch && t < |s'.pcs|
      && s'.pcs[t] == if done then Inside else Notifying(s.pcs[t].limit - 1, s.pcs[t].all)
  {
    assert ThreadOk(s, flags, t);
    if s.queue != [] {
      Head(s.queue);
      assert s.queue[..1] == [s.queue[0]] && [s.queue[0]][0] == s.queue[0];
    }
  }

  lemma WakesTwice(s: State, s1: State, s2: State, t: Tid, m: nat)
    requires 0 < m <= |s.queue| && Wakes(s, s1, t, 1) && Wakes(s1, s2, t, m - 1)
    ensures Wakes(s, s2, t, m)
  {
    assert s.queue[1..][m - 1..] == s.queue[m..];
    forall u | 0 <= u < |s.pcs| && u != t
      ensures s2.pcs[u] == if Listed(s.queue[..m], u) then Woken else s.pcs[u]
    {
      ListedInParts(s.queue, m, u);
    }
  }

  lemma ListedInParts(q: seq<Tid>, m: nat, u: Tid)
    requires 0 < m <= |q|
    ensures Listed(q[..m], u) <==> Listed(q[..1], u) || Listed(q[1..][..m - 1], u)
  {
    if Listed(q[..m], u) {
      var i :| 0 <= i < |q[..m]| && q[..m][i] == u;
      assert i == 0 ==> q[..1][0] == u;
      assert i > 0 ==> q[1..][..m - 1][i - 1] == u;
    }
    if Listed(q[..1], u) {
      assert q[..m][0] == u;
    }
    if Listed(q[1..][..m - 1], u) {
      var i :| 0 <= i < |q[1..][..m - 1]| && q[1..][..m - 1][i] == u;
      assert q[..m][i + 1] == u;
    }
  }

  /** `notify(limit)` wakes the first threads of the queue, as many as the limit or all there are, and nobody
      else; `notifyOne` wakes one if one waits.  The epoch moves on, so that no thread on its way to the queue
      joins it. */
  lemma NotifyWakes(s: State, flags: seq<bool>, t: Tid, limit: nat)
    requires Inv(s, flags) && t < |s.pcs| && s.pcs[t] == Inside && limit <= ALL
    ensures Enabled(s, Notify(t, limit))
    ensures var m := Lesser(limit, |s.queue|);
      var s' := Run(Apply(s, Notify(t, limit)), seq(m + 1, _ => Next(t)));
      && Wakes(s, s', t, m) && t < |s'.pcs| && s'.pcs[t] == Inside && s'.epoch == s.epoch + 1
      && (limit == 1 ==> |s'.queue| == |s.queue| - (if s.queue == [] then 0 else 1))
  {
    hide Run;
    assert ThreadOk(s, flags, t);
    StepKeeps(s, Notify(t, limit), flags);
    var s1 := Apply(s, Notify(t, limit));
    LoopWakes(s1, flags, t, Lesser(limit, |s.queue|));
  }

  predicate InWait(pc: Pc) {
    pc.Waiting? || pc.Closing? || pc.Queued?
  }

  /** Nothing but a notification ends a wait: when a waiting thread is waked, the epoch has moved on since the
      wait began; and as long as it has not, the thread goes to the end of the queue. */
  lemma OnlyNotifyWakes(s: State, flags: seq<bool>, step: Step, u: Tid)
    requires Inv(s, flags) && Enabled(s, step) && u < |s.pcs| && InWait(s.pcs[u])
    ensures var s' := Apply(s, step);
      && u < |s'.pcs|
      && (if InWait(s'.pcs[u]) then s'.pcs[u].since == s.pcs[u].since
          else s'.pcs[u] == Woken && s.pcs[u].since < s'.epoch)
      && (step == Decide(u) && s.epoch == s.pcs[u].since ==> s'.pcs[u].Queued? && s'.queue == s.queue + [u])
  {
    assert ThreadOk(s, flags, u) && ThreadOk(s, flags, step.t) && Earlier(s, step.t, u);
    if step.Next? && s.queue != [] {
      assert ThreadOk(s, flags, s.queue[0]);
      Head(s.queue);
    }
  }

  lemma {:induction false} StaysInWait(s: State, steps: seq<Step>, flags: seq<bool>, u: Tid)
    requires Inv(s, flags) && u < |s.pcs| && InWait(s.pcs[u])
    ensures var s' := Run(s, steps);
      && u < |s'.pcs| && s'.epoch >= s.epoch
      && (s'.epoch == s.pcs[u].since ==> InWait(s'.pcs[u]) && s'.pcs[u].since == s.pcs[u].since)
    decreases |steps|
  {
    hide Inv, Enabled, Apply, InWait;
    RunKeeps(s, steps, flags);
    SameFlags(s, steps, flags);
    if steps != [] {
      if Enabled(s, steps[0]) {
        StepKeeps(s, steps[0], flags);
        OnlyNotifyWakes(s, flags, steps[0], u);
        var s1 := Apply(s, steps[0]);
        if InWait(s1.pcs[u]) {
          StaysInWait(s1, steps[1..], flags, u);
        } else {
          RunKeeps(s1, steps[1..], flags);
        }
      } else {
        StaysInWait(s, steps[1..], flags, u);
      }
    }
  }

  lemma SameFlags(s: State, steps: seq<Step>, flags: seq<bool>)
    requires Inv(s, flags) && Inv(Run(s, steps), flags)
    ensures |Run(s, steps).pcs| == |s.pcs| == |flags|
  {
    hide Run;
  }

  /** From when a thread calls `wait` it stays there until somebody notifies, whatever else happens. */
  lemma WaitsForNotify(s: State, steps: seq<Step>, flags: seq<bool>, t: Tid)
    requires Inv(s, flags) && Enabled(s, Wait(t))
    ensures var s' := Run(Apply(s, Wait(t)), steps);
      && t < |s'.pcs| && s'.epoch >= s.epoch
      && (!InWait(s'.pcs[t]) ==> s'.epoch > s.epoch)
  {
    hide Run;
    StepKeeps(s, Wait(t), flags);
    StaysInWait(Apply(s, Wait(t)), steps, flags, t);
  }

  /** In every run one thread at most has the lock, a thread inside has interrupts off, and everywhere
      else they are as when it came: so the assertion after `block` holds exactly for threads that came
      with interrupts on. */
  lemma AnyRun(flags: seq<bool>, steps: seq<Step>, t: Tid, u: Tid)
    requires |flags| < ALL && t < |flags| && u < |flags|
    ensures var s := Run(Initial(flags), steps);
      && |s.pcs| == |s.off| == |flags|
      && (HoldsLock(s.pcs[t]) && HoldsLock(s.pcs[u]) ==> t == u)
      && (s.pcs[t].Inside? || s.pcs[t].Notifying? ==> s.off[t])
      && (s.pcs[t].Out? || s.pcs[t].Woken? ==> s.off[t] == flags[t])
      && (s.pcs[t].Queued? <==> Listed(s.queue, t))
  {
    hide Run;
    InitialOk(flags);
    RunKeeps(Initial(flags), steps, flags);
    var s := Run(Initial(flags), steps);
    assert ThreadOk(s, flags, t) && ThreadOk(s, flags, u);
  }

  /** Whoever has the lock can go on, so that it is always given back unless the thread itself keeps it. */
  lemma NeverStuck(s: State, flags: seq<bool>, t: Tid)
    requires Inv(s, flags) && t < |s.pcs|
    ensures match s.pcs[t]
            case Inside => Enabled(s, Unlock(t)) && Enabled(s, Wait(t))
            case Closing(_) => Enabled(s, Decide(t))
            case Notifying(_, _) => Enabled(s, Next(t))
            case Woken => s.holder == None ==> Enabled(s, Lock(t))
            case Waiting(_) => s.holder == None ==> Enabled(s, Close(t))
            case _ => true
  {
  }
}
