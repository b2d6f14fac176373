/** The semaphore of kernel/semaphore.h as a step system over any number of threads.  Its lock (the ISL
    of kernel/atomic.h) is taken by the thread that finds the count at zero and released by the function
    that runs on the next thread's stack, after the thread has been put in the queue. */
module SemaphoreSteps {
  import opened Common

  type Tid = nat

  /** Where a thread is in `down` or `up`; `was` is what `lock` returned: were interrupts off before? */
  datatype Pc =
    | Out
    | Downing
    | DownTest(was: bool)
    | DownLeave(was: bool)
    | Publishing(was: bool)
    | Published(was: bool)
    | Sleeping(was: bool)
    | Resumed(was: bool)
    | Upping
    | UpTest(was: bool)
    | UpLeave(was: bool, next: Option<Tid>)
    | UpSchedule(woken: Tid)

  /** The semaphore, the threads, each one's interrupt flag, and the history: the completed and the
      granted operations, and who has joined and left the queue. */
  datatype State = State(
    count: nat, holder: Option<Tid>, waiting: seq<Tid>,
    pcs: seq<Pc>, off: seq<bool>,
    ups: nat, granted: nat, joined: seq<Tid>, left: seq<Tid>)

  datatype Step =
    | CallDown(t: Tid) | LockDown(t: Tid) | Take(t: Tid) | UnlockDown(t: Tid)
    | Block(t: Tid) | Publish(t: Tid) | Release(t: Tid) | Resume(t: Tid)
    | CallUp(t: Tid) | LockUp(t: Tid) | Grant(t: Tid) | UnlockUp(t: Tid) | Schedule(t: Tid)

  predicate Enabled(s: State, step: Step) {
    && step.t < |s.pcs| == |s.off|
    && var pc := s.pcs[step.t];
       match step
       case CallDown(_) => pc == Out
       case LockDown(_) => pc == Downing && s.holder == None
       case Take(_) => pc.DownTest? && s.count > 0
       case UnlockDown(_) => pc.DownLeave?
       case Block(_) => pc.DownTest? && s.count == 0
       case Publish(_) => pc.Publishing?
       case Release(_) => pc.Published?
       case Resume(_) => pc.Resumed?
       case CallUp(_) => pc == Out
       case LockUp(_) => pc == Upping && s.holder == None
       case Grant(_) => pc.UpTest?
       case UnlockUp(_) => pc.UpLeave?
       case Schedule(_) => pc.UpSchedule? && pc.woken < |s.pcs| && s.pcs[pc.woken].Sleeping?
  }

  function Goes(s: State, t: Tid, pc: Pc): State
    requires t < |s.pcs|
  {
    s.(pcs := s.pcs[t := pc])
  }

  /** The lock is taken: interrupts are off, and how they were is remembered. */
  function Locked(s: State, t: Tid, pc: Pc): State
    requires t < |s.pcs| == |s.off|
  {
    s.(pcs := s.pcs[t := pc], holder := Some(t), off := s.off[t := true])
  }

  /** `unlock(off)`: the lock is free, and interrupts are as asked. */
  function Unlocked(s: State, t: Tid, pc: Pc, off: bool): State
    requires t < |s.pcs| == |s.off|
  {
    s.(pcs := s.pcs[t := pc], holder := None, off := s.off[t := off])
  }

  function Apply(s: State, step: Step): State
    requires Enabled(s, step)
  {
    var t := step.t;
    var pc := s.pcs[t];
    match step
    case CallDown(_) => Goes(s, t, Downing)
    case LockDown(_) => Locked(s, t, DownTest(s.off[t]))
    case Take(_) => Goes(s, t, DownLeave(pc.was)).(count := s.count - 1, granted := s.granted + 1)
    case UnlockDown(_) => Unlocked(s, t, Out, pc.was)
    case Block(_) => Goes(s, t, Publishing(pc.was))
    case Publish(_) => Goes(s, t, Published(pc.was)).(waiting := s.waiting + [t], joined := s.joined + [t])
    case Release(_) => Unlocked(s, t, Sleeping(pc.was), true)
    case Resume(_) => s.(pcs := s.pcs[t := Out], off := s.off[t := pc.was])
    case CallUp(_) => Goes(s, t, Upping)
    case LockUp(_) => Locked(s, t, UpTest(s.off[t]))
    case Grant(_) =>
      if s.waiting == [] then
        Goes(s, t, UpLeave(pc.was, None)).(count := s.count + 1, ups := s.ups + 1)
      else
        Goes(s, t, UpLeave(pc.was, Some(s.waiting[0]))).(
          waiting := s.waiting[1..], ups := s.ups + 1, granted := s.granted + 1, left := s.left + [s.waiting[0]])
    case UnlockUp(_) =>
      Unlocked(s, t, if pc.next == None then Out else UpSchedule(pc.next.value), pc.was)
    case Schedule(_) =>
      s.(pcs := s.pcs[t := Out][pc.woken := Resumed(s.pcs[pc.woken].was)])
  }

  // ---- the invariant ----

  predicate HoldsLock(pc: Pc) {
    pc.DownTest? || pc.DownLeave? || pc.Publishing? || pc.Published? || pc.UpTest? || pc.UpLeave?
  }

  predicate Carries(pc: Pc, n: Tid) {
    pc == UpSchedule(n) || (pc.UpLeave? && pc.next == Some(n))
  }

  predicate Listed(q: seq<Tid>, t: Tid) {
    exists i :: 0 <= i < |q| && q[i] == t
  }

  predicate InQueue(pc: Pc) {
    pc.Published? || pc.Sleeping?
  }

  /** Interrupts are off while a thread is inside, and what they were is what the thread had. */
  predicate FlagOk(s: State, flags: seq<bool>, t: Tid)
    requires t < |s.pcs| == |s.off| == |flags|
  {
    var pc := s.pcs[t];
    match pc
    case Out => s.off[t] == flags[t]
    case Downing => s.off[t] == flags[t]
    case Upping => s.off[t] == flags[t]
    case UpSchedule(_) => s.off[t] == flags[t]
    case _ => s.off[t] && pc.was == flags[t]
  }

  predicate ThreadOk(s: State, flags: seq<bool>, t: Tid)
    requires t < |s.pcs| == |s.off| == |flags|
  {
    && FlagOk(s, flags, t)
    && (HoldsLock(s.pcs[t]) <==> s.holder == Some(t))
    && (s.pcs[t].Publishing? ==> s.count == 0)
  }

  /** The thread that t is about to schedule sleeps, has left the queue, and is nobody else's charge. */
  predicate ChargeOk(s: State, t: Tid, n: Tid)
    requires t < |s.pcs|
  {
    Carries(s.pcs[t], n) ==>
      && n < |s.pcs| && s.pcs[n].Sleeping? && !Listed(s.waiting, n)
      && forall u | 0 <= u < |s.pcs| && u != t :: !Carries(s.pcs[u], n)
  }

  predicate QueueAt(s: State, i: nat)
    requires i < |s.waiting|
  {
    s.waiting[i] < |s.pcs| && InQueue(s.pcs[s.waiting[i]])
  }

  /** A thread asleep is still in the queue, or some thread has it in hand to schedule it. */
  predicate SleepOk(s: State, t: Tid)
    requires t < |s.pcs|
  {
    InQueue(s.pcs[t]) ==>
      Listed(s.waiting, t) || (s.pcs[t].Sleeping? && exists u :: 0 <= u < |s.pcs| && Carries(s.pcs[u], t))
  }

  ghost predicate QueueOk(s: State) {
    && (forall t {:trigger SleepOk(s, t)} | 0 <= t < |s.pcs| :: SleepOk(s, t))
    && (forall t, n {:trigger Carries(s.pcs[t], n)} | 0 <= t < |s.pcs| :: ChargeOk(s, t, n))
    && (forall i {:trigger QueueAt(s, i)} | 0 <= i < |s.waiting| :: QueueAt(s, i))
    && (forall i, j | 0 <= i < j < |s.waiting| :: s.waiting[i] != s.waiting[j])
  }

  ghost predicate Inv(s: State, flags: seq<bool>, initial: nat) {
    && |s.pcs| == |s.off| == |flags|
    && (s.holder.Some? ==> s.holder.value < |s.pcs|)
    && (forall t {:trigger ThreadOk(s, flags, t)} | 0 <= t < |s.pcs| :: ThreadOk(s, flags, t))
    && QueueOk(s)
    && initial + s.ups == s.count + s.granted
    && (s.count > 0 ==> s.waiting == [])
    && s.joined == s.left + s.waiting
  }

  // ---- every step keeps the invariant ----

  /** How thread u stands to the queue does not change. */
  ghost predicate SameStanding(s: State, s': State, u: Tid)
    requires u < |s.pcs| == |s'.pcs|
  {
    && (InQueue(s'.pcs[u]) <==> InQueue(s.pcs[u]))
    && (s.pcs[u].Sleeping? ==> s'.pcs[u].Sleeping?)
    && (forall n {:trigger Carries(s'.pcs[u], n)} :: Carries(s'.pcs[u], n) <==> Carries(s.pcs[u], n))
  }

  lemma StandingStays(s: State, s': State)
    requires QueueOk(s) && |s'.pcs| == |s.pcs| && s'.waiting == s.waiting
    requires forall u {:trigger SameStanding(s, s', u)} | 0 <= u < |s.pcs| :: SameStanding(s, s', u)
    ensures QueueOk(s')
  {
    hide Carries, InQueue;
    forall u | 0 <= u < |s'.pcs| ensures SleepOk(s', u) {
      assert SleepOk(s, u) && SameStanding(s, s', u);
      if InQueue(s'.pcs[u]) && !Listed(s.waiting, u) {
        var v :| 0 <= v < |s.pcs| && Carries(s.pcs[v], u);
        assert SameStanding(s, s', v) && Carries(s'.pcs[v], u);
      }
    }
    forall u, n | 0 <= u < |s'.pcs| ensures ChargeOk(s', u, n) {
      assert SameStanding(s, s', u);
      if Carries(s'.pcs[u], n) {
        assert Carries(s.pcs[u], n) && ChargeOk(s, u, n) && SameStanding(s, s', n);
        forall v | 0 <= v < |s'.pcs| && v != u ensures !Carries(s'.pcs[v], n) {
          assert SameStanding(s, s', v);
        }
      }
    }
    forall i | 0 <= i < |s'.waiting| ensures QueueAt(s', i) {
      assert QueueAt(s, i) && SameStanding(s, s', s.waiting[i]);
    }
  }

  predicate Quiet(step: Step) {
    !step.Publish? && !step.Grant? && !step.Schedule?
  }

  lemma QuietStanding(s: State, step: Step)
    requires Enabled(s, step) && Quiet(step)
    ensures forall u {:trigger SameStanding(s, Apply(s, step), u)} | 0 <= u < |s.pcs| ::
      SameStanding(s, Apply(s, step), u)
  {
  }

  lemma PublishQueue(s: State, t: Tid)
    requires QueueOk(s) && Enabled(s, Publish(t))
    ensures QueueOk(Apply(s, Publish(t)))
  {
    var s' := Apply(s, Publish(t));
    forall i | 0 <= i < |s.waiting| ensures s.waiting[i] != t {
      assert QueueAt(s, i);
    }
    forall u | 0 <= u < |s'.pcs| ensures SleepOk(s', u) {
      assert SleepOk(s, u);
      if u == t {
        assert s'.waiting[|s.waiting|] == t;
      } else if i :| 0 <= i < |s.waiting| && s.waiting[i] == u {
        assert s'.waiting[i] == u;
      } else if InQueue(s.pcs[u]) {
        var v :| 0 <= v < |s.pcs| && Carries(s.pcs[v], u);
        assert Carries(s'.pcs[v], u);
      }
    }
    forall u, n | 0 <= u < |s'.pcs| ensures ChargeOk(s', u, n) {
      if Carries(s'.pcs[u], n) {
        assert Carries(s.pcs[u], n) && ChargeOk(s, u, n);
        forall v | 0 <= v < |s'.pcs| && v != u ensures !Carries(s'.pcs[v], n) {
          assert !Carries(s.pcs[v], n);
        }
      }
    }
    forall i | 0 <= i < |s'.waiting| ensures QueueAt(s', i) {
      assert i < |s.waiting| ==> QueueAt(s, i);
    }
  }

  lemma GrantQueue(s: State, t: Tid)
    requires QueueOk(s) && Enabled(s, Grant(t))
    requires forall u | 0 <= u < |s.pcs| && u != t :: !HoldsLock(s.pcs[u])
    ensures QueueOk(Apply(s, Grant(t)))
  {
    var s' := Apply(s, Grant(t));
    if s.waiting == [] {
      forall u | 0 <= u < |s.pcs| ensures SameStanding(s, s', u) {
      }
      StandingStays(s, s');
    } else {
      var w := s.waiting[0];
      assert QueueAt(s, 0);
      assert forall n :: Carries(s'.pcs[t], n) <==> n == w;
      forall u | 0 <= u < |s'.pcs| ensures SleepOk(s', u) {
        assert SleepOk(s, u);
        if u == w {
          assert Carries(s'.pcs[t], w);
        } else if i :| 0 <= i < |s.waiting| && s.waiting[i] == u {
          assert s'.waiting[i - 1] == u;
        } else if InQueue(s.pcs[u]) {
          var v :| 0 <= v < |s.pcs| && Carries(s.pcs[v], u);
          assert Carries(s'.pcs[v], u);
        }
      }
      forall u, n | 0 <= u < |s'.pcs| ensures ChargeOk(s', u, n) {
        if u == t && n == w {
          forall v | 0 <= v < |s'.pcs| && v != t ensures !Carries(s'.pcs[v], w) {
          }
        } else if Carries(s'.pcs[u], n) {
          assert Carries(s.pcs[u], n) && ChargeOk(s, u, n);
          assert n != w;
          forall v | 0 <= v < |s'.pcs| && v != u ensures !Carries(s'.pcs[v], n) {
            assert !Carries(s.pcs[v], n);
          }
        }
      }
      forall i | 0 <= i < |s'.waiting| ensures QueueAt(s', i) {
        assert QueueAt(s, i + 1);
      }
    }
  }

  lemma ScheduleQueue(s: State, t: Tid)
    requires QueueOk(s) && Enabled(s, Schedule(t))
    ensures QueueOk(Apply(s, Schedule(t)))
  {
    var s', w := Apply(s, Schedule(t)), s.pcs[t].woken;
    assert Carries(s.pcs[t], w) && ChargeOk(s, t, w);
    forall u | 0 <= u < |s'.pcs| ensures SleepOk(s', u) {
      assert SleepOk(s, u);
      if InQueue(s'.pcs[u]) && !Listed(s.waiting, u) {
        var v :| 0 <= v < |s.pcs| && Carries(s.pcs[v], u);
        assert Carries(s'.pcs[v], u);
      }
    }
    forall u, n | 0 <= u < |s'.pcs| ensures ChargeOk(s', u, n) {
      if Carries(s'.pcs[u], n) {
        assert Carries(s.pcs[u], n) && ChargeOk(s, u, n);
        forall v | 0 <= v < |s'.pcs| && v != u ensures !Carries(s'.pcs[v], n) {
          assert !Carries(s.pcs[v], n);
        }
      }
    }
    forall i | 0 <= i < |s'.waiting| ensures QueueAt(s', i) {
      assert QueueAt(s, i);
    }
  }

  lemma StepKeeps(s: State, step: Step, flags: seq<bool>, initial: nat)
    requires Inv(s, flags, initial) && Enabled(s, step)
    ensures Inv(Apply(s, step), flags, initial)
  {
    hide QueueOk, SleepOk, ChargeOk, QueueAt, FlagOk;
    var s', t := Apply(s, step), step.t;
    assert ThreadOk(s, flags, t);
    if step.Publish? {
      PublishQueue(s, t);
    } else if step.Grant? {
      forall u | 0 <= u < |s.pcs| && u != t ensures !HoldsLock(s.pcs[u]) {
        assert ThreadOk(s, flags, u);
      }
      GrantQueue(s, t);
    } else if step.Schedule? {
      ScheduleQueue(s, t);
    } else {
      QuietStanding(s, step);
      StandingStays(s, s');
    }
    forall u | 0 <= u < |s'.pcs| ensures ThreadOk(s', flags, u) {
      ThreadStays(s, step, flags, u);
    }
  }

  lemma ThreadStays(s: State, step: Step, flags: seq<bool>, u: Tid)
    requires Enabled(s, step) && |s.pcs| == |s.off| == |flags| && u < |s.pcs|
    requires ThreadOk(s, flags, step.t) && ThreadOk(s, flags, u)
    ensures ThreadOk(Apply(s, step), flags, u)
  {
  }

  // ---- whole runs ----

  function Run(s: State, steps: seq<Step>): State
    decreases |steps|
  {
    if steps == [] then s else Run(if Enabled(s, steps[0]) then Apply(s, steps[0]) else s, steps[1..])
  }

  lemma {:induction false} RunKeeps(s: State, steps: seq<Step>, flags: seq<bool>, initial: nat)
    requires Inv(s, flags, initial)
    ensures Inv(Run(s, steps), flags, initial)
    decreases |steps|
  {
    hide Inv;
    if steps != [] {
      if Enabled(s, steps[0]) {
        StepKeeps(s, steps[0], flags, initial);
        RunKeeps(Apply(s, steps[0]), steps[1..], flags, initial);
      } else {
        RunKeeps(s, steps[1..], flags, initial);
      }
    }
  }

  function Initial(initial: nat, flags: seq<bool>): State {
    State(initial, None, [], seq(|flags|, _ => Out), flags, 0, 0, [], [])
  }

  lemma InitialOk(initial: nat, flags: seq<bool>)
    ensures Inv(Initial(initial, flags), flags, initial)
  {
    var s := Initial(initial, flags);
    forall t, n | 0 <= t < |s.pcs| ensures ChargeOk(s, t, n) {
      assert s.pcs[t] == Out;
    }
  }

  /** In every run: completed ups and the initial count are the granted downs and the count; nobody waits
      while the count is positive; the queue is served in order; whoever is asleep is still in the queue
      or about to be scheduled; and a thread outside has the interrupt flag it came with. */
  lemma AnyRun(initial: nat, flags: seq<bool>, steps: seq<Step>)
    ensures var s := Run(Initial(initial, flags), steps);
      && |s.pcs| == |s.off| == |flags|
      && initial + s.ups == s.count + s.granted
      && (s.count > 0 ==> s.waiting == [])
      && s.left <= s.joined && s.joined == s.left + s.waiting
      && (forall t | 0 <= t < |s.pcs| && s.pcs[t].Sleeping? ::
            Listed(s.waiting, t) || exists u :: 0 <= u < |s.pcs| && Carries(s.pcs[u], t))
      && (forall t | 0 <= t < |s.pcs| && s.pcs[t] == Out :: s.off[t] == flags[t])
      && (forall t, u | 0 <= t < u < |s.pcs| :: !(HoldsLock(s.pcs[t]) && HoldsLock(s.pcs[u])))
  {
    hide Run, Carries, Listed, ChargeOk;
    InitialOk(initial, flags);
    RunKeeps(Initial(initial, flags), steps, flags, initial);
    var s := Run(Initial(initial, flags), steps);
    forall t | 0 <= t < |s.pcs|
      ensures s.pcs[t].Sleeping? ==>
        Listed(s.waiting, t) || exists u :: 0 <= u < |s.pcs| && Carries(s.pcs[u], t)
      ensures s.pcs[t] == Out ==> s.off[t] == flags[t]
    {
      assert ThreadOk(s, flags, t) && SleepOk(s, t);
    }
    forall t, u | 0 <= t < u < |s.pcs| ensures !(HoldsLock(s.pcs[t]) && HoldsLock(s.pcs[u])) {
      assert ThreadOk(s, flags, t) && ThreadOk(s, flags, u);
    }
  }

  /** The lock is always given back: whoever has it can go on, be it on the next thread's stack; and a thread
      that has been waked, or has one to schedule, needs nothing. */
  lemma NeverStuck(s: State, flags: seq<bool>, initial: nat, t: Tid)
    requires Inv(s, flags, initial) && t < |s.pcs|
    ensures match s.pcs[t]
            case DownTest(_) => Enabled(s, if s.count > 0 then Take(t) else Block(t))
            case DownLeave(_) => Enabled(s, UnlockDown(t))
            case Publishing(_) => Enabled(s, Publish(t))
            case Published(_) => Enabled(s, Release(t))
            case Resumed(_) => Enabled(s, Resume(t))
            case UpTest(_) => Enabled(s, Grant(t))
            case UpLeave(_, _) => Enabled(s, UnlockUp(t))
            case UpSchedule(_) => Enabled(s, Schedule(t))
            case Downing => s.holder == None ==> Enabled(s, LockDown(t))
            case Upping => s.holder == None ==> Enabled(s, LockUp(t))
            case _ => true
  {
    hide ThreadOk, SleepOk, QueueAt;
    if s.pcs[t].UpSchedule? {
      assert Carries(s.pcs[t], s.pcs[t].woken) && ChargeOk(s, t, s.pcs[t].woken);
    }
  }

  // ---- the semaphore as one atomic object ----

  /** `down` and `up` with no lock and no switch: a count and the queue of those it could not serve. */
  datatype Atomic = Atomic(count: nat, waiting: seq<Tid>)

  function View(s: State): Atomic {
    Atomic(s.count, s.waiting)
  }

  function AtomicDown(a: Atomic, t: Tid): Atomic {
    if a.count > 0 then a.(count := a.count - 1) else a.(waiting := a.waiting + [t])
  }

  function AtomicUp(a: Atomic): Atomic {
    if a.waiting == [] then a.(count := a.count + 1) else a.(waiting := a.waiting[1..])
  }

  /** Each step is one atomic operation or changes nothing that shows: a down takes effect when the count
      is lowered or when the thread joins the queue, although it looked at the count before the switch. */
  lemma StepRefines(s: State, step: Step, flags: seq<bool>, initial: nat)
    requires Inv(s, flags, initial) && Enabled(s, step)
    ensures View(Apply(s, step)) ==
      if step.Take? || step.Publish? then AtomicDown(View(s), step.t)
      else if step.Grant? then AtomicUp(View(s))
      else View(s)
  {
    hide QueueOk, FlagOk;
    assert ThreadOk(s, flags, step.t);
  }

  // ---- the semaphore as a counter ----

  /** For whoever calls it a semaphore is a count and those who ask for it: one step raises the count,
      another lowers it and lets one of those through who ask, whichever.  That is how the bounded buffer,
      the one-shot barrier and the future use it. */
  datatype Counter = Counter(count: nat, asking: set<Tid>)

  function Raised(c: Counter): Counter {
    c.(count := c.count + 1)
  }

  predicate MayLower(c: Counter, t: Tid) {
    c.count > 0 && t in c.asking
  }

  function Lowered(c: Counter, t: Tid): Counter
    requires MayLower(c, t)
  {
    Counter(c.count - 1, c.asking - {t})
  }

  /** Thread t has called `down` and has not been let through. */
  predicate Asks(s: State, t: Tid)
    requires t < |s.pcs|
  {
    match s.pcs[t]
    case Downing => true
    case DownTest(_) => true
    case Publishing(_) => true
    case Published(_) => Listed(s.waiting, t)
    case Sleeping(_) => Listed(s.waiting, t)
    case _ => false
  }

  predicate StillAsks(s: State, step: Step, u: Tid)
    requires u < |s.pcs|
  {
    && (Asks(s, u) || step == CallDown(u))
    && step != Take(u) && !(step.Grant? && s.waiting != [] && u == s.waiting[0])
  }

  function CounterOf(s: State): Counter {
    Counter(s.count, set t: Tid | 0 <= t < |s.pcs| && Asks(s, t))
  }

  /** Each step is none, one or two steps of the counter: an up that finds somebody waiting raises the count
      and lets the first of them through at once. */
  lemma StepCounts(s: State, step: Step, flags: seq<bool>, initial: nat)
    requires Inv(s, flags, initial) && Enabled(s, step)
    ensures var c, c' := CounterOf(s), CounterOf(Apply(s, step));
      match step
      case CallDown(t) => c' == c.(asking := c.asking + {t})
      case Take(t) => MayLower(c, t) && c' == Lowered(c, t)
      case Grant(_) =>
        if s.waiting == [] then c' == Raised(c)
        else MayLower(Raised(c), s.waiting[0]) && c' == Lowered(Raised(c), s.waiting[0])
      case _ => c' == c
  {
    hide Inv;
    var s' := Apply(s, step);
    forall u: Tid | u < |s.pcs|
      ensures Asks(s', u) <==> StillAsks(s, step, u)
    {
      AskingAfter(s, step, flags, initial, u);
    }
    if step.Grant? && s.waiting != [] {
      FirstAsks(s, flags, initial);
    }
  }

  lemma FirstAsks(s: State, flags: seq<bool>, initial: nat)
    requires Inv(s, flags, initial) && s.waiting != []
    ensures s.waiting[0] < |s.pcs| && Asks(s, s.waiting[0])
  {
    assert QueueAt(s, 0) && Listed(s.waiting, s.waiting[0]);
  }

  lemma AskingAfter(s: State, step: Step, flags: seq<bool>, initial: nat, u: Tid)
    requires Inv(s, flags, initial) && Enabled(s, step) && u < |s.pcs|
    ensures Asks(Apply(s, step), u) <==> StillAsks(s, step, u)
  {
    hide ThreadOk, SleepOk, Listed;
    var s', t := Apply(s, step), step.t;
    ListedAfter(s.waiting, t, u);
    assert s.waiting != [] ==> Listed(s.waiting, s.waiting[0]) by {
      FirstListed(s.waiting);
    }
    if step.Schedule? {
      assert Carries(s.pcs[t], s.pcs[t].woken) && ChargeOk(s, t, s.pcs[t].woken);
    }
    if step.Grant? && s.waiting != [] {
      assert QueueAt(s, 0);
    }
    NotYetListed(s, flags, initial, t);
  }

  lemma FirstListed(q: seq<Tid>)
    ensures q != [] ==> Listed(q, q[0])
  {
  }

  lemma NotYetListed(s: State, flags: seq<bool>, initial: nat, t: Tid)
    requires Inv(s, flags, initial) && t < |s.pcs|
    ensures Listed(s.waiting, t) ==> InQueue(s.pcs[t])
  {
    if Listed(s.waiting, t) {
      var i :| 0 <= i < |s.waiting| && s.waiting[i] == t;
      assert QueueAt(s, i);
    }
  }

  lemma ListedAfter(q: seq<Tid>, t: Tid, u: Tid)
    requires forall i, j | 0 <= i < j < |q| :: q[i] != q[j]
    ensures Listed(q + [t], u) <==> Listed(q, u) || u == t
    ensures q != [] ==> (Listed(q[1..], u) <==> Listed(q, u) && u != q[0])
  {
    if Listed(q, u) {
      var i :| 0 <= i < |q| && q[i] == u;
      assert (q + [t])[i] == u;
      assert i > 0 ==> q[1..][i - 1] == u;
    }
    assert (q + [t])[|q|] == t;
    if q != [] && Listed(q[1..], u) {
      var i :| 0 <= i < |q[1..]| && q[1..][i] == u;
      assert q[i + 1] == u;
    }
  }

  // ---- mutual exclusion ----

  /** A thread with the right to be in the critical section of a `BlockingLock`: it has come out of
      `lock` (`locked`) and not yet given the lock back, or it is still on its way out of `lock` but has
      been granted it, awake or asleep. */
  predicate Owns(s: State, locked: seq<bool>, t: Tid)
    requires t < |s.pcs| == |locked|
  {
    match s.pcs[t]
    case Out => locked[t]
    case DownLeave(_) => true
    case Resumed(_) => true
    case Upping => true
    case UpTest(_) => true
    case Sleeping(_) => !Listed(s.waiting, t)
    case _ => false
  }

  function Owners(s: State, locked: seq<bool>): set<Tid>
    requires |s.pcs| == |locked|
  {
    set t: Tid | 0 <= t < |s.pcs| && Owns(s, locked, t)
  }

  /** Each thread's calls of `lock` and `unlock` alternate. */
  predicate Disciplined(locked: seq<bool>, step: Step) {
    step.t < |locked| && (step.CallDown? ==> !locked[step.t]) && (step.CallUp? ==> locked[step.t])
  }

  function LockedAfter(s: State, locked: seq<bool>, step: Step): seq<bool>
    requires Enabled(s, step) && |s.pcs| == |locked|
  {
    if step.UnlockDown? || step.Resume? then locked[step.t := true]
    else if step.Grant? then locked[step.t := false]
    else locked
  }

  /** A thread on its way into the lock does not have it. */
  predicate LockedOk(s: State, locked: seq<bool>, t: Tid)
    requires t < |s.pcs| == |locked|
  {
    match s.pcs[t]
    case Out => true
    case Upping => locked[t]
    case UpTest(_) => locked[t]
    case _ => !locked[t]
  }

  ghost predicate LockInv(s: State, flags: seq<bool>, locked: seq<bool>) {
    && Inv(s, flags, 1) && |locked| == |s.pcs|
    && (forall t {:trigger LockedOk(s, locked, t)} | 0 <= t < |s.pcs| :: LockedOk(s, locked, t))
    && |Owners(s, locked)| + s.count == 1
  }

  /** The owners change only when a down is granted or an up gives back. */
  predicate OwnsNext(s: State, locked: seq<bool>, step: Step, u: Tid)
    requires u < |s.pcs| == |locked|
  {
    if step.Take? then Owns(s, locked, u) || u == step.t
    else if step.Grant? && s.waiting == [] then Owns(s, locked, u) && u != step.t
    else if step.Grant? then (Owns(s, locked, u) && u != step.t) || u == s.waiting[0]
    else Owns(s, locked, u)
  }

  function NextOwners(s: State, locked: seq<bool>, step: Step): set<Tid>
    requires |s.pcs| == |locked|
  {
    var owners := Owners(s, locked);
    if step.Take? then owners + {step.t}
    else if step.Grant? && s.waiting == [] then owners - {step.t}
    else if step.Grant? then owners - {step.t} + {s.waiting[0]}
    else owners
  }

  lemma NextOwnersAre(s: State, locked: seq<bool>, step: Step)
    requires step.t < |s.pcs| == |locked| && (step.Grant? && s.waiting != [] ==> s.waiting[0] < |s.pcs|)
    ensures NextOwners(s, locked, step) == set u: Tid | 0 <= u < |s.pcs| && OwnsNext(s, locked, step, u)
  {
    hide Owns;
  }

  lemma OwnersMove(s: State, step: Step, flags: seq<bool>, locked: seq<bool>)
    requires LockInv(s, flags, locked) && Enabled(s, step) && Disciplined(locked, step)
    ensures |Apply(s, step).pcs| == |LockedAfter(s, locked, step)|
    ensures Owners(Apply(s, step), LockedAfter(s, locked, step)) == NextOwners(s, locked, step)
  {
    hide Inv, Owns, OwnsNext, NextOwners, Apply, LockedAfter, StepFacts, QueueOk, LockedOk, Listed, Enabled, Disciplined;
    LockFacts(s, flags, locked, step);
    SameThreads(s, locked, step);
    NextOwnersAre(s, locked, step);
    forall u: Tid | u < |s.pcs|
      ensures Owns(Apply(s, step), LockedAfter(s, locked, step), u) <==> OwnsNext(s, locked, step, u)
    {
      QueueChange(s, step, u);
      OwnerMoves(s, step, locked, u);
    }
  }

  lemma SameThreads(s: State, locked: seq<bool>, step: Step)
    requires Enabled(s, step) && |locked| == |s.pcs|
    ensures |Apply(s, step).pcs| == |LockedAfter(s, locked, step)| == |s.pcs|
  {
  }

  /** What a step relies on. */
  ghost predicate StepFacts(s: State, locked: seq<bool>, step: Step) {
    && step.t < |s.pcs| == |locked| && LockedOk(s, locked, step.t)
    && (s.pcs[step.t].Published? ==> Listed(s.waiting, step.t))
    && (step.Schedule? && s.pcs[step.t].UpSchedule? ==> !Listed(s.waiting, s.pcs[step.t].woken))
    && (step.Grant? && s.waiting != [] ==> s.waiting[0] < |s.pcs| && s.pcs[s.waiting[0]].Sleeping?)
  }

  lemma LockFacts(s: State, flags: seq<bool>, locked: seq<bool>, step: Step)
    requires LockInv(s, flags, locked) && Enabled(s, step)
    ensures StepFacts(s, locked, step) && QueueOk(s) && step.t < |s.pcs| == |locked|
    ensures step.Grant? && s.waiting != [] ==> s.waiting[0] < |s.pcs|
  {
    hide FlagOk, Listed, Owners;
    var t := step.t;
    assert ThreadOk(s, flags, t) && LockedOk(s, locked, t) && SleepOk(s, t);
    if step.Schedule? {
      assert Carries(s.pcs[t], s.pcs[t].woken) && ChargeOk(s, t, s.pcs[t].woken);
    }
    if step.Grant? && s.waiting != [] {
      assert QueueAt(s, 0) && ThreadOk(s, flags, s.waiting[0]);
    }
  }

  lemma OwnerMoves(s: State, step: Step, locked: seq<bool>, u: Tid)
    requires Enabled(s, step) && Disciplined(locked, step) && StepFacts(s, locked, step) && u < |s.pcs|
    requires Listed(Apply(s, step).waiting, u) <==>
      if step.Publish? then Listed(s.waiting, u) || u == step.t
      else if step.Grant? && s.waiting != [] then Listed(s.waiting, u) && u != s.waiting[0]
      else Listed(s.waiting, u)
    ensures Owns(Apply(s, step), LockedAfter(s, locked, step), u) <==> OwnsNext(s, locked, step, u)
  {
    hide Listed;
  }

  /** Who is listed changes only for the thread that joins or leaves. */
  lemma QueueChange(s: State, step: Step, u: Tid)
    requires QueueOk(s) && Enabled(s, step)
    ensures Listed(Apply(s, step).waiting, u) <==>
      if step.Publish? then Listed(s.waiting, u) || u == step.t
      else if step.Grant? && s.waiting != [] then Listed(s.waiting, u) && u != s.waiting[0]
      else Listed(s.waiting, u)
  {
    hide SleepOk, ChargeOk, QueueAt;
    if step.Publish? {
      assert (s.waiting + [step.t])[|s.waiting|] == step.t;
      if i :| 0 <= i < |s.waiting| && s.waiting[i] == u {
        assert (s.waiting + [step.t])[i] == u;
      }
    } else if step.Grant? && s.waiting != [] {
      if i :| 0 < i < |s.waiting| && s.waiting[i] == u {
        assert s.waiting[1..][i - 1] == u;
      }
    }
  }

  lemma LockStepKeeps(s: State, step: Step, flags: seq<bool>, locked: seq<bool>)
    requires LockInv(s, flags, locked) && Enabled(s, step) && Disciplined(locked, step)
    ensures LockInv(Apply(s, step), flags, LockedAfter(s, locked, step))
  {
    hide Inv, Owns, Owners, Apply, LockedAfter, LockedOk;
    StepKeeps(s, step, flags, 1);
    OwnersMove(s, step, flags, locked);
    LockedStays(s, step, flags, locked);
    OwnersAre(s, flags, locked, step);
    CountMoves(s, step);
  }

  lemma CountMoves(s: State, step: Step)
    requires Enabled(s, step)
    ensures Apply(s, step).count == s.count +
      if step.Take? then -1 else if step.Grant? && s.waiting == [] then 1 else 0
  {
  }

  lemma LockedStays(s: State, step: Step, flags: seq<bool>, locked: seq<bool>)
    requires LockInv(s, flags, locked) && Enabled(s, step) && Disciplined(locked, step)
    ensures var s', locked' := Apply(s, step), LockedAfter(s, locked, step);
      |locked'| == |s'.pcs| == |s.pcs| &&
      forall u {:trigger LockedOk(s', locked', u)} | 0 <= u < |s'.pcs| :: LockedOk(s', locked', u)
  {
    hide Inv, Owns;
    var s', locked', t := Apply(s, step), LockedAfter(s, locked, step), step.t;
    assert LockedOk(s, locked, t);
    forall u | 0 <= u < |s'.pcs| ensures LockedOk(s', locked', u) {
      assert LockedOk(s, locked, u);
    }
  }

  lemma OwnersAre(s: State, flags: seq<bool>, locked: seq<bool>, step: Step)
    requires LockInv(s, flags, locked) && Enabled(s, step)
    ensures step.Take? ==> step.t !in Owners(s, locked)
    ensures step.Grant? ==> step.t in Owners(s, locked)
    ensures step.Grant? && s.waiting != [] ==> s.waiting[0] !in Owners(s, locked)
  {
    hide SleepOk, ChargeOk;
    if s.waiting != [] {
      assert QueueAt(s, 0);
    }
  }

  /** Runs in which each thread's calls alternate; other steps are passed over. */
  function LockRun(s: State, locked: seq<bool>, steps: seq<Step>): (State, seq<bool>)
    requires |locked| == |s.pcs|
    decreases |steps|
  {
    if steps == [] then (s, locked)
    else if Enabled(s, steps[0]) && Disciplined(locked, steps[0]) then
      LockRun(Apply(s, steps[0]), LockedAfter(s, locked, steps[0]), steps[1..])
    else LockRun(s, locked, steps[1..])
  }

  lemma {:induction false} LockRunKeeps(s: State, flags: seq<bool>, locked: seq<bool>, steps: seq<Step>)
    requires LockInv(s, flags, locked)
    ensures var (s', locked') := LockRun(s, locked, steps); LockInv(s', flags, locked')
    decreases |steps|
  {
    hide Inv;
    if steps != [] {
      if Enabled(s, steps[0]) && Disciplined(locked, steps[0]) {
        LockStepKeeps(s, steps[0], flags, locked);
        LockRunKeeps(Apply(s, steps[0]), flags, LockedAfter(s, locked, steps[0]), steps[1..]);
      } else {
        LockRunKeeps(s, flags, locked, steps[1..]);
      }
    }
  }

  function NoneLocked(n: nat): (locked: seq<bool>)
    ensures |locked| == n
  {
    seq(n, _ => false)
  }

  /** At most one thread is between `lock` and `unlock`. */
  lemma MutualExclusion(flags: seq<bool>, steps: seq<Step>, t: Tid, u: Tid)
    requires t < u < |flags|
    ensures var (s, locked) := LockRun(Initial(1, flags), NoneLocked(|flags|), steps);
      |s.pcs| == |locked| == |flags| && !(s.pcs[t] == Out && locked[t] && s.pcs[u] == Out && locked[u])
  {
    hide Inv, LockRun;
    var locked0 := NoneLocked(|flags|);
    InitialOk(1, flags);
    assert Owners(Initial(1, flags), locked0) == {};
    LockRunKeeps(Initial(1, flags), flags, locked0, steps);
    var (s, locked) := LockRun(Initial(1, flags), locked0, steps);
    ThreadsKept(s, flags);
    if Owns(s, locked, t) && Owns(s, locked, u) {
      assert {t, u} <= Owners(s, locked);
      FewOwners({t, u}, Owners(s, locked));
    }
  }

  lemma FewOwners(a: set<Tid>, b: set<Tid>)
    requires a <= b
    ensures |a| <= |b|
  {
    assert b == a + (b - a);
  }

  lemma ThreadsKept(s: State, flags: seq<bool>)
    requires Inv(s, flags, 1)
    ensures |s.pcs| == |flags|
  {
  }
}
