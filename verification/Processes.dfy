/** Whole runs of what processes do to memory: being made, page faults, fork, clearing and destruction. */
module Processes {
  import opened Common
  import opened PageTables
  import opened Frames
  import opened Spaces
  import opened Teardown

  datatype Op =
    | Make(p: int)
    | Fault(p: int, vpn: int)
    | Fork(p: int, child: int)
    | Clear(p: int)
    | Destroy(p: int)

  /** What an operation that does not panic has done. */
  ghost predicate Did(v: Vm, v': Vm, c: Config, op: Op) {
    && Inv(v', c) && SpecialsMapped(v', c)
    && match op
       case Make(p) =>
         && OthersKept(v, v', p) && TakenFor(v.roles, v'.roles, p)
         && RoleIs(v'.roles, p, Dir) && !RoleIs(v.roles, p, Dir) && OnlyApicTables(v'.roles, c, p)
       case Fault(p, vpn) =>
         && Kept(v, v', p) && TakenFor(v.roles, v'.roles, p) && HALF <= vpn < TOP
         && RoleIs(v.roles, p, Dir) && RoleIs(v'.roles, p, Dir) && Lookup(v'.mem, p, vpn).Some?
       case Fork(p, child) => RoleIs(v.roles, p, Dir) && Forked(v, v', c, p, child)
       case Clear(p) => Cleared(v, v', c, p, TOP, ENTRIES)
       case Destroy(p) => RoleIs(v.roles, p, Dir) && GivenBack(v, v', p)
  }

  /** No frame is in the hands of code, and the kernel has only its tables. */
  ghost predicate Settled(v: Vm, c: Config) {
    forall f {:trigger f in v.roles} | f in v.roles ::
      v.roles[f] != Loose && (v.roles[f].Shared? ==> f in c.image)
  }

  lemma DidSettles(v: Vm, v': Vm, c: Config, op: Op)
    requires Inv(v, c) && Settled(v, c) && Did(v, v', c, op)
    ensures Settled(v', c)
  {
    hide Inv, SpecialsMapped, OthersKept, PagesKept, CopiedAt, OnlyApicTables, Lookup;
    forall f | f in v'.roles ensures v'.roles[f] != Loose && (v'.roles[f].Shared? ==> f in c.image) {
      match op
      case Make(p) => assert TakenAt(v.roles, v'.roles, p, f);
      case Fault(p, _) => assert TakenAt(v.roles, v'.roles, p, f);
      case Fork(_, child) => assert TakenAt(v.roles, v'.roles, child, f);
      case Clear(_) => assert f in v.roles;
      case Destroy(_) => assert f in v.roles;
    }
  }

  // ---- who has a frame, by what memory says ----

  predicate InTable(v: Vm, p: int, pdi: int, f: int) {
    HALF / ENTRIES <= pdi < ENTRIES && 0 <= p < |v.mem| && v.mem[p][pdi] == Entry(f)
  }

  predicate OnPage(v: Vm, c: Config, p: int, vpn: int, f: int) {
    HALF <= vpn < TOP && !Special(c, vpn) && 0 <= p < |v.mem| && Lookup(v.mem, p, vpn) == Some(f)
  }

  /** Frame f is the directory of process p, a private table that it refers to, or the frame of one of its
      private pages. */
  ghost predicate Has(v: Vm, c: Config, p: int, f: int) {
    && RoleIs(v.roles, p, Dir)
    && (f == p || (exists pdi :: InTable(v, p, pdi, f)) || (exists vpn :: OnPage(v, c, p, vpn, f)))
  }

  lemma HasMeans(v: Vm, c: Config, p: int, f: int)
    requires Inv(v, c)
    ensures OwnedBy(v.roles, f, p) <==> Has(v, c, p, f)
  {
    hide FreeListOk, KernelOk, Structured, Lookup, Special, Pdi, HasTable;
    if OwnedBy(v.roles, f, p) {
      RolesInPrivateHalf(v, c, f);
      match v.roles[f]
      case Dir =>
      case Table(_, pdi) =>
        TableHasDir(v, c, p, pdi, f);
        TableRole(v, c, p, pdi, f);
        TableEntry(v, p, pdi, f);
        assert InTable(v, p, pdi, f);
      case Data(_, vpn) =>
        PageHasDir(v, c, p, vpn, f);
        InRange(v, c, p);
        PageRole(v, c, p, vpn, f);
        assert OnPage(v, c, p, vpn, f);
    }
    if Has(v, c, p, f) && f != p {
      if pdi :| InTable(v, p, pdi, f) {
        TableOf(v.mem, v.roles, c, p, pdi);
        TableEntry(v, p, pdi, FrameOf(v.mem[p][pdi]));
      } else {
        var vpn :| OnPage(v, c, p, vpn, f);
        PageRole(v, c, p, vpn, f);
      }
    }
  }

  lemma TableEntry(v: Vm, p: int, pdi: int, t: int)
    requires HasTable(v.mem, v.roles, p, pdi, t)
    ensures InTable(v, p, pdi, t) && RoleIs(v.roles, t, Table(p, pdi))
  {
  }

  lemma PageHasDir(v: Vm, c: Config, p: int, vpn: int, f: int)
    requires Inv(v, c) && RoleIs(v.roles, f, Data(p, vpn))
    ensures RoleIs(v.roles, p, Dir)
  {
    assert FrameOk(v.mem, v.roles, c, f);
  }

  /** Frame f is on the free list, or one of the kernel's tables, or has one process; and only one of these. */
  ghost predicate OneOwner(v: Vm, c: Config, f: int) {
    && (Listed(v.fl, f) || f in c.image || exists p :: Has(v, c, p, f))
    && !(Listed(v.fl, f) && f in c.image)
    && (forall p | Has(v, c, p, f) :: !Listed(v.fl, f) && f !in c.image)
    && (forall p, q | Has(v, c, p, f) && Has(v, c, q, f) :: p == q)
  }

  lemma SettledMeans(v: Vm, c: Config, f: int)
    requires Inv(v, c) && Settled(v, c) && c.start <= f < v.avail
    ensures OneOwner(v, c, f)
  {
    hide Has, Structured;
    assert Managed(v, c, f);
    NotFree(v, c, f);
    assert f in c.image ==> Pinned(v, c, f);
    forall p ensures Has(v, c, p, f) <==> OwnedBy(v.roles, f, p) {
      HasMeans(v, c, p, f);
    }
    match v.roles[f]
    case Dir => assert Has(v, c, f, f);
    case Table(p, _) => assert Has(v, c, p, f);
    case Data(p, _) => assert Has(v, c, p, f);
    case _ =>
  }

  // ---- whole runs ----

  /** What `VMM::global_init` leaves. */
  ghost predicate Started(v: Vm, c: Config) {
    Inv(v, c) && SpecialsMapped(v, c) && Settled(v, c)
  }

  ghost predicate History(states: seq<Vm>, ops: seq<Op>, c: Config) {
    && |states| == |ops| + 1 && Started(states[0], c)
    && forall i {:trigger ops[i]} | 0 <= i < |ops| :: Did(states[i], states[i + 1], c, ops[i])
  }

  lemma {:induction false} HistoryHolds(states: seq<Vm>, ops: seq<Op>, c: Config, k: nat)
    requires History(states, ops, c) && k < |states|
    ensures Started(states[k], c)
  {
    hide Inv, Did, Settled, SpecialsMapped;
    if k > 0 {
      HistoryHolds(states, ops, c, k - 1);
      assert Did(states[k - 1], states[k], c, ops[k - 1]);
      DidSettles(states[k - 1], states[k], c, ops[k - 1]);
      DidFacts(states[k - 1], states[k], c, ops[k - 1]);
    }
  }

  lemma DidFacts(v: Vm, v': Vm, c: Config, op: Op)
    requires Did(v, v', c, op)
    ensures Inv(v', c) && SpecialsMapped(v', c)
  {
  }

  /** In every run whatever page a process has, user code can write, and on no other frame than the kernel
      reads it on. */
  lemma UserReachesInEveryRun(states: seq<Vm>, ops: seq<Op>, c: Config, k: nat, p: int, vpn: int)
    requires History(states, ops, c) && k < |states| && RoleIs(states[k].roles, p, Dir) && HALF <= vpn < TOP
    ensures 0 <= p < |states[k].mem| && UserLookup(states[k].mem, p, vpn) == Lookup(states[k].mem, p, vpn)
  {
    hide History, Lookup, UserLookup;
    HistoryHolds(states, ops, c, k);
    InRange(states[k], c, p);
    UserReaches(states[k].mem, states[k].roles, c, p, vpn);
  }

  /** In every run each frame between `start` and `avail` is free, or the kernel's, or has exactly one
      process: none is lost, and none has two owners. */
  lemma EveryFrameHasOneOwner(states: seq<Vm>, ops: seq<Op>, c: Config, k: nat, f: int)
    requires History(states, ops, c) && k < |states| && c.start <= f < states[k].avail
    ensures OneOwner(states[k], c, f)
  {
    hide History, OneOwner;
    HistoryHolds(states, ops, c, k);
    SettledMeans(states[k], c, f);
  }

  /** Destroying a child gives back what making it took: every frame is where it was before the fork,
      and those never used before are free. */
  lemma DestroyUndoesFork(v: Vm, v': Vm, v'': Vm, c: Config, p: int, child: int)
    requires Inv(v, c)
    requires Did(v, v', c, Fork(p, child)) && Did(v', v'', c, Destroy(child))
    ensures forall f | f in v.roles :: RoleIs(v''.roles, f, v.roles[f])
    ensures forall f | f in v''.roles && f !in v.roles :: v''.roles[f] == Free
  {
    hide Inv, SpecialsMapped, OthersKept, PagesKept, CopiedAt, Lookup;
    forall f ensures f in v.roles ==> RoleIs(v''.roles, f, v.roles[f])
      ensures f in v''.roles && f !in v.roles ==> v''.roles[f] == Free
    {
      assert TakenAt(v.roles, v'.roles, child, f);
      NothingOwned(v, c, child, f);
    }
  }
}
