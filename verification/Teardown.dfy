/** Taking a process's frames back: `unmap`, `delete_private` and `delete_pd` of kernel/vmm.cc. */
module Teardown {
  import opened Common
  import opened PageTables
  import opened Frames
  import opened Spaces

  // ---- one page ----

  /** Clearing a table entry and freeing its frame. */
  lemma PageUnmapped(v: Vm, c: Config, p: int, vpn: int, t: int)
    requires Inv(v, c) && HALF <= vpn < TOP && HasTable(v.mem, v.roles, p, Pdi(vpn), t) && !Special(c, vpn)
    requires Present(v.mem[t][Pti(vpn)])
    ensures var g := FrameOf(v.mem[t][Pti(vpn)]);
      var v1 := Apply(v, c, UnlinkPage(p, vpn, t));
      var v' := Apply(v1, c, Dealloc(g));
      && v1 == Vm(Poke(v.mem, t, Pti(vpn), 0), v.firstFree, v.avail, v.roles[g := Loose], v.fl) && Inv(v1, c)
      && Inv(v', c) && OthersKept(v, v', p) && HasTable(v'.mem, v'.roles, p, Pdi(vpn), t)
      && v'.roles == v.roles[g := Free] && v'.fl == [g] + v.fl
      && RoleIs(v.roles, g, Data(p, vpn)) && Lookup(v.mem, p, vpn) == Some(g)
      && Lookup(v'.mem, p, vpn) == None
      && (forall w | HALF <= w < TOP && w != vpn :: Lookup(v'.mem, p, w) == Lookup(v.mem, p, w))
  {
    hide FreeListOk, KernelOk, Structured, Pdi, Pti, Entry, FrameOf, Lookup, Special;
    ZeroIsAbsent();
    UnlinkPageKeeps(v, c, p, vpn, t);
    var g := FrameOf(v.mem[t][Pti(vpn)]);
    var v1 := Apply(v, c, UnlinkPage(p, vpn, t));
    DeallocKeeps(v1, c, g);
    var v' := Apply(v1, c, Dealloc(g));
    InRange(v1, c, g);
    StructureStays(v1.mem, v1.roles, v'.mem, v'.roles, c);
    forall f ensures KeptAt(v, v', p, f) {
      if f in v.roles {
        InRange(v, c, f);
      }
    }
    forall w | HALF <= w < TOP && w != vpn ensures Lookup(v'.mem, p, w) == Lookup(v.mem, p, w) {
      assert Lookup(v'.mem, p, w) == Lookup(v1.mem, p, w);
    }
  }

  /** Clearing a directory entry and freeing its table, once that is blank. */
  lemma TableUnmapped(v: Vm, c: Config, p: int, pdi: int, t: int)
    requires Inv(v, c) && HasTable(v.mem, v.roles, p, pdi, t) && Blank(v.mem[t])
    ensures var v1 := Apply(v, c, UnlinkTable(p, pdi, t));
      var v' := Apply(v1, c, Dealloc(t));
      && v1 == Vm(Poke(v.mem, p, pdi, 0), v.firstFree, v.avail, v.roles[t := Loose], v.fl) && Inv(v1, c)
      && Inv(v', c) && OthersKept(v, v', p) && v'.roles == v.roles[t := Free] && v'.fl == [t] + v.fl
      && RoleIs(v'.roles, p, Dir)
      && (forall w | HALF <= w < TOP :: Lookup(v'.mem, p, w) == Lookup(v.mem, p, w))
  {
    hide FreeListOk, KernelOk, Structured, Pdi, Pti, Entry, FrameOf, Lookup, Special, Blank;
    UnlinkTableKeeps(v, c, p, pdi, t);
    var v1 := Apply(v, c, UnlinkTable(p, pdi, t));
    DeallocKeeps(v1, c, t);
    var v' := Apply(v1, c, Dealloc(t));
    StructureStays(v1.mem, v1.roles, v'.mem, v'.roles, c);
    forall f ensures KeptAt(v, v', p, f) {
      if f in v.roles {
        InRange(v, c, f);
      }
    }
    forall w | HALF <= w < TOP ensures Lookup(v'.mem, p, w) == Lookup(v.mem, p, w) {
      assert Lookup(v'.mem, p, w) == Lookup(v1.mem, p, w);
    }
  }

  // ---- delete_private ----

  /** The role left to a frame once p's pages below n and its tables below m have been cleared. */
  function ClearedRole(c: Config, r: Role, p: int, n: int, m: int): Role {
    match r
    case Data(q, w) => if q == p && w < n then Free else r
    case Table(q, i) => if q == p && i < m && !TableHoldsSpecial(c, i) then Free else r
    case _ => r
  }

  function ClearedRoles(c: Config, roles: Roles, p: int, n: int, m: int): Roles {
    map f | f in roles :: ClearedRole(c, roles[f], p, n, m)
  }

  /** p's private half, cleared so far. */
  ghost predicate Cleared(v0: Vm, v: Vm, c: Config, p: int, n: int, m: int) {
    && Inv(v, c) && OthersKept(v0, v, p) && RoleIs(v0.roles, p, Dir) && 0 <= p < |v0.mem|
    && v.roles == ClearedRoles(c, v0.roles, p, n, m)
    && (forall w | HALF <= w < TOP && Special(c, w) :: Lookup(v.mem, p, w) == Lookup(v0.mem, p, w))
  }

  lemma ClearedFacts(v0: Vm, v: Vm, c: Config, p: int, n: int, m: int)
    requires Cleared(v0, v, c, p, n, m)
    ensures Inv(v, c) && RoleIs(v.roles, p, Dir) && 0 <= p < |v.mem|
  {
    InRange(v, c, p);
  }

  lemma ClearedBegins(v: Vm, c: Config, p: int)
    requires Inv(v, c) && RoleIs(v.roles, p, Dir)
    ensures Cleared(v, v, c, p, HALF, HALF / ENTRIES)
  {
    hide FreeListOk, KernelOk, Lookup, Special, TableHoldsSpecial, Pdi;
    KeptSelf(v, c, p);
    InRange(v, c, p);
    forall f | f in v.roles ensures ClearedRole(c, v.roles[f], p, HALF, HALF / ENTRIES) == v.roles[f] {
      assert FrameOk(v.mem, v.roles, c, f);
    }
  }

  /** Page n was there, and is gone. */
  lemma ClearedPage(v0: Vm, v: Vm, v': Vm, c: Config, p: int, n: int, m: int, g: int)
    requires Cleared(v0, v, c, p, n, m) && Inv(v', c) && OthersKept(v, v', p) && HALF <= n < TOP
    requires RoleIs(v.roles, g, Data(p, n)) && v'.roles == v.roles[g := Free] && !Special(c, n)
    requires forall w | HALF <= w < TOP && w != n :: Lookup(v'.mem, p, w) == Lookup(v.mem, p, w)
    ensures Cleared(v0, v', c, p, n + 1, m)
  {
    hide Inv, Lookup, Special, TableHoldsSpecial;
    ClearedFacts(v0, v, c, p, n, m);
    OthersClearedTwice(v0, v, v', c, p, n, m);
    forall f | f in v0.roles ensures v'.roles[f] == ClearedRole(c, v0.roles[f], p, n + 1, m) {
      PageRole(v, c, p, n, f);
      PageRole(v, c, p, n, g);
    }
    assert v'.roles == ClearedRoles(c, v0.roles, p, n + 1, m);
  }

  lemma OthersClearedTwice(v0: Vm, v: Vm, v': Vm, c: Config, p: int, n: int, m: int)
    requires Cleared(v0, v, c, p, n, m) && OthersKept(v, v', p)
    ensures OthersKept(v0, v', p)
  {
    hide Inv, Lookup, Special, TableHoldsSpecial;
    forall f ensures KeptAt(v0, v', p, f) {
      assert KeptAt(v0, v, p, f) && KeptAt(v, v', p, f);
    }
  }

  /** Pages n up to n' had no frame to give back. */
  lemma ClearedNothing(v0: Vm, v: Vm, c: Config, p: int, n: int, n': int, m: int)
    requires Cleared(v0, v, c, p, n, m) && HALF <= n <= n' <= TOP
    requires forall w | n <= w < n' :: Special(c, w) || Lookup(v.mem, p, w) == None
    ensures Cleared(v0, v, c, p, n', m)
  {
    hide FreeListOk, KernelOk, Structured, Lookup, Special, TableHoldsSpecial, OthersKept, Pdi;
    ClearedFacts(v0, v, c, p, n, m);
    forall f | f in v0.roles ensures v.roles[f] == ClearedRole(c, v0.roles[f], p, n', m) {
      RolesInPrivateHalf(v, c, f);
      if RoleIs(v.roles, f, v0.roles[f]) && v0.roles[f].Data? && v0.roles[f].dir == p {
        PageRole(v, c, p, v0.roles[f].vpn, f);
      }
    }
    assert v.roles == ClearedRoles(c, v0.roles, p, n', m);
  }

  lemma ClearedTable(v0: Vm, v: Vm, v': Vm, c: Config, p: int, n: int, m: int, t: int)
    requires Cleared(v0, v, c, p, n, m) && Inv(v', c) && OthersKept(v, v', p)
    requires RoleIs(v.roles, t, Table(p, m)) && v'.roles == v.roles[t := Free] && !TableHoldsSpecial(c, m)
    requires forall w | HALF <= w < TOP :: Lookup(v'.mem, p, w) == Lookup(v.mem, p, w)
    ensures Cleared(v0, v', c, p, n, m + 1)
  {
    hide Inv, Lookup, Special, TableHoldsSpecial;
    ClearedFacts(v0, v, c, p, n, m);
    OthersClearedTwice(v0, v, v', c, p, n, m);
    forall f | f in v0.roles ensures v'.roles[f] == ClearedRole(c, v0.roles[f], p, n, m + 1) {
      OneTable(v, c, p, m, f, t);
    }
    assert v'.roles == ClearedRoles(c, v0.roles, p, n, m + 1);
  }

  lemma OneTable(v: Vm, c: Config, p: int, pdi: int, t: int, t': int)
    requires Inv(v, c) && RoleIs(v.roles, p, Dir)
    ensures RoleIs(v.roles, t, Table(p, pdi)) && RoleIs(v.roles, t', Table(p, pdi)) ==> t == t'
  {
    TableRole(v, c, p, pdi, t);
    TableRole(v, c, p, pdi, t');
  }

  /** Table m holds an APIC page and stays, or there is none. */
  lemma ClearedNoTable(v0: Vm, v: Vm, c: Config, p: int, n: int, m: int)
    requires Cleared(v0, v, c, p, n, m)
    requires TableHoldsSpecial(c, m) || forall t :: !RoleIs(v.roles, t, Table(p, m))
    ensures Cleared(v0, v, c, p, n, m + 1)
  {
    hide Inv, Lookup, Special, TableHoldsSpecial, OthersKept;
    forall f | f in v0.roles ensures v.roles[f] == ClearedRole(c, v0.roles[f], p, n, m + 1) {
      assert v.roles[f] == ClearedRole(c, v0.roles[f], p, n, m);
      assert TableHoldsSpecial(c, m) || !RoleIs(v.roles, f, Table(p, m));
    }
    assert v.roles == ClearedRoles(c, v0.roles, p, n, m + 1);
  }

  /** A table whose pages are all cleared, and that holds no APIC page, is blank. */
  lemma BlankWhenCleared(v0: Vm, v: Vm, c: Config, p: int, pdi: int, m: int, t: int)
    requires Cleared(v0, v, c, p, (pdi + 1) * ENTRIES, m) && HasTable(v.mem, v.roles, p, pdi, t)
    requires !TableHoldsSpecial(c, pdi)
    ensures Blank(v.mem[t])
  {
    hide FreeListOk, KernelOk, Lookup, OthersKept;
    assert FrameOk(v.mem, v.roles, c, t);
    forall i | 0 <= i < ENTRIES ensures v.mem[t][i] == 0 {
      VpnLaws(pdi, i);
      var w := pdi * ENTRIES + i;
      assert TableWordOk(v.mem, v.roles, c, t, p, w);
      NoPageBelow(v0, v, c, p, (pdi + 1) * ENTRIES, m, w, FrameOf(v.mem[t][Pti(w)]));
    }
  }

  lemma NoPageBelow(v0: Vm, v: Vm, c: Config, p: int, n: int, m: int, w: int, f: int)
    requires Cleared(v0, v, c, p, n, m) && w < n
    ensures !RoleIs(v.roles, f, Data(p, w))
  {
    hide Inv, Lookup, OthersKept, Special;
  }

  /** After delete_private exactly the APIC pages are left, with the tables that hold them. */
  lemma OnlySpecialsLeft(v0: Vm, v: Vm, c: Config, p: int, w: int)
    requires Inv(v0, c) && Cleared(v0, v, c, p, TOP, ENTRIES) && HALF <= w < TOP
    ensures Lookup(v.mem, p, w) == if Special(c, w) then Lookup(v0.mem, p, w) else None
  {
    hide FreeListOk, KernelOk, OthersKept, Pdi, Pti, FrameOf, Entry, Special;
    ClearedFacts(v0, v, c, p, TOP, ENTRIES);
    if !Special(c, w) && Lookup(v.mem, p, w).Some? {
      var f := Lookup(v.mem, p, w).value;
      PageRole(v, c, p, w, f);
      NoPageBelow(v0, v, c, p, TOP, ENTRIES, w, f);
      assert false;
    }
  }

  lemma AfterClearing(v0: Vm, v: Vm, c: Config, p: int)
    requires Inv(v0, c) && SpecialsMapped(v0, c) && Cleared(v0, v, c, p, TOP, ENTRIES)
    ensures Inv(v, c) && SpecialsMapped(v, c)
    ensures 0 <= p < |v.mem| && forall w | HALF <= w < TOP ::
      Lookup(v.mem, p, w) == if Special(c, w) then Some(w) else None
  {
    hide FreeListOk, KernelOk, OthersKept, Lookup;
    ClearedFacts(v0, v, c, p, TOP, ENTRIES);
    assert HasSpecials(v0, c, p);
    forall w | HALF <= w < TOP ensures Lookup(v.mem, p, w) == if Special(c, w) then Some(w) else None {
      OnlySpecialsLeft(v0, v, c, p, w);
    }
    SpecialsStay(v0, v, c, p);
  }

  lemma TableInUse(v: Vm, p: int, pdi: int, t: int)
    requires HasTable(v.mem, v.roles, p, pdi, t)
    ensures RoleIs(v.roles, t, Table(p, pdi)) && RoleIs(v.roles, p, Dir)
  {
  }

  lemma TableSpan(c: Config, pdi: int)
    ensures TableHoldsSpecial(c, pdi) <==>
      pdi * ENTRIES <= c.ioApic < (pdi + 1) * ENTRIES || pdi * ENTRIES <= c.localApic < (pdi + 1) * ENTRIES
  {
  }

  lemma NoTableNoPages(v: Vm, c: Config, p: int, pdi: int)
    requires Inv(v, c) && RoleIs(v.roles, p, Dir) && HALF / ENTRIES <= pdi < ENTRIES && 0 <= p < |v.mem|
    requires v.mem[p][pdi] == 0
    ensures forall t :: !RoleIs(v.roles, t, Table(p, pdi))
    ensures forall w | pdi * ENTRIES <= w < (pdi + 1) * ENTRIES :: Lookup(v.mem, p, w) == None
  {
    hide FreeListOk, KernelOk, Structured;
    forall t ensures !RoleIs(v.roles, t, Table(p, pdi)) {
      TableRole(v, c, p, pdi, t);
    }
    VpnsOf(pdi);
    ZeroIsAbsent();
  }

  // ---- delete_pd ----

  /** The role left to a frame of p once the pages below n and the tables below m are freed, and the
      rest of what p had is only waiting for it. */
  function TornRole(r: Role, f: int, p: int, n: int, m: int): Role {
    match r
    case Data(q, w) => if q != p then r else if w < n then Free else Loose
    case Table(q, i) => if q != p then r else if i < m then Free else Loose
    case Dir => if f == p then Loose else r
    case _ => r
  }

  function TornRoles(roles: Roles, p: int, n: int, m: int): Roles {
    map f | f in roles :: TornRole(roles[f], f, p, n, m)
  }

  predicate StillThere(v0: Vm, v: Vm, f: int) {
    RoleIs(v.roles, f, Loose) && f in v0.roles && v0.roles[f] != Loose ==>
      0 <= f < |v0.mem| == |v.mem| && v.mem[f] == v0.mem[f]
  }

  /** p's frames, given back so far; those that are not are as p left them. */
  ghost predicate Torn(v0: Vm, v: Vm, c: Config, p: int, n: int, m: int) {
    && Inv(v0, c) && Inv(v, c) && OthersKept(v0, v, p) && RoleIs(v0.roles, p, Dir) && 0 <= p < |v.mem| == |v0.mem|
    && v.roles == TornRoles(v0.roles, p, n, m)
    && (forall f {:trigger StillThere(v0, v, f)} :: StillThere(v0, v, f))
  }

  lemma TornBegins(v: Vm, c: Config, p: int)
    requires Inv(v, c) && RoleIs(v.roles, p, Dir)
    ensures Torn(v, Apply(v, c, CloseDirectory(p)), c, p, HALF, HALF / ENTRIES)
  {
    hide FreeListOk, KernelOk, Structured;
    CloseDirectoryKeeps(v, c, p);
    var v' := Apply(v, c, CloseDirectory(p));
    forall f | f in v.roles ensures v'.roles[f] == TornRole(v.roles[f], f, p, HALF, HALF / ENTRIES) {
      RolesInPrivateHalf(v, c, f);
    }
    assert v'.roles == TornRoles(v.roles, p, HALF, HALF / ENTRIES);
    forall f ensures KeptAt(v, v', p, f) && StillThere(v, v', f) {
      if f in v.roles {
        InRange(v, c, f);
      }
    }
    InRange(v, c, p);
  }

  lemma RolesInPrivateHalf(v: Vm, c: Config, f: int)
    requires Inv(v, c) && f in v.roles
    ensures v.roles[f].Data? ==> HALF <= v.roles[f].vpn < TOP && !Special(c, v.roles[f].vpn)
    ensures v.roles[f].Table? ==> HALF / ENTRIES <= v.roles[f].pdi < ENTRIES
  {
    assert FrameOk(v.mem, v.roles, c, f);
  }

  /** The entries that the loops of delete_pd read are still those of the process. */
  lemma TornReads(v0: Vm, v: Vm, c: Config, p: int, n: int, pdi: int)
    requires Torn(v0, v, c, p, n, pdi) && HALF / ENTRIES <= pdi < ENTRIES
    ensures v.mem[p] == v0.mem[p]
    ensures Present(v.mem[p][pdi]) ==>
      var t := FrameOf(v.mem[p][pdi]);
      HasTable(v0.mem, v0.roles, p, pdi, t) && 0 <= t < |v.mem| && v.mem[t] == v0.mem[t] && RoleIs(v.roles, t, Loose)
    ensures !Present(v.mem[p][pdi]) ==> v0.mem[p][pdi] == 0
  {
    hide FreeListOk, KernelOk;
    assert StillThere(v0, v, p);
    TableOf(v0.mem, v0.roles, c, p, pdi);
    if Present(v0.mem[p][pdi]) {
      assert StillThere(v0, v, FrameOf(v0.mem[p][pdi]));
    }
  }

  /** One frame of p goes back. */
  lemma TornFrame(v0: Vm, v: Vm, c: Config, p: int, n: int, m: int, n': int, m': int, g: int)
    requires Torn(v0, v, c, p, n, m) && RoleIs(v.roles, g, Loose) && g in v0.roles
    requires TornRoles(v0.roles, p, n', m') == TornRoles(v0.roles, p, n, m)[g := Free]
    ensures var v' := Apply(v, c, Dealloc(g)); Torn(v0, v', c, p, n', m') && v'.fl == [g] + v.fl
  {
    hide FreeListOk, KernelOk, Structured;
    DeallocKeeps(v, c, g);
    var v' := Apply(v, c, Dealloc(g));
    InRange(v, c, g);
    forall f ensures KeptAt(v0, v', p, f) && StillThere(v0, v', f) {
      assert KeptAt(v0, v, p, f) && StillThere(v0, v, f);
    }
  }

  lemma TornPage(v0: Vm, c: Config, p: int, n: int, m: int, g: int)
    requires Inv(v0, c) && RoleIs(v0.roles, p, Dir) && HALF <= n < TOP
    requires RoleIs(v0.roles, g, Data(p, n))
    ensures TornRoles(v0.roles, p, n + 1, m) == TornRoles(v0.roles, p, n, m)[g := Free]
  {
    hide FreeListOk, KernelOk, Structured;
    RolesInPrivateHalf(v0, c, g);
    forall f | f in v0.roles
      ensures TornRole(v0.roles[f], f, p, n + 1, m) == if f == g then Free else TornRole(v0.roles[f], f, p, n, m)
    {
      PageRole(v0, c, p, n, f);
      PageRole(v0, c, p, n, g);
    }
  }

  lemma TornTable(v0: Vm, c: Config, p: int, n: int, m: int, t: int)
    requires Inv(v0, c) && RoleIs(v0.roles, p, Dir) && RoleIs(v0.roles, t, Table(p, m))
    ensures TornRoles(v0.roles, p, n, m + 1) == TornRoles(v0.roles, p, n, m)[t := Free]
  {
    hide FreeListOk, KernelOk, Structured;
    forall f | f in v0.roles
      ensures TornRole(v0.roles[f], f, p, n, m + 1) == if f == t then Free else TornRole(v0.roles[f], f, p, n, m)
    {
      OneTable(v0, c, p, m, f, t);
    }
  }

  /** Pages n up to n' have no frame. */
  lemma TornNothing(v0: Vm, v: Vm, c: Config, p: int, n: int, n': int, m: int)
    requires Torn(v0, v, c, p, n, m) && HALF <= n <= n' <= TOP
    requires forall w | n <= w < n' :: Special(c, w) || Lookup(v0.mem, p, w) == None
    ensures Torn(v0, v, c, p, n', m)
  {
    hide FreeListOk, KernelOk, Structured, OthersKept, Lookup, Special;
    forall f | f in v0.roles ensures TornRole(v0.roles[f], f, p, n', m) == TornRole(v0.roles[f], f, p, n, m) {
      RolesInPrivateHalf(v0, c, f);
      if v0.roles[f].Data? && v0.roles[f].dir == p {
        PageRole(v0, c, p, v0.roles[f].vpn, f);
      }
    }
    assert v.roles == TornRoles(v0.roles, p, n', m);
  }

  lemma TornNoTable(v0: Vm, v: Vm, c: Config, p: int, n: int, m: int)
    requires Torn(v0, v, c, p, n, m) && 0 <= m < ENTRIES && v0.mem[p][m] == 0
    ensures Torn(v0, v, c, p, n, m + 1)
  {
    hide FreeListOk, KernelOk, Structured, OthersKept, Lookup, Special;
    ZeroIsAbsent();
    forall f | f in v0.roles ensures TornRole(v0.roles[f], f, p, n, m + 1) == TornRole(v0.roles[f], f, p, n, m) {
      if v0.roles[f] == Table(p, m) {
        TableRole(v0, c, p, m, f);
        assert false;
      }
    }
    assert v.roles == TornRoles(v0.roles, p, n, m + 1);
  }

  /** Exactly the frames of p have come free, and nothing else has changed hands. */
  ghost predicate GivenBack(v0: Vm, v: Vm, p: int) {
    && OthersKept(v0, v, p) && v.roles.Keys == v0.roles.Keys
    && (forall f {:trigger v.roles[f]} | f in v0.roles ::
          v.roles[f] == if OwnedBy(v0.roles, f, p) then Free else v0.roles[f])
  }

  lemma TornDone(v0: Vm, v: Vm, c: Config, p: int)
    requires Torn(v0, v, c, p, TOP, ENTRIES)
    ensures var v' := Apply(v, c, Dealloc(p));
      && RoleIs(v.roles, p, Loose) && Inv(v', c) && GivenBack(v0, v', p) && v'.fl == [p] + v.fl
  {
    hide FreeListOk, KernelOk, Structured;
    DeallocKeeps(v, c, p);
    var v' := Apply(v, c, Dealloc(p));
    forall f ensures KeptAt(v0, v', p, f) {
      assert KeptAt(v0, v, p, f);
    }
    forall f | f in v0.roles ensures v'.roles[f] == if OwnedBy(v0.roles, f, p) then Free else v0.roles[f] {
      RolesInPrivateHalf(v0, c, f);
    }
  }

  lemma TornFacts(v0: Vm, v: Vm, c: Config, p: int, n: int, m: int)
    requires Torn(v0, v, c, p, n, m)
    ensures Inv(v0, c) && Inv(v, c) && RoleIs(v0.roles, p, Dir) && RoleIs(v.roles, p, Loose)
    ensures 0 <= p < |v.mem| == |v0.mem|
  {
  }

  /** The page that the loop finds is p's, and its frame is still waiting. */
  lemma TornPageThere(v0: Vm, v: Vm, c: Config, p: int, n: int, m: int, t: int)
    requires Torn(v0, v, c, p, n, m) && HALF <= n < TOP && !Special(c, n) && 0 <= t < |v0.mem|
    requires HasTable(v0.mem, v0.roles, p, Pdi(n), t) && Present(v0.mem[t][Pti(n)])
    ensures var g := FrameOf(v0.mem[t][Pti(n)]); RoleIs(v0.roles, g, Data(p, n)) && RoleIs(v.roles, g, Loose)
  {
    hide FreeListOk, KernelOk, Structured, OthersKept, Pdi, Pti, FrameOf, Special;
    PageRole(v0, c, p, n, FrameOf(v0.mem[t][Pti(n)]));
  }

  lemma AfterGivingBack(v0: Vm, v: Vm, c: Config, p: int)
    requires Inv(v0, c) && SpecialsMapped(v0, c) && RoleIs(v0.roles, p, Dir)
    requires Inv(v, c) && GivenBack(v0, v, p)
    ensures SpecialsMapped(v, c)
  {
    hide FreeListOk, KernelOk, OthersKept, Lookup, Structured;
    assert v.roles[p] == Free;
    SpecialsStay(v0, v, c, p);
  }

  /** The free list grows by the directory, the tables and the pages of p, each once. */
  lemma GivenBackOnce(v0: Vm, v: Vm, c: Config, p: int, f: int)
    requires Inv(v0, c) && Inv(v, c) && GivenBack(v0, v, p)
    ensures Listed(v.fl, f) <==> Listed(v0.fl, f) || OwnedBy(v0.roles, f, p)
    ensures NoRepeats(v.fl)
    ensures OwnedBy(v0.roles, f, p) ==> !Listed(v0.fl, f)
  {
    hide KernelOk, OthersKept, Structured;
    NotFree(v0, c, f);
    NotFree(v, c, f);
  }
}
