/** What the invariant of the frame model says about whole address spaces. */
module Spaces {
  import opened Common
  import opened PageTables
  import opened Frames

  // ---- who owns a frame ----

  /** The page a frame holds is the page its process translates to it. */
  lemma PageRole(v: Vm, c: Config, p: int, vpn: int, f: int)
    requires Inv(v, c) && RoleIs(v.roles, p, Dir) && HALF <= vpn < TOP && !Special(c, vpn)
    ensures RoleIs(v.roles, f, Data(p, vpn)) <==> Lookup(v.mem, p, vpn) == Some(f)
  {
    hide Pdi, Pti, Entry, FrameOf, Special;
    TableOf(v.mem, v.roles, c, p, Pdi(vpn));
    if RoleIs(v.roles, f, Data(p, vpn)) {
      assert FrameOk(v.mem, v.roles, c, f);
    }
    var t := FrameOf(v.mem[p][Pdi(vpn)]);
    if v.mem[p][Pdi(vpn)] != 0 {
      assert FrameOk(v.mem, v.roles, c, t) && TableWordOk(v.mem, v.roles, c, t, p, vpn);
      PresentIsOdd(v.mem[t][Pti(vpn)]);
    }
  }

  lemma PresentIsOdd(e: int)
    ensures e == 0 ==> !Present(e)
  {
  }

  lemma TableRole(v: Vm, c: Config, p: int, pdi: int, t: int)
    requires Inv(v, c) && RoleIs(v.roles, p, Dir)
    ensures RoleIs(v.roles, t, Table(p, pdi)) <==> HasTable(v.mem, v.roles, p, pdi, t)
  {
    hide Pdi, Pti, Entry, FrameOf, Special;
    if RoleIs(v.roles, t, Table(p, pdi)) {
      assert FrameOk(v.mem, v.roles, c, t);
    }
  }

  /** A page of a process is on no other page's frame, nor on a frame used for anything else. */
  lemma NoSharing(v: Vm, c: Config, p: int, vpn: int, q: int, vpn': int, g: int)
    requires Inv(v, c) && RoleIs(v.roles, p, Dir) && RoleIs(v.roles, q, Dir)
    requires HALF <= vpn < TOP && HALF <= vpn' < TOP && !Special(c, vpn) && !Special(c, vpn')
    requires Lookup(v.mem, p, vpn) == Some(g) && Lookup(v.mem, q, vpn') == Some(g)
    ensures p == q && vpn == vpn' && c.start <= g < v.avail && !Listed(v.fl, g) && g !in c.image
  {
    PageRole(v, c, p, vpn, g);
    PageRole(v, c, q, vpn', g);
    assert Managed(v, c, g);
    NotFree(v, c, g);
    assert g in c.image ==> Pinned(v, c, g);
  }

  lemma NotFree(v: Vm, c: Config, g: int)
    requires FreeListOk(v, c)
    ensures Listed(v.fl, g) <==> RoleIs(v.roles, g, Free)
  {
    if Listed(v.fl, g) {
      var k :| 0 <= k < |v.fl| && v.fl[k] == g;
      assert FreeAt(v, k);
    }
  }

  /** Each managed frame is in exactly one place: once on the free list, among the kernel's tables, in
      the hands of the code that allocated it, or at the one spot of one process that refers to it. */
  lemma OnePlace(v: Vm, c: Config, f: int)
    requires Inv(v, c) && c.start <= f < v.avail
    ensures f in v.roles
    ensures v.roles[f].Free? <==> exists k :: 0 <= k < |v.fl| && v.fl[k] == f
    ensures v.roles[f].Free? ==> forall j, k | 0 <= j < |v.fl| && 0 <= k < |v.fl| && v.fl[j] == f && v.fl[k] == f :: j == k
    ensures f in c.image ==> v.roles[f].Shared?
    ensures forall p, pdi :: v.roles[f] == Table(p, pdi) <==> RoleIs(v.roles, p, Dir) && HasTable(v.mem, v.roles, p, pdi, f)
    ensures forall p, vpn | RoleIs(v.roles, p, Dir) && HALF <= vpn < TOP && !Special(c, vpn) ::
      v.roles[f] == Data(p, vpn) <==> Lookup(v.mem, p, vpn) == Some(f)
  {
    hide Lookup, HasTable, Special, Structured;
    assert Managed(v, c, f);
    assert v.roles[f].Free? <==> Listed(v.fl, f) by {
      NotFree(v, c, f);
    }
    assert f in c.image ==> Pinned(v, c, f);
    forall p, pdi
      ensures v.roles[f] == Table(p, pdi) <==> RoleIs(v.roles, p, Dir) && HasTable(v.mem, v.roles, p, pdi, f)
    {
      if v.roles[f] == Table(p, pdi) {
        TableHasDir(v, c, p, pdi, f);
      }
      if RoleIs(v.roles, p, Dir) {
        TableRole(v, c, p, pdi, f);
      }
    }
    forall p, vpn | RoleIs(v.roles, p, Dir) && HALF <= vpn < TOP && !Special(c, vpn)
      ensures v.roles[f] == Data(p, vpn) <==> Lookup(v.mem, p, vpn) == Some(f)
    {
      PageRole(v, c, p, vpn, f);
    }
  }

  lemma TableHasDir(v: Vm, c: Config, p: int, pdi: int, t: int)
    requires Inv(v, c) && RoleIs(v.roles, t, Table(p, pdi))
    ensures RoleIs(v.roles, p, Dir)
  {
    assert FrameOk(v.mem, v.roles, c, t);
  }

  // ---- the kernel's half ----

  lemma KernelPage(v: Vm, c: Config)
    requires Inv(v, c) && IdentityImage(c)
    ensures c.shared in c.image && 0 <= c.shared < |v.mem| == c.limit && v.mem[c.shared] == c.image[c.shared]
    ensures GoodConfig(c)
  {
    assert Pinned(v, c, c.shared);
  }

  predicate IdentityAt(c: Config, vpn: int)
    requires c.shared in c.image && 0 <= vpn < HALF
  {
    var e := c.image[c.shared][Pdi(vpn)];
    if 0 < vpn < c.limit then
      e == Entry(FrameOf(e)) && FrameOf(e) in c.image && c.image[FrameOf(e)][Pti(vpn)] == Entry(vpn)
    else
      e == 0 || (Pdi(vpn) * ENTRIES < c.limit && e == Entry(FrameOf(e)) && FrameOf(e) in c.image && c.image[FrameOf(e)][Pti(vpn)] == 0)
  }

  /** The kernel's tables map each frame of memory but the first to itself, and nothing else. */
  ghost predicate IdentityImage(c: Config) {
    && c.shared in c.image
    && (forall vpn {:trigger IdentityAt(c, vpn)} | 0 <= vpn < HALF :: IdentityAt(c, vpn))
  }

  /** So under every directory the kernel reaches frame f at address f * 4096. */
  lemma KernelReaches(v: Vm, c: Config, p: int, vpn: int)
    requires Inv(v, c) && IdentityImage(c) && RoleIs(v.roles, p, Dir) && 0 <= vpn < HALF
    ensures Lookup(v.mem, p, vpn) == if 0 < vpn < c.limit then Some(vpn) else None
    ensures UserLookup(v.mem, p, vpn) == Lookup(v.mem, p, vpn)
  {
    hide Structured, FreeListOk, Entry, Present, UserWrites;
    assert IdentityAt(c, vpn);
    var e := c.image[c.shared][Pdi(vpn)];
    EntryRights(FrameOf(e));
    EntryRights(vpn);
    assert 0 <= Pdi(vpn) < HALF / ENTRIES;
    assert v.mem[p][Pdi(vpn)] == e;
    ZeroIsAbsent();
    if e != 0 {
      assert Pinned(v, c, FrameOf(e));
    }
  }

  // ---- what a change to process p leaves alone ----

  /** A frame in use by anyone but p keeps its use and contents, and no process appears but p. */
  predicate KeptAt(v: Vm, v': Vm, p: int, f: int) {
    && (f in v.roles && InUse(v.roles[f]) && !OwnedBy(v.roles, f, p) ==>
          RoleIs(v'.roles, f, v.roles[f]) && 0 <= f < |v.mem| == |v'.mem| && v'.mem[f] == v.mem[f])
    && (RoleIs(v'.roles, f, Dir) && f != p ==> RoleIs(v.roles, f, Dir))
  }

  ghost predicate OthersKept(v: Vm, v': Vm, p: int) {
    |v'.mem| == |v.mem| && forall f {:trigger KeptAt(v, v', p, f)} :: KeptAt(v, v', p, f)
  }

  predicate PageKeptAt(v: Vm, v': Vm, p: int, f: int) {
    f in v.roles && v.roles[f].Data? && v.roles[f].dir == p ==>
      RoleIs(v'.roles, f, v.roles[f]) && 0 <= f < |v.mem| == |v'.mem| && v'.mem[f] == v.mem[f]
  }

  /** p's own pages stay, with their contents. */
  ghost predicate PagesKept(v: Vm, v': Vm, p: int) {
    forall f {:trigger PageKeptAt(v, v', p, f)} :: PageKeptAt(v, v', p, f)
  }

  ghost predicate Kept(v: Vm, v': Vm, p: int) {
    OthersKept(v, v', p) && PagesKept(v, v', p)
  }

  lemma OthersKeptTwice(v: Vm, v': Vm, v'': Vm, p: int)
    requires OthersKept(v, v', p) && OthersKept(v', v'', p)
    ensures OthersKept(v, v'', p)
  {
    forall f ensures KeptAt(v, v'', p, f) {
      assert KeptAt(v, v', p, f) && KeptAt(v', v'', p, f);
    }
  }

  lemma KeptTwice(v: Vm, v': Vm, v'': Vm, p: int)
    requires Kept(v, v', p) && Kept(v', v'', p)
    ensures Kept(v, v'', p)
  {
    OthersKeptTwice(v, v', v'', p);
    forall f ensures PageKeptAt(v, v'', p, f) {
      assert PageKeptAt(v, v', p, f) && PageKeptAt(v', v'', p, f);
    }
  }

  /** Other processes therefore see the same frames. */
  lemma OthersSeeTheSame(v: Vm, v': Vm, c: Config, p: int, q: int, vpn: int)
    requires Inv(v, c) && OthersKept(v, v', p) && RoleIs(v.roles, q, Dir) && q != p && HALF <= vpn < TOP
    ensures RoleIs(v'.roles, q, Dir) && Lookup(v'.mem, q, vpn) == Lookup(v.mem, q, vpn)
  {
    hide FreeListOk, Pti, Entry, Special, Blank;
    assert KeptAt(v, v', p, q);
    var e := v.mem[q][Pdi(vpn)];
    ZeroIsAbsent();
    TableOf(v.mem, v.roles, c, q, Pdi(vpn));
    assert KeptAt(v, v', p, FrameOf(e));
  }

  lemma KeptSelf(v: Vm, c: Config, p: int)
    requires Inv(v, c)
    ensures Kept(v, v, p)
  {
  }

  /** The contents of a frame that the caller holds do not change. */
  predicate SameLoose(v: Vm, v': Vm, g: int) {
    RoleIs(v.roles, g, Loose) ==> 0 <= g < |v.mem| == |v'.mem| && v'.mem[g] == v.mem[g]
  }

  // ---- what an operation takes ----

  /** Frame f has kept its role; or it was free, or never used, and is now p's. */
  predicate TakenAt(roles: Roles, roles': Roles, p: int, f: int) {
    || (f in roles && RoleIs(roles', f, roles[f]))
    || (f !in roles && f !in roles')
    || ((f in roles ==> roles[f].Free?) && OwnedBy(roles', f, p))
  }

  /** All that has changed hands are frames that nobody had, and that p has now. */
  ghost predicate TakenFor(roles: Roles, roles': Roles, p: int) {
    forall f {:trigger TakenAt(roles, roles', p, f)} {:trigger f in roles'} :: TakenAt(roles, roles', p, f)
  }

  lemma TakenTwice(r: Roles, r': Roles, r'': Roles, p: int)
    requires TakenFor(r, r', p) && TakenFor(r', r'', p)
    ensures TakenFor(r, r'', p)
  {
    forall f ensures TakenAt(r, r'', p, f) {
      assert TakenAt(r, r', p, f) && TakenAt(r', r'', p, f);
    }
  }

  lemma TakesOne(r: Roles, g: int, role: Role, p: int)
    requires (g in r ==> r[g].Free?) && OwnedBy(r[g := role], g, p)
    ensures TakenFor(r, r[g := role], p)
  {
  }

  /** A frame that has just become a directory has no tables. */
  lemma NewDirectoryBare(v: Vm, c: Config, p: int)
    requires Inv(v, c) && !RoleIs(v.roles, p, Dir)
    ensures OnlyApicTables(v.roles[p := Dir], c, p)
  {
    var roles' := v.roles[p := Dir];
    forall f, i ensures !RoleIs(roles', f, Table(p, i)) {
      NothingOwned(v, c, p, f);
    }
  }

  /** What it takes to map page vpn of p to frame g: an APIC's page goes to itself, and any other gets a
      frame that the caller holds. */
  predicate Mappable(v: Vm, c: Config, p: int, vpn: int, g: int) {
    && RoleIs(v.roles, p, Dir) && HALF <= vpn < TOP && 0 <= p < |v.mem|
    && if Special(c, vpn) then g == vpn else RoleIs(v.roles, g, Loose)
  }

  /** `map` adds a table if there is none.  The frame of a page that was mapped already is nobody's then. */
  function MappedRoles(v: Vm, c: Config, p: int, vpn: int, g: int): Roles
    requires 0 <= p < |v.mem| && HALF <= vpn < TOP
  {
    var roles := if Present(v.mem[p][Pdi(vpn)]) then v.roles else v.roles[NextFrame(v) := Table(p, Pdi(vpn))];
    EnteredRoles(roles, c, p, vpn, g, Lookup(v.mem, p, vpn))
  }

  function EnteredRoles(roles: Roles, c: Config, p: int, vpn: int, g: int, before: Option<int>): Roles {
    if Special(c, vpn) then roles
    else (if before.Some? then roles[before.value := Loose] else roles)[g := Data(p, vpn)]
  }

  function Entered(v: Vm, c: Config, p: int, vpn: int, g: int, t: int): Vm
    requires 0 <= p < |v.mem| && 0 <= t < |v.mem| && HALF <= vpn < TOP
  {
    Rewritten(v, Poke(v.mem, t, Pti(vpn), Entry(g)), EnteredRoles(v.roles, c, p, vpn, g, Lookup(v.mem, p, vpn)))
  }

  /** The table for page vpn of p is there, and the page's entry can be written. */
  predicate Tabled(v: Vm, c: Config, p: int, vpn: int, g: int, t: int) {
    0 <= t < |v.mem| && HasTable(v.mem, v.roles, p, Pdi(vpn), t) && Mappable(v, c, p, vpn, g)
  }

  /** `map`'s first half has its table. */
  lemma TableThere(v: Vm, c: Config, p: int, vpn: int, g: int)
    requires Inv(v, c) && Mappable(v, c, p, vpn, g)
    ensures Present(v.mem[p][Pdi(vpn)]) ==> Tabled(v, c, p, vpn, g, FrameOf(v.mem[p][Pdi(vpn)]))
    ensures !Present(v.mem[p][Pdi(vpn)]) ==> v.mem[p][Pdi(vpn)] == 0
  {
    TableOf(v.mem, v.roles, c, p, Pdi(vpn));
  }

  lemma TableMade(v: Vm, c: Config, p: int, pdi: int)
    requires Inv(v, c) && RoleIs(v.roles, p, Dir) && HALF / ENTRIES <= pdi < ENTRIES && 0 <= p < |v.mem|
    requires v.mem[p][pdi] == 0 && Enabled(v, c, Alloc)
    ensures var t := NextFrame(v);
      var v' := Apply(v, c, Alloc);
      var v'' := Apply(v', c, LinkTable(p, pdi, t));
      && Inv(v', c) && 0 <= t < |v'.mem| && RoleIs(v'.roles, p, Dir) && v'.mem[p] == v.mem[p]
      && v''.mem == Poke(v'.mem, p, pdi, Entry(t)) && v''.roles == v'.roles[t := Table(p, pdi)]
      && Inv(v'', c) && HasTable(v''.mem, v''.roles, p, pdi, t) && Kept(v, v'', p)
      && v''.roles == v.roles[t := Table(p, pdi)] && (t in v.roles ==> v.roles[t].Free?)
      && (forall w | HALF <= w < TOP :: Lookup(v''.mem, p, w) == Lookup(v.mem, p, w))
      && (forall g | RoleIs(v.roles, g, Loose) :: RoleIs(v''.roles, g, Loose) && SameLoose(v, v'', g))
  {
    hide FreeListOk, KernelOk, Structured, Pdi, Pti, Entry, FrameOf, Lookup, Special, Blank;
    var t := NextFrame(v);
    AllocKeeps(v, c);
    var v' := Apply(v, c, Alloc);
    StructureStays(v.mem, v.roles, v'.mem, v'.roles, c);
    assert SameAt(v.mem, v.roles, v'.mem, v'.roles, p);
    LinkTableKeeps(v', c, p, pdi, t);
    var v'' := Apply(v', c, LinkTable(p, pdi, t));
    forall w | HALF <= w < TOP ensures Lookup(v''.mem, p, w) == Lookup(v.mem, p, w) {
    }
    forall f ensures KeptAt(v, v'', p, f) && PageKeptAt(v, v'', p, f) && SameLoose(v, v'', f) {
      if f in v.roles {
        InRange(v, c, f);
      }
    }
  }

  /** `map`'s second half: the page is mapped, and every other stays as it was. */
  lemma PageMapped(v: Vm, c: Config, p: int, vpn: int, g: int, t: int)
    requires Inv(v, c) && Tabled(v, c, p, vpn, g, t)
    ensures var v' := Entered(v, c, p, vpn, g, t);
      && Inv(v', c) && OthersKept(v, v', p) && RoleIs(v'.roles, p, Dir) && Lookup(v'.mem, p, vpn) == Some(g)
      && (Special(c, vpn) || Lookup(v.mem, p, vpn) == None ==> PagesKept(v, v', p))
      && (forall w | HALF <= w < TOP && w != vpn :: Lookup(v'.mem, p, w) == Lookup(v.mem, p, w))
      && SameLoose(v, v', g)
  {
    hide FreeListOk, KernelOk, Structured, Pdi, Pti, Entry, FrameOf, Special, Lookup;
    var v' := Entered(v, c, p, vpn, g, t);
    if Special(c, vpn) {
      LinkSpecialKeeps(v, c, p, vpn, t);
      assert v' == Apply(v, c, LinkSpecial(p, vpn, t));
    } else {
      WordOfUnmapped(v, c, p, vpn, t);
      if Lookup(v.mem, p, vpn) == None {
        LinkPageKeeps(v, c, p, vpn, t, g);
        assert v' == Apply(v, c, LinkPage(p, vpn, t, g));
      } else {
        PageReplaced(v, c, p, vpn, g, t);
      }
    }
    forall f ensures KeptAt(v, v', p, f) && SameLoose(v, v', f) {
      if f in v.roles {
        InRange(v, c, f);
      }
    }
    if Special(c, vpn) || Lookup(v.mem, p, vpn) == None {
      forall f ensures PageKeptAt(v, v', p, f) {
        if f in v.roles {
          InRange(v, c, f);
        }
      }
    }
  }

  /** Mapping a page that is mapped is unmapping it and mapping it again, without freeing its frame. */
  lemma PageReplaced(v: Vm, c: Config, p: int, vpn: int, g: int, t: int)
    requires Inv(v, c) && Tabled(v, c, p, vpn, g, t) && !Special(c, vpn) && Lookup(v.mem, p, vpn).Some?
    ensures var v' := Entered(v, c, p, vpn, g, t);
      && Inv(v', c) && RoleIs(v'.roles, p, Dir) && Lookup(v'.mem, p, vpn) == Some(g)
      && RoleIs(v.roles, Lookup(v.mem, p, vpn).value, Data(p, vpn))
      && (forall w | HALF <= w < TOP && w != vpn :: Lookup(v'.mem, p, w) == Lookup(v.mem, p, w))
  {
    hide FreeListOk, KernelOk, Structured, Pdi, Pti, Entry, FrameOf, Special, Lookup;
    WordOfUnmapped(v, c, p, vpn, t);
    UnlinkPageKeeps(v, c, p, vpn, t);
    var v1 := Apply(v, c, UnlinkPage(p, vpn, t));
    WordOfUnmapped(v1, c, p, vpn, t);
    LinkPageKeeps(v1, c, p, vpn, t, g);
    var v' := Apply(v1, c, LinkPage(p, vpn, t, g));
    PokeTwice(v.mem, t, Pti(vpn), 0, Entry(g));
  }

  lemma PokeTwice(mem: Memory, f: int, w: int, a: int, b: int)
    requires 0 <= f < |mem| && 0 <= w < ENTRIES
    ensures Poke(Poke(mem, f, w, a), f, w, b) == Poke(mem, f, w, b)
  {
    assert mem[f][w := a][w := b] == mem[f][w := b];
  }

  lemma WordOfUnmapped(v: Vm, c: Config, p: int, vpn: int, t: int)
    requires Inv(v, c) && HasTable(v.mem, v.roles, p, Pdi(vpn), t) && HALF <= vpn < TOP
    ensures v.mem[t][Pti(vpn)] == 0 <==> Lookup(v.mem, p, vpn) == None
    ensures Present(v.mem[t][Pti(vpn)]) <==> Lookup(v.mem, p, vpn).Some?
  {
    hide Pdi, Pti, FrameOf, Special;
    assert FrameOk(v.mem, v.roles, c, t) && TableWordOk(v.mem, v.roles, c, t, p, vpn);
    ZeroIsAbsent();
  }

  /** Mapping an APIC's page takes at most a table. */
  lemma SpecialMapTakes(v: Vm, c: Config, p: int, vpn: int)
    requires Inv(v, c) && Mappable(v, c, p, vpn, vpn) && Special(c, vpn)
    requires Present(v.mem[p][Pdi(vpn)]) || Enabled(v, c, Alloc)
    ensures TakenFor(v.roles, MappedRoles(v, c, p, vpn, vpn), p)
    ensures forall f, i | RoleIs(MappedRoles(v, c, p, vpn, vpn), f, Table(p, i)) :: RoleIs(v.roles, f, Table(p, i)) || i == Pdi(vpn)
  {
    hide FreeListOk, KernelOk, Structured, Pdi, Lookup, Special;
    if !Present(v.mem[p][Pdi(vpn)]) {
      AllocKeeps(v, c);
      TakesOne(v.roles, NextFrame(v), Table(p, Pdi(vpn)), p);
    }
  }

  /** A page fault takes a frame for the page, and another if it needs a table. */
  lemma FaultTakes(v: Vm, c: Config, p: int, vpn: int)
    requires Inv(v, c) && RoleIs(v.roles, p, Dir) && HALF <= vpn < TOP && !Special(c, vpn) && Enabled(v, c, Alloc)
    requires 0 <= p < |v.mem| && Lookup(v.mem, p, vpn) == None
    ensures var v', g := Apply(v, c, Alloc), NextFrame(v);
      && Inv(v', c) && 0 <= p < |v'.mem| && Lookup(v'.mem, p, vpn) == None
      && (Present(v'.mem[p][Pdi(vpn)]) || Enabled(v', c, Alloc) ==> TakenFor(v.roles, MappedRoles(v', c, p, vpn, g), p))
  {
    hide FreeListOk, KernelOk, Structured, Pdi, Lookup, Special;
    AllocKeeps(v, c);
    AllocKept(v, c, p);
    var v', g := Apply(v, c, Alloc), NextFrame(v);
    if Present(v'.mem[p][Pdi(vpn)]) || Enabled(v', c, Alloc) {
      var r := v.roles;
      if !Present(v'.mem[p][Pdi(vpn)]) {
        AllocKeeps(v', c);
        var t := NextFrame(v');
        r := v.roles[t := Table(p, Pdi(vpn))];
        TakesOne(v.roles, t, Table(p, Pdi(vpn)), p);
      }
      TakesOne(r, g, Data(p, vpn), p);
      TakenTwice(v.roles, r, r[g := Data(p, vpn)], p);
      assert MappedRoles(v', c, p, vpn, g) == r[g := Data(p, vpn)];
    }
  }

  // ---- the APICs ----

  predicate TableHoldsSpecial(c: Config, pdi: int) {
    Pdi(c.ioApic) == pdi || Pdi(c.localApic) == pdi
  }

  /** A new directory has no tables but those for the APICs. */
  ghost predicate OnlyApicTables(roles: Roles, c: Config, p: int) {
    forall f, i {:trigger RoleIs(roles, f, Table(p, i))} | RoleIs(roles, f, Table(p, i)) :: TableHoldsSpecial(c, i)
  }

  predicate HasSpecials(v: Vm, c: Config, p: int)
    requires 0 <= p < |v.mem| && HALF <= c.ioApic < TOP && HALF <= c.localApic < TOP
  {
    Lookup(v.mem, p, c.ioApic) == Some(c.ioApic) && Lookup(v.mem, p, c.localApic) == Some(c.localApic)
  }

  ghost predicate SpecialsMapped(v: Vm, c: Config) {
    && GoodConfig(c) && InMemory(v.mem, v.roles)
    && (forall p {:trigger HasSpecials(v, c, p)} | RoleIs(v.roles, p, Dir) :: HasSpecials(v, c, p))
  }

  lemma SpecialsStay(v: Vm, v': Vm, c: Config, p: int)
    requires Inv(v, c) && Inv(v', c) && SpecialsMapped(v, c) && OthersKept(v, v', p)
    requires RoleIs(v'.roles, p, Dir) && 0 <= p < |v'.mem| ==> HasSpecials(v', c, p)
    ensures SpecialsMapped(v', c)
  {
    hide FreeListOk, KernelOk, Lookup;
    forall q | RoleIs(v'.roles, q, Dir) ensures 0 <= q < |v'.mem| && HasSpecials(v', c, q) {
      assert KeptAt(v, v', p, q);
      if q != p {
        assert HasSpecials(v, c, q);
        OthersSeeTheSame(v, v', c, p, q, c.ioApic);
        OthersSeeTheSame(v, v', c, p, q, c.localApic);
      }
    }
  }

  // ---- page faults ----

  lemma AllocKept(v: Vm, c: Config, p: int)
    requires Inv(v, c) && Enabled(v, c, Alloc)
    ensures var v' := Apply(v, c, Alloc);
      && Inv(v', c) && Kept(v, v', p)
      && (RoleIs(v.roles, p, Dir) ==> RoleIs(v'.roles, p, Dir))
      && (RoleIs(v.roles, p, Dir) ==>
            forall w | HALF <= w < TOP :: Lookup(v'.mem, p, w) == Lookup(v.mem, p, w))
  {
    hide FreeListOk, KernelOk, Structured, Lookup;
    AllocKeeps(v, c);
    var v' := Apply(v, c, Alloc);
    StructureStays(v.mem, v.roles, v'.mem, v'.roles, c);
    forall f ensures KeptAt(v, v', p, f) && PageKeptAt(v, v', p, f) {
      if f in v.roles {
        InRange(v, c, f);
      }
    }
  }

  lemma AllocSpecials(v: Vm, c: Config)
    requires Inv(v, c) && Enabled(v, c, Alloc) && SpecialsMapped(v, c)
    ensures SpecialsMapped(Apply(v, c, Alloc), c)
  {
    hide FreeListOk, KernelOk, Structured, Lookup;
    AllocKeeps(v, c);
    var v' := Apply(v, c, Alloc);
    forall q | RoleIs(v'.roles, q, Dir) ensures 0 <= q < |v'.mem| && HasSpecials(v', c, q) {
      AllocKept(v, c, q);
      InRange(v', c, q);
      assert HasSpecials(v, c, q);
    }
  }

  // ---- a new directory ----

  /** The entries that `make_pd` copies: one per started 4 MB of memory. */
  function SharedEntries(c: Config): int {
    (c.limit + ENTRIES - 1) / ENTRIES
  }

  function WithKernelHalf(c: Config, page: Page): (r: Page)
    requires c.shared in c.image && 0 <= c.limit <= HALF
  {
    c.image[c.shared][..SharedEntries(c)] + page[SharedEntries(c)..]
  }

  lemma KernelHalfCopied(c: Config)
    requires GoodConfig(c) && IdentityImage(c)
    ensures SameLow(WithKernelHalf(c, Zeroes()), c.image[c.shared])
    ensures HighBlank(WithKernelHalf(c, Zeroes()))
  {
    forall i | 0 <= i < HALF / ENTRIES
      ensures WithKernelHalf(c, Zeroes())[i] == c.image[c.shared][i]
    {
      if i >= SharedEntries(c) {
        assert IdentityAt(c, i * ENTRIES);
        VpnLaws(i, 0);
      }
    }
  }

  /** A directory just opened shows the kernel, and no private page. */
  lemma DirectoryOpened(v: Vm, c: Config)
    requires Inv(v, c) && IdentityImage(c) && GoodConfig(c) && c.shared in c.image && Enabled(v, c, Alloc)
    ensures 0 <= NextFrame(v) < |Apply(v, c, Alloc).mem|
    ensures var p, v1 := NextFrame(v), Apply(v, c, Alloc);
      var page := WithKernelHalf(c, Zeroes());
      var v' := Vm(v1.mem[p := page], v1.firstFree, v1.avail, v1.roles[p := Dir], v1.fl);
      && Inv(v1, c) && v1.mem[p] == Zeroes()
      && Inv(v', c) && Kept(v, v', p) && RoleIs(v'.roles, p, Dir) && (p in v.roles ==> v.roles[p].Free?)
      && forall w | HALF <= w < TOP :: Lookup(v'.mem, p, w) == None
  {
    hide FreeListOk, KernelOk, Structured, Lookup, IdentityImage, SameLow, HighBlank;
    AllocKeeps(v, c);
    var p, v1 := NextFrame(v), Apply(v, c, Alloc);
    var page := WithKernelHalf(c, Zeroes());
    KernelHalfCopied(c);
    StoreKeeps(v1, c, p, page);
    var v2 := Apply(v1, c, Store(p, page));
    OpenDirectoryKeeps(v2, c, p);
    var v' := Apply(v2, c, OpenDirectory(p));
    forall f ensures KeptAt(v, v', p, f) && PageKeptAt(v, v', p, f) {
      if f in v.roles {
        InRange(v, c, f);
      }
    }
  }

  // ---- fork ----

  /** Page w of the child after fork has dealt with the pages below n: its own frame with the contents
      of the parent's, if the parent has that page. */
  ghost predicate CopiedAt(v: Vm, v': Vm, c: Config, p: int, child: int, w: int, n: int)
    requires 0 <= p < |v.mem| && 0 <= child < |v'.mem| && HALF <= w < TOP
  {
    var theirs, mine := Lookup(v.mem, p, w), Lookup(v'.mem, child, w);
    if Special(c, w) then mine == Some(w)
    else if w >= n || theirs == None then mine == None
    else
      && mine.Some? && 0 <= mine.value < |v'.mem| && 0 <= theirs.value < |v.mem|
      && v'.mem[mine.value] == v.mem[theirs.value]
  }

  ghost predicate Copied(v: Vm, v': Vm, c: Config, p: int, child: int, n: int) {
    && Kept(v, v', child) && RoleIs(v'.roles, child, Dir) && 0 <= child < |v'.mem| && 0 <= p < |v.mem|
    && (forall w {:trigger CopiedAt(v, v', c, p, child, w, n)} | HALF <= w < TOP ::
          CopiedAt(v, v', c, p, child, w, n))
  }

  /** A table of the child is one for the APICs, or one that the parent has too. */
  predicate TableLike(v: Vm, c: Config, p: int, i: int) {
    TableHoldsSpecial(c, i) || (0 <= p < |v.mem| && 0 <= i < ENTRIES && Present(v.mem[p][i]))
  }

  /** What the child has taken so far. */
  ghost predicate CopyTook(v: Vm, v': Vm, c: Config, p: int, child: int) {
    && TakenFor(v.roles, v'.roles, child)
    && (forall f, i {:trigger RoleIs(v'.roles, f, Table(child, i))} | RoleIs(v'.roles, f, Table(child, i)) ::
          TableLike(v, c, p, i))
  }

  lemma CopyTookNothing(v: Vm, c: Config, p: int, child: int)
    requires OnlyApicTables(v.roles, c, child)
    ensures CopyTook(v, v, c, p, child)
  {
  }

  lemma CopyTakes(v0: Vm, v: Vm, v': Vm, c: Config, p: int, child: int, f: int, role: Role)
    requires CopyTook(v0, v, c, p, child) && v'.roles == v.roles[f := role] && (f in v.roles ==> v.roles[f].Free?)
    requires match role
             case Data(q, _) => q == child
             case Table(q, i) => q == child && TableLike(v0, c, p, i)
             case _ => false
    ensures CopyTook(v0, v', c, p, child)
  {
    hide TableLike;
    TakesOne(v.roles, f, role, child);
    TakenTwice(v0.roles, v.roles, v'.roles, child);
    forall h, i | RoleIs(v'.roles, h, Table(child, i)) ensures TableLike(v0, c, p, i) {
      assert h != f ==> RoleIs(v.roles, h, Table(child, i));
    }
  }

  /** The part of fork that makes one page of the child: take a frame, fill it from the parent's, and
      enter it in the table. */
  lemma PageCopied(v: Vm, c: Config, p: int, vpn: int, t: int, page: Page)
    requires Inv(v, c) && Enabled(v, c, Alloc) && RoleIs(v.roles, p, Dir) && HALF <= vpn < TOP
    requires HasTable(v.mem, v.roles, p, Pdi(vpn), t) && !Special(c, vpn) && Lookup(v.mem, p, vpn) == None
    ensures var g, v1 := NextFrame(v), Apply(v, c, Alloc);
      && 0 <= g < |v.mem| && Inv(v1, c) && v1.mem == v.mem[g := Zeroes()] && 0 <= t < |v1.mem| && t != g
      && (g in v.roles ==> v.roles[g].Free?)
      && var v' := Vm(Poke(v1.mem[g := page], t, Pti(vpn), Entry(g)), v1.firstFree, v1.avail,
                      v1.roles[g := Data(p, vpn)], v1.fl);
      && Inv(v', c) && Kept(v, v', p) && RoleIs(v'.roles, p, Dir)
      && HasTable(v'.mem, v'.roles, p, Pdi(vpn), t)
      && Lookup(v'.mem, p, vpn) == Some(g) && v'.mem[g] == page
      && (forall w | HALF <= w < TOP && w != vpn :: Lookup(v'.mem, p, w) == Lookup(v.mem, p, w))
  {
    hide FreeListOk, KernelOk, Structured, Pdi, Pti, Entry, FrameOf, Lookup, Special, Blank;
    AllocKeeps(v, c);
    AllocKept(v, c, p);
    var g, v1 := NextFrame(v), Apply(v, c, Alloc);
    StoreKeeps(v1, c, g, page);
    var v2 := Apply(v1, c, Store(g, page));
    StructureStays(v1.mem, v1.roles, v2.mem, v2.roles, c);
    assert SameAt(v.mem, v.roles, v1.mem, v1.roles, t) && SameAt(v.mem, v.roles, v1.mem, v1.roles, p);
    forall f ensures KeptAt(v, v2, p, f) && PageKeptAt(v, v2, p, f) {
      if f in v.roles {
        InRange(v, c, f);
      }
    }
    PageMapped(v2, c, p, vpn, g, t);
    assert Lookup(v2.mem, p, vpn) == None;
    KeptTwice(v, v2, Entered(v2, c, p, vpn, g, t), p);
  }

  /** The parent's tables and pages stand as they did when the copying began. */
  lemma ParentStands(v: Vm, v': Vm, c: Config, p: int, child: int, vpn: int)
    requires Inv(v, c) && Kept(v, v', child) && RoleIs(v.roles, p, Dir) && p != child && HALF <= vpn < TOP
    ensures 0 <= p < |v.mem| == |v'.mem| && v'.mem[p] == v.mem[p]
    ensures var e := v.mem[p][Pdi(vpn)];
      && (!Present(e) ==> forall w | HALF <= w < TOP && Pdi(w) == Pdi(vpn) :: Lookup(v.mem, p, w) == None)
      && (Present(e) ==>
            var t := FrameOf(e);
            && 0 <= t < |v.mem| && v'.mem[t] == v.mem[t]
            && (!Present(v.mem[t][Pti(vpn)]) ==> Lookup(v.mem, p, vpn) == None)
            && (Present(v.mem[t][Pti(vpn)]) ==> Lookup(v.mem, p, vpn) == Some(FrameOf(v.mem[t][Pti(vpn)]))))
    ensures !Special(c, vpn) && Lookup(v.mem, p, vpn).Some? ==>
      var g := Lookup(v.mem, p, vpn).value;
      0 <= g < |v.mem| && v'.mem[g] == v.mem[g] && RoleIs(v'.roles, g, Data(p, vpn))
  {
    hide FreeListOk, KernelOk, Pdi, Pti, Entry, FrameOf, Special;
    TableOf(v.mem, v.roles, c, p, Pdi(vpn));
    assert KeptAt(v, v', child, p);
    var e := v.mem[p][Pdi(vpn)];
    if e != 0 {
      assert KeptAt(v, v', child, FrameOf(e));
    }
    if !Special(c, vpn) && Lookup(v.mem, p, vpn).Some? {
      var g := Lookup(v.mem, p, vpn).value;
      PageRole(v, c, p, vpn, g);
      assert KeptAt(v, v', child, g);
    }
  }

  /** Copying stays done below n when only page n of the child changes. */
  lemma CopiedGrows(v0: Vm, v: Vm, v': Vm, c: Config, p: int, child: int, n: int, n': int)
    requires Inv(v, c) && Copied(v0, v, c, p, child, n) && Kept(v, v', child) && n <= n' <= n + 1
    requires HALF <= n < TOP && RoleIs(v'.roles, child, Dir)
    requires forall w | HALF <= w < TOP && w != n :: Lookup(v'.mem, child, w) == Lookup(v.mem, child, w)
    requires CopiedAt(v0, v', c, p, child, n, n')
    ensures Copied(v0, v', c, p, child, n')
  {
    hide Inv, Lookup, Special;
    KeptTwice(v0, v, v', child);
    forall w | HALF <= w < TOP ensures CopiedAt(v0, v', c, p, child, w, n') {
      assert CopiedAt(v0, v, c, p, child, w, n);
      if w < n && !Special(c, w) && Lookup(v.mem, child, w).Some? {
        var g := Lookup(v.mem, child, w).value;
        PageRole(v, c, child, w, g);
        assert PageKeptAt(v, v', child, g);
      }
    }
  }

  lemma CopiedStays(v0: Vm, v: Vm, v': Vm, c: Config, p: int, child: int, n: int)
    requires Inv(v, c) && Copied(v0, v, c, p, child, n) && Kept(v, v', child)
    requires HALF <= n < TOP && RoleIs(v'.roles, child, Dir)
    requires forall w | HALF <= w < TOP :: Lookup(v'.mem, child, w) == Lookup(v.mem, child, w)
    ensures Copied(v0, v', c, p, child, n)
  {
    hide Inv, Lookup, Special, Kept;
    assert CopiedAt(v0, v, c, p, child, n, n);
    CopiedGrows(v0, v, v', c, p, child, n, n);
  }

  lemma CopiedFacts(v: Vm, v': Vm, c: Config, p: int, child: int, n: int)
    requires Copied(v, v', c, p, child, n)
    ensures Kept(v, v', child) && RoleIs(v'.roles, child, Dir) && 0 <= child < |v'.mem| && 0 <= p < |v.mem|
  {
  }

  lemma CopiedSkips(v0: Vm, v: Vm, c: Config, p: int, child: int, n: int, n': int)
    requires Copied(v0, v, c, p, child, n) && n <= n'
    requires forall w | HALF <= w < TOP && n <= w < n' :: Special(c, w) || Lookup(v0.mem, p, w) == None
    ensures Copied(v0, v, c, p, child, n')
  {
    hide Kept, Lookup, Special;
    forall w | HALF <= w < TOP ensures CopiedAt(v0, v, c, p, child, w, n') {
      assert CopiedAt(v0, v, c, p, child, w, n);
    }
  }

  /** What fork leaves: everyone else as they were, and a process whose private half has the parent's
      pages, with equal contents, and the APICs. */
  ghost predicate Forked(v: Vm, v': Vm, c: Config, p: int, child: int) {
    && CopyTook(v, v', c, p, child)
    && OthersKept(v, v', child) && RoleIs(v'.roles, child, Dir) && !(child in v.roles && InUse(v.roles[child]))
    && 0 <= child < |v'.mem| && 0 <= p < |v.mem|
    && (forall w {:trigger CopiedAt(v, v', c, p, child, w, TOP)} | HALF <= w < TOP ::
          CopiedAt(v, v', c, p, child, w, TOP))
  }

  lemma ForkDone(v: Vm, v0: Vm, v': Vm, c: Config, p: int, child: int)
    requires Inv(v, c) && OthersKept(v, v0, child) && Copied(v0, v', c, p, child, TOP)
    requires TakenFor(v.roles, v0.roles, child) && CopyTook(v0, v', c, p, child)
    requires RoleIs(v.roles, p, Dir) && !(child in v.roles && InUse(v.roles[child]))
    ensures Forked(v, v', c, p, child)
  {
    hide FreeListOk, KernelOk, Lookup, Special, Structured, TableHoldsSpecial;
    OthersKeptTwice(v, v0, v', child);
    TakenTwice(v.roles, v0.roles, v'.roles, child);
    InRange(v, c, p);
    assert KeptAt(v, v0, child, p);
    forall f, i | RoleIs(v'.roles, f, Table(child, i)) ensures TableLike(v, c, p, i) {
      assert TableLike(v0, c, p, i);
    }
    forall w | HALF <= w < TOP ensures CopiedAt(v, v', c, p, child, w, TOP) {
      assert CopiedAt(v0, v', c, p, child, w, TOP);
      OthersSeeTheSame(v, v0, c, child, p, w);
      if !Special(c, w) && Lookup(v.mem, p, w).Some? {
        PageRole(v, c, p, w, Lookup(v.mem, p, w).value);
        assert KeptAt(v, v0, child, Lookup(v.mem, p, w).value);
      }
    }
  }

  /** A frame that is not a directory owns nothing. */
  lemma NothingOwned(v: Vm, c: Config, p: int, f: int)
    requires Inv(v, c) && !RoleIs(v.roles, p, Dir)
    ensures !OwnedBy(v.roles, f, p)
  {
    if f in v.roles {
      assert FrameOk(v.mem, v.roles, c, f);
    }
  }

  /** No page of a child is on a frame that anyone used before the fork. */
  lemma ForkedOnNewFrames(v: Vm, v': Vm, c: Config, p: int, child: int, w: int, g: int)
    requires Inv(v, c) && Inv(v', c) && Forked(v, v', c, p, child)
    requires HALF <= w < TOP && !Special(c, w) && Lookup(v'.mem, child, w) == Some(g)
    ensures g in v.roles ==> !InUse(v.roles[g])
    ensures forall q, u | RoleIs(v'.roles, q, Dir) && HALF <= u < TOP && !Special(c, u) && !(q == child && u == w) ::
      Lookup(v'.mem, q, u) != Some(g)
  {
    hide FreeListOk, KernelOk, Lookup, Special;
    PageRole(v', c, child, w, g);
    assert KeptAt(v, v', child, g);
    NothingOwned(v, c, child, g);
    forall q, u | RoleIs(v'.roles, q, Dir) && HALF <= u < TOP && !Special(c, u) && !(q == child && u == w)
      ensures Lookup(v'.mem, q, u) != Some(g)
    {
      PageRole(v', c, q, u, g);
    }
  }

  lemma SpecialsAfterFork(v: Vm, v': Vm, c: Config, p: int, child: int)
    requires Inv(v, c) && Inv(v', c) && SpecialsMapped(v, c) && Forked(v, v', c, p, child)
    ensures SpecialsMapped(v', c)
  {
    hide FreeListOk, KernelOk, Lookup;
    assert CopiedAt(v, v', c, p, child, c.ioApic, TOP) && CopiedAt(v, v', c, p, child, c.localApic, TOP);
    SpecialsStay(v, v', c, child);
  }

  lemma DirectoriesDiffer(v: Vm, v0: Vm, c: Config, p: int, child: int)
    requires Inv(v, c) && OthersKept(v, v0, child) && RoleIs(v.roles, p, Dir)
    requires !(child in v.roles && InUse(v.roles[child]))
    ensures p != child && RoleIs(v0.roles, p, Dir)
  {
    assert KeptAt(v, v0, child, p);
  }

  lemma UserReachesAll(v: Vm, c: Config, p: int)
    requires Inv(v, c) && RoleIs(v.roles, p, Dir) && 0 <= p < |v.mem|
    ensures forall w | HALF <= w < TOP :: UserLookup(v.mem, p, w) == Lookup(v.mem, p, w)
  {
    hide Inv, Lookup, UserLookup;
    forall w | HALF <= w < TOP ensures UserLookup(v.mem, p, w) == Lookup(v.mem, p, w) {
      UserReachesHere(v, c, p, w);
    }
  }

  lemma UserReachesHere(v: Vm, c: Config, p: int, w: int)
    requires Inv(v, c) && RoleIs(v.roles, p, Dir) && 0 <= p < |v.mem| && HALF <= w < TOP
    ensures UserLookup(v.mem, p, w) == Lookup(v.mem, p, w)
  {
    UserReaches(v.mem, v.roles, c, p, w);
  }

  lemma CopyBegins(v: Vm, c: Config, p: int, child: int)
    requires Inv(v, c) && RoleIs(v.roles, p, Dir) && RoleIs(v.roles, child, Dir)
    requires forall w | HALF <= w < TOP ::
      Lookup(v.mem, child, w) == if Special(c, w) then Some(w) else None
    ensures Copied(v, v, c, p, child, HALF)
  {
    hide FreeListOk, KernelOk, Lookup, Special, Kept;
    KeptSelf(v, c, child);
    InRange(v, c, p);
    InRange(v, c, child);
  }
}
