/** Physical frames and two-level page tables of kernel/physmem.cc and kernel/vmm.cc, as values.
    Memory is a sequence of frames of 1024 words; a ghost map gives each managed frame its one
    role, so that two owners of a frame would have to be equal. */
module PageTables {
  import opened Common

  const ENTRIES := 1024
  const PAGE := 4096
  /** First page number of the private half, 0x80000000 / 4096, and the end of the address space. */
  const HALF := 0x8_0000
  const TOP := 0x10_0000

  type Page = p: seq<int> | |p| == ENTRIES witness seq(ENTRIES, _ => 0)
  type Memory = seq<Page>

  /** What a frame in [start, avail) is used for.  A process is named by the frame of its page
      directory; `Loose` frames are allocated but not yet, or no longer, linked. */
  datatype Role = Free | Loose | Shared | Dir | Table(dir: int, pdi: int) | Data(dir: int, vpn: int)
  type Roles = map<int, Role>

  /** `start` and `limit` of the managed frames (limit is also the end of memory), the APIC pages,
      and the kernel's own directory with the final contents of it and of its tables. */
  datatype Config = Config(start: int, limit: int, ioApic: int, localApic: int,
                           shared: int, image: map<int, Page>)

  predicate GoodConfig(c: Config) {
    0 < c.start <= c.limit <= HALF && HALF <= c.ioApic < TOP && HALF <= c.localApic < TOP
  }

  // ---- entries and addresses ----

  /** `pa | 7` for the page-aligned pa of a frame. */
  function Entry(frame: int): (entry: int)
    ensures Present(entry) && FrameOf(entry) == frame && entry != 0
  {
    frame * PAGE + 7
  }

  function FrameOf(entry: int): int {
    entry / PAGE
  }

  predicate Present(entry: int) {
    entry % 2 == 1
  }

  function Pdi(vpn: int): (pdi: int)
    ensures HALF <= vpn < TOP ==> HALF / ENTRIES <= pdi < ENTRIES
  {
    vpn / ENTRIES
  }

  function Pti(vpn: int): (pti: int)
    ensures 0 <= pti < ENTRIES
  {
    vpn % ENTRIES
  }

  lemma SameVpn(v: int, w: int)
    ensures Pdi(v) == Pdi(w) && Pti(v) == Pti(w) <==> v == w
  {
  }

  lemma VpnLaws(pdi: int, pti: int)
    requires 0 <= pti < ENTRIES
    ensures Pdi(pdi * ENTRIES + pti) == pdi && Pti(pdi * ENTRIES + pti) == pti
  {
  }

  lemma VpnsOf(pdi: int)
    ensures forall w {:trigger Pdi(w)} | pdi * ENTRIES <= w < (pdi + 1) * ENTRIES :: Pdi(w) == pdi
  {
  }

  /** `is_special`, by page. */
  predicate Special(c: Config, vpn: int) {
    vpn < HALF || vpn == c.ioApic || vpn == c.localApic
  }

  // ---- the invariant ----

  predicate RoleIs(roles: Roles, f: int, r: Role) {
    f in roles && roles[f] == r
  }

  ghost predicate InMemory(mem: Memory, roles: Roles) {
    forall f {:trigger f in roles} | f in roles :: 0 < f < |mem|
  }

  /** A private directory entry is empty or refers to the table made for it. */
  predicate DirWordOk(mem: Memory, roles: Roles, p: int, pdi: int)
    requires 0 <= p < |mem| && 0 <= pdi < ENTRIES
  {
    var e := mem[p][pdi];
    e == 0 || (e == Entry(FrameOf(e)) && RoleIs(roles, FrameOf(e), Table(p, pdi)))
  }

  ghost predicate DirOk(mem: Memory, roles: Roles, p: int)
    requires 0 <= p < |mem|
  {
    forall pdi {:trigger DirWordOk(mem, roles, p, pdi)} | HALF / ENTRIES <= pdi < ENTRIES ::
      DirWordOk(mem, roles, p, pdi)
  }

  /** A table entry is empty, an APIC page mapped to itself, or the frame made for it. */
  predicate TableWordOk(mem: Memory, roles: Roles, c: Config, t: int, p: int, vpn: int)
    requires 0 <= t < |mem|
  {
    var e := mem[t][Pti(vpn)];
    || e == 0
    || (Special(c, vpn) && e == Entry(vpn))
    || (!Special(c, vpn) && e == Entry(FrameOf(e)) && RoleIs(roles, FrameOf(e), Data(p, vpn)))
  }

  ghost predicate TableOk(mem: Memory, roles: Roles, c: Config, t: int, p: int, pdi: int)
    requires 0 <= t < |mem|
  {
    && RoleIs(roles, p, Dir) && 0 <= p < |mem| && HALF / ENTRIES <= pdi < ENTRIES
    && mem[p][pdi] == Entry(t)
    && (forall vpn {:trigger TableWordOk(mem, roles, c, t, p, vpn)} | Pdi(vpn) == pdi ::
          TableWordOk(mem, roles, c, t, p, vpn))
  }

  /** The frame of page vpn of process p is the one its table says. */
  predicate DataOk(mem: Memory, roles: Roles, c: Config, g: int, p: int, vpn: int) {
    && RoleIs(roles, p, Dir) && 0 <= p < |mem| && HALF <= vpn < TOP && !Special(c, vpn)
    && var e := mem[p][Pdi(vpn)];
    && e == Entry(FrameOf(e)) && RoleIs(roles, FrameOf(e), Table(p, Pdi(vpn)))
    && 0 <= FrameOf(e) < |mem| && mem[FrameOf(e)][Pti(vpn)] == Entry(g)
  }

  ghost predicate FrameOk(mem: Memory, roles: Roles, c: Config, f: int)
    requires f in roles && 0 <= f < |mem|
  {
    match roles[f]
    case Dir => DirOk(mem, roles, f)
    case Table(p, pdi) => TableOk(mem, roles, c, f, p, pdi)
    case Data(p, vpn) => DataOk(mem, roles, c, f, p, vpn)
    case _ => true
  }

  ghost predicate Structured(mem: Memory, roles: Roles, c: Config) {
    && GoodConfig(c) && InMemory(mem, roles)
    && (forall f {:trigger FrameOk(mem, roles, c, f)} | f in roles :: FrameOk(mem, roles, c, f))
  }

  /** The translation of page vpn by directory p. */
  function Lookup(mem: Memory, p: int, vpn: int): Option<int>
    requires 0 <= p < |mem| && 0 <= vpn < TOP
  {
    var e := mem[p][Pdi(vpn)];
    if !Present(e) || !(0 <= FrameOf(e) < |mem|) then None
    else
      var w := mem[FrameOf(e)][Pti(vpn)];
      if Present(w) then Some(FrameOf(w)) else None
  }

  /** An entry that lets user code read and write: present (bit 0), writable (bit 1) and open to user mode
      (bit 2), and with none of the bits 3 to 11, of which bit 7 would make it a page of 4 MB. */
  predicate UserWrites(e: int) {
    e % 2 == 1 && e / 2 % 2 == 1 && e / 4 % 2 == 1 && e / 8 % 512 == 0
  }

  /** The translation of a store to page vpn in user mode, as the processor does it: the upper ten bits of the
      page number choose the entry of the directory, the lower ten that of the table, and both entries have
      to allow the store. */
  function UserLookup(mem: Memory, p: int, vpn: int): Option<int>
    requires 0 <= p < |mem| && 0 <= vpn < TOP
  {
    var e := mem[p][vpn / 1024];
    var t := e / 4096;
    if !UserWrites(e) || !(0 <= t < |mem|) || !UserWrites(mem[t][vpn % 1024]) then None
    else Some(mem[t][vpn % 1024] / 4096)
  }

  lemma EntryRights(frame: int)
    ensures UserWrites(Entry(frame)) && !UserWrites(0) && !Present(0)
  {
  }

  /** Every private page that is mapped can be written by user code. */
  lemma UserReaches(mem: Memory, roles: Roles, c: Config, p: int, vpn: int)
    requires Structured(mem, roles, c) && RoleIs(roles, p, Dir) && HALF <= vpn < TOP
    ensures UserLookup(mem, p, vpn) == Lookup(mem, p, vpn)
  {
    hide Entry, Present, UserWrites, Special;
    assert FrameOk(mem, roles, c, p) && DirWordOk(mem, roles, p, Pdi(vpn));
    var e := mem[p][Pdi(vpn)];
    EntryRights(FrameOf(e));
    if e != 0 {
      var t := FrameOf(e);
      assert FrameOk(mem, roles, c, t) && TableWordOk(mem, roles, c, t, p, vpn);
      EntryRights(vpn);
      EntryRights(FrameOf(mem[t][Pti(vpn)]));
    }
  }

  // ---- what every step leaves alone ----

  predicate InUse(r: Role) {
    !r.Free? && !r.Loose?
  }

  predicate Structural(r: Role) {
    r.Dir? || r.Table?
  }

  /** Frame f has the same role, and the same contents if it is a directory or a table. */
  predicate SameAt(mem: Memory, roles: Roles, mem': Memory, roles': Roles, f: int)
    requires f in roles && 0 <= f < |mem| && |mem'| == |mem|
  {
    InUse(roles[f]) ==> RoleIs(roles', f, roles[f]) && (Structural(roles[f]) ==> mem'[f] == mem[f])
  }

  ghost predicate SameStructure(mem: Memory, roles: Roles, mem': Memory, roles': Roles) {
    && |mem'| == |mem| && InMemory(mem, roles) && InMemory(mem', roles')
    && (forall f {:trigger SameAt(mem, roles, mem', roles', f)} | f in roles ::
          SameAt(mem, roles, mem', roles', f))
    && (forall f {:trigger f in roles'} | f in roles' && InUse(roles'[f]) :: RoleIs(roles, f, roles'[f]))
  }

  lemma FrameStays(mem: Memory, roles: Roles, mem': Memory, roles': Roles, c: Config, f: int)
    requires SameStructure(mem, roles, mem', roles') && Structured(mem, roles, c)
    requires f in roles'
    ensures FrameOk(mem', roles', c, f)
  {
    if InUse(roles'[f]) {
      assert FrameOk(mem, roles, c, f) && SameAt(mem, roles, mem', roles', f);
      match roles'[f]
      case Dir =>
        forall pdi | HALF / ENTRIES <= pdi < ENTRIES ensures DirWordOk(mem', roles', f, pdi) {
          assert DirWordOk(mem, roles, f, pdi);
          var t := FrameOf(mem[f][pdi]);
          assert t in roles ==> SameAt(mem, roles, mem', roles', t);
        }
      case Table(p, pdi) =>
        assert SameAt(mem, roles, mem', roles', p);
        forall vpn | Pdi(vpn) == pdi ensures TableWordOk(mem', roles', c, f, p, vpn) {
          assert TableWordOk(mem, roles, c, f, p, vpn);
          var g := FrameOf(mem[f][Pti(vpn)]);
          assert g in roles ==> SameAt(mem, roles, mem', roles', g);
        }
      case Data(p, vpn) =>
        assert SameAt(mem, roles, mem', roles', p);
        assert SameAt(mem, roles, mem', roles', FrameOf(mem[p][Pdi(vpn)]));
      case _ =>
    }
  }

  lemma LookupStays(mem: Memory, roles: Roles, mem': Memory, roles': Roles, c: Config, p: int, vpn: int)
    requires SameStructure(mem, roles, mem', roles') && Structured(mem, roles, c)
    requires RoleIs(roles, p, Dir) && HALF <= vpn < TOP
    ensures RoleIs(roles', p, Dir) && Lookup(mem', p, vpn) == Lookup(mem, p, vpn)
  {
    hide Pti, Entry, Present;
    assert SameAt(mem, roles, mem', roles', p);
    assert FrameOk(mem, roles, c, p) && DirWordOk(mem, roles, p, Pdi(vpn));
    var t := FrameOf(mem[p][Pdi(vpn)]);
    assert t in roles ==> SameAt(mem, roles, mem', roles', t);
    ZeroIsAbsent();
  }

  lemma ZeroIsAbsent()
    ensures !Present(0)
  {
  }

  lemma StructureStays(mem: Memory, roles: Roles, mem': Memory, roles': Roles, c: Config)
    requires SameStructure(mem, roles, mem', roles') && Structured(mem, roles, c)
    ensures Structured(mem', roles', c)
    ensures forall p | RoleIs(roles, p, Dir) :: RoleIs(roles', p, Dir)
    ensures forall p, vpn | RoleIs(roles, p, Dir) && HALF <= vpn < TOP :: Lookup(mem', p, vpn) == Lookup(mem, p, vpn)
  {
    hide FrameOk, Lookup, SameAt;
    forall f | f in roles' ensures FrameOk(mem', roles', c, f) {
      FrameStays(mem, roles, mem', roles', c, f);
    }
    forall p | RoleIs(roles, p, Dir) ensures RoleIs(roles', p, Dir) {
      LookupStays(mem, roles, mem', roles', c, p, HALF);
    }
    forall p, vpn | RoleIs(roles, p, Dir) && HALF <= vpn < TOP ensures Lookup(mem', p, vpn) == Lookup(mem, p, vpn) {
      LookupStays(mem, roles, mem', roles', c, p, vpn);
    }
  }

  // ---- linking and unlinking one frame ----

  function Poke(mem: Memory, f: int, w: int, value: int): (mem': Memory)
    requires 0 <= f < |mem| && 0 <= w < ENTRIES
    ensures |mem'| == |mem|
  {
    mem[f := mem[f][w := value]]
  }

  /** Every process still exists and translates every private page but (p, vpn) as before. */
  ghost predicate SameViews(mem: Memory, roles: Roles, mem': Memory, roles': Roles, p: int, vpn: int) {
    && InMemory(mem, roles) && InMemory(mem', roles')
    && (forall q {:trigger RoleIs(roles', q, Dir)} :: RoleIs(roles, q, Dir) ==> RoleIs(roles', q, Dir))
    && (forall q, v {:trigger Lookup(mem', q, v)} |
          RoleIs(roles, q, Dir) && HALF <= v < TOP && 0 <= q < |mem'| && !(q == p && v == vpn) ::
          Lookup(mem', q, v) == Lookup(mem, q, v))
  }

  const NOWHERE := -1

  predicate Blank(page: Page) {
    forall w | 0 <= w < ENTRIES :: page[w] == 0
  }

  predicate HasTable(mem: Memory, roles: Roles, p: int, pdi: int, t: int) {
    && RoleIs(roles, p, Dir) && RoleIs(roles, t, Table(p, pdi))
    && 0 <= p < |mem| && 0 <= t < |mem| && HALF / ENTRIES <= pdi < ENTRIES
    && mem[p][pdi] == Entry(t)
  }

  /** The table of a present private directory entry. */
  lemma TableOf(mem: Memory, roles: Roles, c: Config, p: int, pdi: int)
    requires Structured(mem, roles, c) && RoleIs(roles, p, Dir) && HALF / ENTRIES <= pdi < ENTRIES
    ensures mem[p][pdi] != 0 <==> Present(mem[p][pdi])
    ensures mem[p][pdi] != 0 ==> HasTable(mem, roles, p, pdi, FrameOf(mem[p][pdi]))
  {
    assert FrameOk(mem, roles, c, p) && DirWordOk(mem, roles, p, pdi);
  }

  /** What a frame's words say, one word at a time. */
  lemma Words(mem: Memory, roles: Roles, c: Config, f: int)
    requires Structured(mem, roles, c) && f in roles
    ensures FrameOk(mem, roles, c, f)
    ensures roles[f].Dir? ==> forall i {:trigger mem[f][i]} | HALF / ENTRIES <= i < ENTRIES ::
      DirWordOk(mem, roles, f, i)
    ensures roles[f].Table? ==> forall v {:trigger mem[f][Pti(v)]} | Pdi(v) == roles[f].pdi ::
      TableWordOk(mem, roles, c, f, roles[f].dir, v)
  {
    assert FrameOk(mem, roles, c, f);
  }

  lemma AddTable(mem: Memory, roles: Roles, c: Config, p: int, pdi: int, t: int)
    requires Structured(mem, roles, c) && RoleIs(roles, p, Dir) && HALF / ENTRIES <= pdi < ENTRIES
    requires mem[p][pdi] == 0 && RoleIs(roles, t, Loose) && Blank(mem[t])
    ensures var mem', roles' := Poke(mem, p, pdi, Entry(t)), roles[t := Table(p, pdi)];
      && Structured(mem', roles', c) && HasTable(mem', roles', p, pdi, t)
      && SameViews(mem, roles, mem', roles', NOWHERE, 0)
  {
    var mem', roles' := Poke(mem, p, pdi, Entry(t)), roles[t := Table(p, pdi)];
    forall f | f in roles' ensures FrameOk(mem', roles', c, f) {
      Words(mem, roles, c, f);
    }
    forall q, v | RoleIs(roles, q, Dir) && HALF <= v < TOP ensures Lookup(mem', q, v) == Lookup(mem, q, v) {
      TableOf(mem, roles, c, q, Pdi(v));
    }
  }

  /** Writing word vpn of p's table t, with what the new word says already true of it. */
  lemma TableWordWritten(mem: Memory, roles: Roles, roles': Roles, c: Config, p: int, vpn: int, t: int, e: int, f: int)
    requires Structured(mem, roles, c) && HasTable(mem, roles, p, Pdi(vpn), t) && HALF <= vpn < TOP
    requires roles'.Keys == roles.Keys && f in roles && roles'[f] == roles[f]
    requires forall g {:trigger roles'[g]} | g in roles && InUse(roles[g]) ::
      roles'[g] == roles[g] || (!InUse(roles'[g]) && roles[g] == Data(p, vpn))
    requires f != t && roles[f] != Data(p, vpn)
    ensures FrameOk(Poke(mem, t, Pti(vpn), e), roles', c, f)
  {
    hide Pdi, Pti, Entry, FrameOf, Present, Special, GoodConfig;
    var mem' := Poke(mem, t, Pti(vpn), e);
    assert FrameOk(mem, roles, c, f);
    match roles[f]
    case Dir =>
      forall i | HALF / ENTRIES <= i < ENTRIES ensures DirWordOk(mem', roles', f, i) {
        assert DirWordOk(mem, roles, f, i);
      }
    case Table(q, pdi) =>
      forall v | Pdi(v) == pdi ensures TableWordOk(mem', roles', c, f, q, v) {
        assert TableWordOk(mem, roles, c, f, q, v);
      }
    case Data(q, v) =>
      SameVpn(v, vpn);
    case _ =>
  }

  lemma TableWritten(mem: Memory, roles: Roles, roles': Roles, c: Config, p: int, vpn: int, t: int, e: int)
    requires Structured(mem, roles, c) && HasTable(mem, roles, p, Pdi(vpn), t) && HALF <= vpn < TOP
    requires roles'.Keys == roles.Keys && roles'[t] == roles[t]
    requires forall g {:trigger roles'[g]} | g in roles && InUse(roles[g]) ::
      roles'[g] == roles[g] || (!InUse(roles'[g]) && roles[g] == Data(p, vpn))
    requires TableWordOk(Poke(mem, t, Pti(vpn), e), roles', c, t, p, vpn)
    ensures FrameOk(Poke(mem, t, Pti(vpn), e), roles', c, t)
  {
    hide Pdi, Pti, Entry, FrameOf, Present, Special, GoodConfig;
    var mem' := Poke(mem, t, Pti(vpn), e);
    assert FrameOk(mem, roles, c, t);
    forall v | Pdi(v) == Pdi(vpn) ensures TableWordOk(mem', roles', c, t, p, v) {
      assert TableWordOk(mem, roles, c, t, p, v);
      SameVpn(v, vpn);
    }
  }

  lemma OthersLookUpAsBefore(mem: Memory, roles: Roles, c: Config, p: int, vpn: int, t: int, e: int, q: int, v: int)
    requires Structured(mem, roles, c) && HasTable(mem, roles, p, Pdi(vpn), t)
    requires RoleIs(roles, q, Dir) && HALF <= v < TOP && HALF <= vpn < TOP && !(q == p && v == vpn)
    ensures Lookup(Poke(mem, t, Pti(vpn), e), q, v) == Lookup(mem, q, v)
  {
    hide Pdi, Pti, Entry, FrameOf, Present, Special, GoodConfig;
    TableOf(mem, roles, c, q, Pdi(v));
    SameVpn(v, vpn);
  }

  lemma AddData(mem: Memory, roles: Roles, c: Config, p: int, vpn: int, t: int, g: int)
    requires Structured(mem, roles, c) && HasTable(mem, roles, p, Pdi(vpn), t)
    requires HALF <= vpn < TOP && !Special(c, vpn) && mem[t][Pti(vpn)] == 0 && RoleIs(roles, g, Loose)
    ensures var mem', roles' := Poke(mem, t, Pti(vpn), Entry(g)), roles[g := Data(p, vpn)];
      && Structured(mem', roles', c)
      && Lookup(mem', p, vpn) == Some(g) && Lookup(mem, p, vpn) == None
      && SameViews(mem, roles, mem', roles', p, vpn)
  {
    hide Pdi, Pti, Entry, FrameOf, Special;
    var mem', roles' := Poke(mem, t, Pti(vpn), Entry(g)), roles[g := Data(p, vpn)];
    forall f | f in roles' ensures FrameOk(mem', roles', c, f) {
      if f == t {
        TableWritten(mem, roles, roles', c, p, vpn, t, Entry(g));
      } else if f == g {
        assert DataOk(mem', roles', c, f, p, vpn);
      } else if roles[f] == Data(p, vpn) {
        assert FrameOk(mem, roles, c, f);
      } else {
        TableWordWritten(mem, roles, roles', c, p, vpn, t, Entry(g), f);
      }
    }
    forall q, v | RoleIs(roles, q, Dir) && HALF <= v < TOP && !(q == p && v == vpn)
      ensures Lookup(mem', q, v) == Lookup(mem, q, v)
    {
      OthersLookUpAsBefore(mem, roles, c, p, vpn, t, Entry(g), q, v);
    }
  }

  lemma AddSpecial(mem: Memory, roles: Roles, c: Config, p: int, vpn: int, t: int)
    requires Structured(mem, roles, c) && HasTable(mem, roles, p, Pdi(vpn), t)
    requires HALF <= vpn < TOP && Special(c, vpn)
    ensures var mem' := Poke(mem, t, Pti(vpn), Entry(vpn));
      && Structured(mem', roles, c)
      && Lookup(mem', p, vpn) == Some(vpn)
      && SameViews(mem, roles, mem', roles, p, vpn)
  {
    hide Pdi, Pti, Entry, FrameOf, Special;
    var mem' := Poke(mem, t, Pti(vpn), Entry(vpn));
    forall f | f in roles ensures FrameOk(mem', roles, c, f) {
      if f == t {
        TableWritten(mem, roles, roles, c, p, vpn, t, Entry(vpn));
      } else {
        assert FrameOk(mem, roles, c, f);
        TableWordWritten(mem, roles, roles, c, p, vpn, t, Entry(vpn), f);
      }
    }
    forall q, v | RoleIs(roles, q, Dir) && HALF <= v < TOP && !(q == p && v == vpn)
      ensures Lookup(mem', q, v) == Lookup(mem, q, v)
    {
      OthersLookUpAsBefore(mem, roles, c, p, vpn, t, Entry(vpn), q, v);
    }
  }

  lemma DropData(mem: Memory, roles: Roles, c: Config, p: int, vpn: int, t: int)
    requires Structured(mem, roles, c) && HasTable(mem, roles, p, Pdi(vpn), t)
    requires HALF <= vpn < TOP && !Special(c, vpn) && mem[t][Pti(vpn)] != 0
    ensures var g := FrameOf(mem[t][Pti(vpn)]);
      && RoleIs(roles, g, Data(p, vpn)) && Lookup(mem, p, vpn) == Some(g) && Present(mem[t][Pti(vpn)])
      && var mem', roles' := Poke(mem, t, Pti(vpn), 0), roles[g := Loose];
      && Structured(mem', roles', c)
      && Lookup(mem', p, vpn) == None
      && SameViews(mem, roles, mem', roles', p, vpn)
  {
    hide Pdi, Pti, Entry, FrameOf, Special;
    assert FrameOk(mem, roles, c, t) && TableWordOk(mem, roles, c, t, p, vpn);
    var g := FrameOf(mem[t][Pti(vpn)]);
    var mem', roles' := Poke(mem, t, Pti(vpn), 0), roles[g := Loose];
    forall f | f in roles' ensures FrameOk(mem', roles', c, f) {
      if f == t {
        TableWritten(mem, roles, roles', c, p, vpn, t, 0);
      } else if f == g {
        assert !InUse(roles'[f]);
      } else {
        assert FrameOk(mem, roles, c, f);
        TableWordWritten(mem, roles, roles', c, p, vpn, t, 0, f);
      }
    }
    forall q, v | RoleIs(roles, q, Dir) && HALF <= v < TOP && !(q == p && v == vpn)
      ensures Lookup(mem', q, v) == Lookup(mem, q, v)
    {
      OthersLookUpAsBefore(mem, roles, c, p, vpn, t, 0, q, v);
    }
  }

  lemma DropTable(mem: Memory, roles: Roles, c: Config, p: int, pdi: int, t: int)
    requires Structured(mem, roles, c) && HasTable(mem, roles, p, pdi, t) && Blank(mem[t])
    ensures var mem', roles' := Poke(mem, p, pdi, 0), roles[t := Loose];
      && Structured(mem', roles', c)
      && SameViews(mem, roles, mem', roles', NOWHERE, 0)
  {
    var mem', roles' := Poke(mem, p, pdi, 0), roles[t := Loose];
    forall f | f in roles' ensures FrameOk(mem', roles', c, f) {
      Words(mem, roles, c, f);
    }
    forall q, v | RoleIs(roles, q, Dir) && HALF <= v < TOP ensures Lookup(mem', q, v) == Lookup(mem, q, v) {
      TableOf(mem, roles, c, q, Pdi(v));
    }
  }

  lemma AddDir(mem: Memory, roles: Roles, c: Config, p: int)
    requires Structured(mem, roles, c) && RoleIs(roles, p, Loose)
    requires forall i | HALF / ENTRIES <= i < ENTRIES :: mem[p][i] == 0
    ensures Structured(mem, roles[p := Dir], c)
    ensures SameViews(mem, roles, mem, roles[p := Dir], NOWHERE, 0)
    ensures forall v | HALF <= v < TOP :: Lookup(mem, p, v) == None
  {
    var roles' := roles[p := Dir];
    forall f | f in roles' ensures FrameOk(mem, roles', c, f) {
      Words(mem, roles, c, f);
    }
  }

  // ---- a process as a whole ----

  /** Frame f belongs to process p: its directory, a private table, or a private page. */
  predicate OwnedBy(roles: Roles, f: int, p: int) {
    && f in roles
    && match roles[f]
       case Dir => f == p
       case Table(q, _) => q == p
       case Data(q, _) => q == p
       case _ => false
  }

  /** All frames of p lose their role at once. */
  function Dissolved(roles: Roles, p: int): (roles': Roles)
    ensures roles'.Keys == roles.Keys
  {
    map f | f in roles :: if OwnedBy(roles, f, p) then Loose else roles[f]
  }

  lemma Dissolve(mem: Memory, roles: Roles, c: Config, p: int)
    requires Structured(mem, roles, c)
    ensures Structured(mem, Dissolved(roles, p), c)
  {
    var roles' := Dissolved(roles, p);
    forall f | f in roles' ensures FrameOk(mem, roles', c, f) {
      Words(mem, roles, c, f);
    }
  }
}
