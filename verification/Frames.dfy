/** The frame allocator of kernel/physmem.cc, and every single change that it and kernel/vmm.cc make
    to memory, as steps over one state.  The cores interleave at these steps: allocation and release
    hold the allocator's lock, and each of the others writes one word. */
module Frames {
  import opened Common
  import opened PageTables

  /** Memory, the head of the free list and the first frame never used yet (both as the allocator
      keeps them), with two ghosts: the role of every managed frame and the free list's contents. */
  datatype Vm = Vm(mem: Memory, firstFree: int, avail: int, roles: Roles, fl: seq<int>)

  // ---- the free list ----

  predicate Listed(fl: seq<int>, f: int) {
    exists k :: 0 <= k < |fl| && fl[k] == f
  }

  predicate FreeAt(v: Vm, k: int)
    requires 0 <= k < |v.fl|
  {
    RoleIs(v.roles, v.fl[k], Free)
  }

  /** The address of the k-th free frame, or the null that ends the list. */
  function AddressAt(fl: seq<int>, k: int): int
    requires 0 <= k <= |fl|
  {
    if k < |fl| then fl[k] * PAGE else 0
  }

  predicate ChainedAt(v: Vm, k: int)
    requires 0 <= k < |v.fl|
  {
    0 <= v.fl[k] < |v.mem| && v.mem[v.fl[k]][0] == AddressAt(v.fl, k + 1)
  }

  ghost predicate NoRepeats(fl: seq<int>) {
    forall j, k | 0 <= j < k < |fl| :: fl[j] != fl[k]
  }

  predicate Managed(v: Vm, c: Config, f: int) {
    c.start <= f < v.avail
  }

  ghost predicate FreeListOk(v: Vm, c: Config) {
    && 0 < c.start <= v.avail <= c.limit == |v.mem|
    && (forall f {:trigger f in v.roles} {:trigger Managed(v, c, f)} :: f in v.roles <==> Managed(v, c, f))
    && NoRepeats(v.fl)
    && v.firstFree == AddressAt(v.fl, 0)
    && (forall k {:trigger FreeAt(v, k)} | 0 <= k < |v.fl| :: FreeAt(v, k) && ChainedAt(v, k))
    && (forall f {:trigger Listed(v.fl, f)} | RoleIs(v.roles, f, Free) :: Listed(v.fl, f))
  }

  // ---- the kernel half ----

  predicate SameLow(a: Page, b: Page) {
    forall i | 0 <= i < HALF / ENTRIES :: a[i] == b[i]
  }

  predicate Pinned(v: Vm, c: Config, f: int)
    requires f in c.image
  {
    0 <= f < |v.mem| && RoleIs(v.roles, f, Shared) && v.mem[f] == c.image[f]
  }

  /** The kernel's tables never change, and every directory shows them in its lower half. */
  ghost predicate KernelOk(v: Vm, c: Config) {
    && (forall f {:trigger Pinned(v, c, f)} | f in c.image :: Pinned(v, c, f))
    && (forall p {:trigger RoleIs(v.roles, p, Dir)} | RoleIs(v.roles, p, Dir) ::
          0 <= p < |v.mem| && c.shared in c.image && SameLow(v.mem[p], c.image[c.shared]))
  }

  ghost predicate Inv(v: Vm, c: Config) {
    Structured(v.mem, v.roles, c) && FreeListOk(v, c) && KernelOk(v, c)
  }

  // ---- steps ----

  datatype Step =
    | Alloc
    | Dealloc(f: int)
    | LinkTable(p: int, pdi: int, t: int)
    | LinkPage(p: int, vpn: int, t: int, g: int)
    | LinkSpecial(p: int, vpn: int, t: int)
    | UnlinkPage(p: int, vpn: int, t: int)
    | UnlinkTable(p: int, pdi: int, t: int)
    | OpenDirectory(p: int)
    | CloseDirectory(p: int)
    | Store(f: int, page: Page)

  function Zeroes(): (page: Page)
    ensures Blank(page)
  {
    seq(ENTRIES, _ => 0)
  }

  /** The frame that the next allocation takes. */
  function NextFrame(v: Vm): int {
    if v.firstFree != 0 then v.firstFree / PAGE else v.avail
  }

  function Rewritten(v: Vm, mem: Memory, roles: Roles): Vm {
    Vm(mem, v.firstFree, v.avail, roles, v.fl)
  }

  function Allocated(v: Vm): Vm {
    var f := NextFrame(v);
    if !(0 <= f < |v.mem|) then v
    else if v.firstFree != 0 then
      Vm(v.mem[f := Zeroes()], v.mem[f][0], v.avail, v.roles[f := Loose], if v.fl == [] then [] else v.fl[1..])
    else
      Vm(v.mem[f := Zeroes()], 0, v.avail + 1, v.roles[f := Loose], v.fl)
  }

  function Deallocated(v: Vm, f: int): Vm {
    if !(0 <= f < |v.mem|) then v
    else Vm(Poke(v.mem, f, 0, v.firstFree), f * PAGE, v.avail, v.roles[f := Free], [f] + v.fl)
  }

  predicate HighBlank(page: Page) {
    forall i | HALF / ENTRIES <= i < ENTRIES :: page[i] == 0
  }

  /** What the code has checked, or allocated before, when it makes the step. */
  predicate Enabled(v: Vm, c: Config, s: Step) {
    match s
    case Alloc => v.firstFree != 0 || v.avail != c.limit
    case Dealloc(f) => RoleIs(v.roles, f, Loose)
    case LinkTable(p, pdi, t) =>
      && RoleIs(v.roles, p, Dir) && HALF / ENTRIES <= pdi < ENTRIES && 0 <= p < |v.mem| && v.mem[p][pdi] == 0
      && RoleIs(v.roles, t, Loose) && 0 <= t < |v.mem| && Blank(v.mem[t])
    case LinkPage(p, vpn, t, g) =>
      && HALF <= vpn < TOP && HasTable(v.mem, v.roles, p, Pdi(vpn), t) && !Special(c, vpn)
      && v.mem[t][Pti(vpn)] == 0 && RoleIs(v.roles, g, Loose)
    case LinkSpecial(p, vpn, t) =>
      HALF <= vpn < TOP && HasTable(v.mem, v.roles, p, Pdi(vpn), t) && Special(c, vpn)
    case UnlinkPage(p, vpn, t) =>
      && HALF <= vpn < TOP && HasTable(v.mem, v.roles, p, Pdi(vpn), t) && !Special(c, vpn)
      && v.mem[t][Pti(vpn)] != 0
    case UnlinkTable(p, pdi, t) =>
      HasTable(v.mem, v.roles, p, pdi, t) && Blank(v.mem[t])
    case OpenDirectory(p) =>
      && RoleIs(v.roles, p, Loose) && 0 <= p < |v.mem| && HighBlank(v.mem[p])
      && c.shared in c.image && SameLow(v.mem[p], c.image[c.shared])
    case CloseDirectory(p) => true
    case Store(f, page) => f in v.roles && 0 <= f < |v.mem| && (v.roles[f].Loose? || v.roles[f].Data?)
  }

  /** The state after a step; a step out of place changes nothing. */
  function Apply(v: Vm, c: Config, s: Step): Vm {
    if !Enabled(v, c, s) then v
    else
      match s
      case Alloc => Allocated(v)
      case Dealloc(f) => Deallocated(v, f)
      case LinkTable(p, pdi, t) =>
        Rewritten(v, Poke(v.mem, p, pdi, Entry(t)), v.roles[t := Table(p, pdi)])
      case LinkPage(p, vpn, t, g) =>
        Rewritten(v, Poke(v.mem, t, Pti(vpn), Entry(g)), v.roles[g := Data(p, vpn)])
      case LinkSpecial(p, vpn, t) =>
        Rewritten(v, Poke(v.mem, t, Pti(vpn), Entry(vpn)), v.roles)
      case UnlinkPage(p, vpn, t) =>
        Rewritten(v, Poke(v.mem, t, Pti(vpn), 0), v.roles[FrameOf(v.mem[t][Pti(vpn)]) := Loose])
      case UnlinkTable(p, pdi, t) =>
        Rewritten(v, Poke(v.mem, p, pdi, 0), v.roles[t := Loose])
      case OpenDirectory(p) => Rewritten(v, v.mem, v.roles[p := Dir])
      case CloseDirectory(p) => Rewritten(v, v.mem, Dissolved(v.roles, p))
      case Store(f, page) => Rewritten(v, v.mem[f := page], v.roles)
  }

  // ---- every step keeps the invariant ----

  predicate SameFree(v: Vm, v': Vm, f: int)
    requires |v'.mem| == |v.mem|
  {
    && (RoleIs(v'.roles, f, Free) <==> RoleIs(v.roles, f, Free))
    && (RoleIs(v.roles, f, Free) && 0 <= f < |v.mem| ==> v'.mem[f] == v.mem[f])
  }

  lemma IsListed(v: Vm, c: Config, f: int)
    requires FreeListOk(v, c) && RoleIs(v.roles, f, Free)
    ensures Listed(v.fl, f)
  {
    hide Listed;
  }

  lemma FreeListStays(v: Vm, v': Vm, c: Config)
    requires FreeListOk(v, c) && v'.roles.Keys == v.roles.Keys && |v'.mem| == |v.mem|
    requires v'.firstFree == v.firstFree && v'.avail == v.avail && v'.fl == v.fl
    requires forall f {:trigger SameFree(v, v', f)} :: SameFree(v, v', f)
    ensures FreeListOk(v', c)
  {
    forall f ensures f in v'.roles <==> Managed(v', c, f) {
      assert f in v.roles <==> Managed(v, c, f);
    }
    forall k | 0 <= k < |v'.fl| ensures FreeAt(v', k) && ChainedAt(v', k) {
      assert FreeAt(v, k) && ChainedAt(v, k) && SameFree(v, v', v.fl[k]);
    }
    forall f | RoleIs(v'.roles, f, Free) ensures Listed(v'.fl, f) {
      assert SameFree(v, v', f);
      IsListed(v, c, f);
    }
  }

  predicate SameShared(v: Vm, v': Vm, f: int)
    requires |v'.mem| == |v.mem|
  {
    RoleIs(v.roles, f, Shared) ==> RoleIs(v'.roles, f, Shared) && (0 <= f < |v.mem| ==> v'.mem[f] == v.mem[f])
  }

  predicate SameLower(v: Vm, v': Vm, p: int)
    requires |v'.mem| == |v.mem|
  {
    RoleIs(v'.roles, p, Dir) ==>
      RoleIs(v.roles, p, Dir) && (0 <= p < |v.mem| ==> SameLow(v.mem[p], v'.mem[p]))
  }

  lemma KernelStays(v: Vm, v': Vm, c: Config)
    requires KernelOk(v, c) && |v'.mem| == |v.mem|
    requires forall f {:trigger SameShared(v, v', f)} :: SameShared(v, v', f)
    requires forall p {:trigger SameLower(v, v', p)} :: SameLower(v, v', p)
    ensures KernelOk(v', c)
  {
    forall f | f in c.image ensures Pinned(v', c, f) {
      assert Pinned(v, c, f) && SameShared(v, v', f);
    }
    forall p | RoleIs(v'.roles, p, Dir)
      ensures 0 <= p < |v'.mem| && c.shared in c.image && SameLow(v'.mem[p], c.image[c.shared])
    {
      assert SameLower(v, v', p);
    }
  }

  lemma InRange(v: Vm, c: Config, f: int)
    requires Inv(v, c) && f in v.roles
    ensures 0 < f < |v.mem|
  {
  }

  /** Allocation takes a frame nobody uses, zeroes it, and touches nothing that is in use. */
  lemma AllocKeeps(v: Vm, c: Config)
    requires Inv(v, c) && Enabled(v, c, Alloc)
    ensures var f, v' := NextFrame(v), Apply(v, c, Alloc);
      && Inv(v', c) && c.start <= f < c.limit && !(f in v.roles && InUse(v.roles[f])) && !RoleIs(v.roles, f, Loose)
      && v'.roles == v.roles[f := Loose] && v'.mem == v.mem[f := Zeroes()]
      && SameStructure(v.mem, v.roles, v'.mem, v'.roles)
  {
    hide DirOk, TableOk, DataOk, DirWordOk, TableWordOk, Blank;
    var f, v' := NextFrame(v), Apply(v, c, Alloc);
    if v.fl != [] {
      assert FreeAt(v, 0) && ChainedAt(v, 0);
      assert f == v.fl[0];
    } else {
      assert !Managed(v, c, f);
    }
    FreeListAfterAlloc(v, c);
    assert SameStructure(v.mem, v.roles, v'.mem, v'.roles);
    StructureStays(v.mem, v.roles, v'.mem, v'.roles, c);
    KernelStays(v, v', c);
  }

  lemma FreeListAfterAlloc(v: Vm, c: Config)
    requires FreeListOk(v, c) && Enabled(v, c, Alloc) && InMemory(v.mem, v.roles)
    ensures FreeListOk(Allocated(v), c)
  {
    var f, v' := NextFrame(v), Allocated(v);
    if v.fl != [] {
      assert FreeAt(v, 0) && ChainedAt(v, 0);
      assert f == v.fl[0];
      forall k | 0 <= k < |v'.fl| ensures FreeAt(v', k) && ChainedAt(v', k) {
        assert FreeAt(v, k + 1) && ChainedAt(v, k + 1);
      }
      forall g | RoleIs(v'.roles, g, Free) ensures Listed(v'.fl, g) {
        assert RoleIs(v.roles, g, Free);
        IsListed(v, c, g);
        var k :| 0 <= k < |v.fl| && v.fl[k] == g;
        assert v'.fl[k - 1] == g;
      }
    } else {
      forall g | RoleIs(v'.roles, g, Free) ensures Listed(v'.fl, g) {
        assert RoleIs(v.roles, g, Free);
        IsListed(v, c, g);
      }
    }
    forall g ensures g in v'.roles <==> Managed(v', c, g) {
      assert g in v.roles <==> Managed(v, c, g);
    }
  }

  lemma DeallocKeeps(v: Vm, c: Config, f: int)
    requires Inv(v, c) && RoleIs(v.roles, f, Loose)
    ensures Inv(Apply(v, c, Dealloc(f)), c)
    ensures SameStructure(v.mem, v.roles, Apply(v, c, Dealloc(f)).mem, Apply(v, c, Dealloc(f)).roles)
  {
    hide DirOk, TableOk, DataOk, DirWordOk, TableWordOk, Blank;
    var v' := Apply(v, c, Dealloc(f));
    assert 0 < f < |v.mem|;
    StructureStays(v.mem, v.roles, v'.mem, v'.roles, c);
    KernelStays(v, v', c);
    forall g ensures g in v'.roles <==> Managed(v', c, g) {
      assert g in v.roles <==> Managed(v, c, g);
    }
    forall k | 0 <= k < |v'.fl| ensures FreeAt(v', k) && ChainedAt(v', k) {
      if k > 0 {
        assert FreeAt(v, k - 1) && ChainedAt(v, k - 1);
      }
    }
    forall j, k | 0 <= j < k < |v'.fl| ensures v'.fl[j] != v'.fl[k] {
      assert FreeAt(v, k - 1);
    }
    forall g | RoleIs(v'.roles, g, Free) ensures Listed(v'.fl, g) {
      if g == f {
        assert v'.fl[0] == g;
      } else {
        assert RoleIs(v.roles, g, Free);
        IsListed(v, c, g);
        var k :| 0 <= k < |v.fl| && v.fl[k] == g;
        assert v'.fl[k + 1] == g;
      }
    }
  }

  /** Frame f is only rewritten, or given another role, if it is neither free nor the kernel's, and a
      directory keeps its lower half. */
  predicate Harmless(v: Vm, mem: Memory, roles: Roles, f: int)
    requires |mem| == |v.mem|
  {
    && (RoleIs(roles, f, Free) <==> RoleIs(v.roles, f, Free))
    && (RoleIs(v.roles, f, Shared) ==> RoleIs(roles, f, Shared))
    && (0 <= f < |mem| && (RoleIs(v.roles, f, Free) || RoleIs(v.roles, f, Shared)) ==> mem[f] == v.mem[f])
    && (RoleIs(roles, f, Dir) ==> RoleIs(v.roles, f, Dir) && (0 <= f < |mem| ==> SameLow(v.mem[f], mem[f])))
  }

  lemma RewriteKeeps(v: Vm, mem: Memory, roles: Roles, c: Config)
    requires Inv(v, c) && Structured(mem, roles, c) && roles.Keys == v.roles.Keys && |mem| == |v.mem|
    requires forall f {:trigger Harmless(v, mem, roles, f)} :: Harmless(v, mem, roles, f)
    ensures Inv(Rewritten(v, mem, roles), c)
  {
    hide Structured, SameLow;
    var v' := Rewritten(v, mem, roles);
    forall f ensures SameFree(v, v', f) && SameShared(v, v', f) && SameLower(v, v', f) {
      assert Harmless(v, mem, roles, f);
    }
    FreeListStays(v, v', c);
    KernelStays(v, v', c);
  }

  lemma LinkTableKeeps(v: Vm, c: Config, p: int, pdi: int, t: int)
    requires Inv(v, c) && Enabled(v, c, LinkTable(p, pdi, t))
    ensures var v' := Apply(v, c, LinkTable(p, pdi, t));
      && Inv(v', c) && HasTable(v'.mem, v'.roles, p, pdi, t)
      && SameViews(v.mem, v.roles, v'.mem, v'.roles, NOWHERE, 0)
  {
    hide Structured, FreeListOk, KernelOk, Blank, HasTable, SameViews;
    AddTable(v.mem, v.roles, c, p, pdi, t);
    RewriteKeeps(v, Poke(v.mem, p, pdi, Entry(t)), v.roles[t := Table(p, pdi)], c);
  }

  lemma LinkPageKeeps(v: Vm, c: Config, p: int, vpn: int, t: int, g: int)
    requires Inv(v, c) && Enabled(v, c, LinkPage(p, vpn, t, g))
    ensures var v' := Apply(v, c, LinkPage(p, vpn, t, g));
      && Inv(v', c) && Lookup(v.mem, p, vpn) == None && Lookup(v'.mem, p, vpn) == Some(g)
      && SameViews(v.mem, v.roles, v'.mem, v'.roles, p, vpn)
  {
    hide Structured, FreeListOk, KernelOk, Lookup, SameViews, Special;
    AddData(v.mem, v.roles, c, p, vpn, t, g);
    RewriteKeeps(v, Poke(v.mem, t, Pti(vpn), Entry(g)), v.roles[g := Data(p, vpn)], c);
  }

  lemma LinkSpecialKeeps(v: Vm, c: Config, p: int, vpn: int, t: int)
    requires Inv(v, c) && Enabled(v, c, LinkSpecial(p, vpn, t))
    ensures var v' := Apply(v, c, LinkSpecial(p, vpn, t));
      && Inv(v', c) && Lookup(v'.mem, p, vpn) == Some(vpn)
      && SameViews(v.mem, v.roles, v'.mem, v'.roles, p, vpn)
  {
    hide Structured, FreeListOk, KernelOk, Lookup, SameViews, Special;
    AddSpecial(v.mem, v.roles, c, p, vpn, t);
    RewriteKeeps(v, Poke(v.mem, t, Pti(vpn), Entry(vpn)), v.roles, c);
  }

  lemma UnlinkPageKeeps(v: Vm, c: Config, p: int, vpn: int, t: int)
    requires Inv(v, c) && Enabled(v, c, UnlinkPage(p, vpn, t))
    ensures var g, v' := FrameOf(v.mem[t][Pti(vpn)]), Apply(v, c, UnlinkPage(p, vpn, t));
      && Inv(v', c) && RoleIs(v.roles, g, Data(p, vpn)) && RoleIs(v'.roles, g, Loose)
      && Lookup(v.mem, p, vpn) == Some(g) && Lookup(v'.mem, p, vpn) == None
      && SameViews(v.mem, v.roles, v'.mem, v'.roles, p, vpn)
  {
    hide Structured, FreeListOk, KernelOk, Lookup, SameViews, Special;
    DropData(v.mem, v.roles, c, p, vpn, t);
    var g := FrameOf(v.mem[t][Pti(vpn)]);
    RewriteKeeps(v, Poke(v.mem, t, Pti(vpn), 0), v.roles[g := Loose], c);
  }

  lemma UnlinkTableKeeps(v: Vm, c: Config, p: int, pdi: int, t: int)
    requires Inv(v, c) && Enabled(v, c, UnlinkTable(p, pdi, t))
    ensures var v' := Apply(v, c, UnlinkTable(p, pdi, t));
      && Inv(v', c) && SameViews(v.mem, v.roles, v'.mem, v'.roles, NOWHERE, 0)
  {
    hide Structured, FreeListOk, KernelOk, Blank, SameViews;
    DropTable(v.mem, v.roles, c, p, pdi, t);
    RewriteKeeps(v, Poke(v.mem, p, pdi, 0), v.roles[t := Loose], c);
  }

  lemma OpenDirectoryKeeps(v: Vm, c: Config, p: int)
    requires Inv(v, c) && Enabled(v, c, OpenDirectory(p))
    ensures var v' := Apply(v, c, OpenDirectory(p));
      && Inv(v', c) && SameViews(v.mem, v.roles, v'.mem, v'.roles, NOWHERE, 0)
      && forall vpn | HALF <= vpn < TOP :: Lookup(v'.mem, p, vpn) == None
  {
    hide Structured, SameLow, SameViews;
    AddDir(v.mem, v.roles, c, p);
    var v' := Apply(v, c, OpenDirectory(p));
    FreeListStays(v, v', c);
    forall f | f in c.image ensures Pinned(v', c, f) {
      assert Pinned(v, c, f);
    }
    assert forall q | RoleIs(v'.roles, q, Dir) :: q == p || RoleIs(v.roles, q, Dir);
  }

  lemma CloseDirectoryKeeps(v: Vm, c: Config, p: int)
    requires Inv(v, c)
    ensures Inv(Apply(v, c, CloseDirectory(p)), c)
  {
    hide Structured, FreeListOk, KernelOk;
    Dissolve(v.mem, v.roles, c, p);
    RewriteKeeps(v, v.mem, Dissolved(v.roles, p), c);
  }

  lemma StoreKeeps(v: Vm, c: Config, f: int, page: Page)
    requires Inv(v, c) && Enabled(v, c, Store(f, page))
    ensures Inv(Apply(v, c, Store(f, page)), c)
    ensures SameStructure(v.mem, v.roles, Apply(v, c, Store(f, page)).mem, v.roles)
  {
    hide FreeListOk, KernelOk;
    StructureStays(v.mem, v.roles, v.mem[f := page], v.roles, c);
    RewriteKeeps(v, v.mem[f := page], v.roles, c);
  }

  lemma StepKeeps(v: Vm, c: Config, s: Step)
    requires Inv(v, c)
    ensures Inv(Apply(v, c, s), c)
  {
    hide Inv;
    if Enabled(v, c, s) {
      match s
      case Alloc => AllocKeeps(v, c);
      case Dealloc(f) => DeallocKeeps(v, c, f);
      case LinkTable(p, pdi, t) => LinkTableKeeps(v, c, p, pdi, t);
      case LinkPage(p, vpn, t, g) => LinkPageKeeps(v, c, p, vpn, t, g);
      case LinkSpecial(p, vpn, t) => LinkSpecialKeeps(v, c, p, vpn, t);
      case UnlinkPage(p, vpn, t) => UnlinkPageKeeps(v, c, p, vpn, t);
      case UnlinkTable(p, pdi, t) => UnlinkTableKeeps(v, c, p, pdi, t);
      case OpenDirectory(p) => OpenDirectoryKeeps(v, c, p);
      case CloseDirectory(p) => CloseDirectoryKeeps(v, c, p);
      case Store(f, page) => StoreKeeps(v, c, f, page);
    }
  }

  /** The frames that a step names: its process, the table, and what the caller holds. */
  function Names(s: Step): set<int> {
    match s
    case Alloc => {}
    case Dealloc(f) => {f}
    case LinkTable(p, _, t) => {p, t}
    case LinkPage(p, _, t, g) => {p, t, g}
    case LinkSpecial(p, _, t) => {p, t}
    case UnlinkPage(p, _, t) => {p, t}
    case UnlinkTable(p, _, t) => {p, t}
    case OpenDirectory(p) => {p}
    case CloseDirectory(p) => {p}
    case Store(f, _) => {f}
  }

  /** No core spoils what another has checked or allocated, as long as each names only frames of its own
      process and those it holds: a step that could be made still can.  Only allocation can meet a memory
      that others have used up, and then it panics. */
  lemma StaysEnabled(v: Vm, c: Config, mine: Step, theirs: Step)
    requires Inv(v, c) && Enabled(v, c, mine) && Enabled(v, c, theirs) && Names(mine) !! Names(theirs)
    ensures mine.Alloc? || Enabled(Apply(v, c, theirs), c, mine)
  {
    hide Inv, Apply, Pdi, Pti, Entry, Blank, HighBlank, SameLow, Special;
    forall g | g in Names(mine) && g in v.roles ensures LeftAlone(v, Apply(v, c, theirs), theirs, g) {
      NotNamed(v, c, theirs, g);
    }
  }

  /** A step leaves a frame that it does not name as it is, but for pages and tables of its process, which
      it may give up. */
  predicate LeftAlone(v: Vm, v': Vm, s: Step, g: int)
    requires g in v.roles
  {
    && |v'.mem| == |v.mem| && g in v'.roles && 0 <= g < |v.mem|
    && (v.roles[g] == Free
        || (&& v'.mem[g] == v.mem[g]
            && (|| v'.roles[g] == v.roles[g]
                || (v'.roles[g] == Loose && (v.roles[g].Data? || (v.roles[g].Table? && v.roles[g].dir in Names(s)))))))
  }

  lemma NotNamed(v: Vm, c: Config, s: Step, g: int)
    requires Inv(v, c) && Enabled(v, c, s) && g in v.roles && g !in Names(s)
    ensures LeftAlone(v, Apply(v, c, s), s, g)
  {
    hide Structured, FreeListOk, KernelOk, Pdi, Pti, Entry, Blank, HighBlank, SameLow, Special, SameStructure, HasTable;
    InRange(v, c, g);
    if s.Alloc? {
      AllocKeeps(v, c);
    } else if s.UnlinkPage? {
      UnlinkPageKeeps(v, c, s.p, s.vpn, s.t);
    }
  }

  function Run(v: Vm, c: Config, steps: seq<Step>): Vm
    decreases |steps|
  {
    if steps == [] then v else Run(Apply(v, c, steps[0]), c, steps[1..])
  }

  /** Whatever the cores do, in whatever order. */
  lemma {:induction false} RunKeeps(v: Vm, c: Config, steps: seq<Step>)
    requires Inv(v, c)
    ensures Inv(Run(v, c, steps), c)
    decreases |steps|
  {
    if steps != [] {
      StepKeeps(v, c, steps[0]);
      RunKeeps(Apply(v, c, steps[0]), c, steps[1..]);
    }
  }
}
