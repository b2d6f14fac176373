/** Building the kernel's own page tables: `VMM::global_init` of kernel/vmm.cc. */
module Boot {
  import opened PageTables
  import opened Frames
  import opened Spaces

  /** Entry vpn of the directory in frame s, when the pages below n have been mapped to themselves. */
  predicate BootAt(v: Vm, s: int, vpn: int, n: int)
    requires 0 <= s < |v.mem| && 0 <= vpn < HALF
  {
    var e := v.mem[s][Pdi(vpn)];
    if 0 < vpn < n then
      && e == Entry(FrameOf(e)) && FrameOf(e) in v.roles && FrameOf(e) != s && 0 <= FrameOf(e) < |v.mem|
      && v.mem[FrameOf(e)][Pti(vpn)] == Entry(vpn)
    else
      || e == 0
      || (Pdi(vpn) * ENTRIES < n && e == Entry(FrameOf(e)) && FrameOf(e) in v.roles && FrameOf(e) != s
          && 0 <= FrameOf(e) < |v.mem| && v.mem[FrameOf(e)][Pti(vpn)] == 0)
  }

  /** The tables are told apart by their entries. */
  ghost predicate OneEach(v: Vm, s: int)
    requires 0 <= s < |v.mem|
  {
    forall i, j | 0 <= i < j < HALF / ENTRIES :: v.mem[s][i] == v.mem[s][j] ==> v.mem[s][i] == 0
  }

  /** All that is allocated so far is the directory in frame s and its tables. */
  ghost predicate Alone(v: Vm, c: Config, s: int) {
    && Inv(v, c) && c.image == map[] && RoleIs(v.roles, s, Loose) && 0 <= s < |v.mem|
    && (forall f {:trigger f in v.roles} | f in v.roles :: v.roles[f] == Loose)
    && OneEach(v, s)
  }

  ghost predicate Booting(v: Vm, c: Config, s: int, n: int) {
    && Alone(v, c, s)
    && (forall vpn {:trigger BootAt(v, s, vpn, n)} | 0 <= vpn < HALF :: BootAt(v, s, vpn, n))
  }

  /** The same, with table t for page n there, and only the page's own entry missing. */
  ghost predicate BootTabled(v: Vm, c: Config, s: int, n: int, t: int) {
    && Alone(v, c, s) && 0 <= Pdi(n) < ENTRIES && v.mem[s][Pdi(n)] == Entry(t) && t in v.roles && t != s
    && 0 <= t < |v.mem|
    && (forall vpn {:trigger BootAt(v, s, vpn, n + 1)} | 0 <= vpn < HALF && vpn != n :: BootAt(v, s, vpn, n + 1))
  }

  lemma BootingFacts(v: Vm, c: Config, s: int, n: int)
    requires Booting(v, c, s, n)
    ensures Inv(v, c) && 0 <= s < |v.mem| == c.limit <= HALF
  {
  }

  lemma BootBegins(v: Vm, c: Config)
    requires Inv(v, c) && v.roles == map[] && c.image == map[] && Enabled(v, c, Alloc)
    ensures Booting(Apply(v, c, Alloc), c, NextFrame(v), 1)
  {
    AllocKeeps(v, c);
  }

  lemma TableSpans(w: int)
    ensures Pdi(w) * ENTRIES <= w < (Pdi(w) + 1) * ENTRIES
    ensures 0 <= w < HALF ==> 0 <= Pdi(w) < HALF / ENTRIES
  {
  }

  lemma TableFound(v: Vm, c: Config, s: int, n: int)
    requires Booting(v, c, s, n) && 0 < n < c.limit && Present(v.mem[s][Pdi(n)])
    ensures BootTabled(v, c, s, n, FrameOf(v.mem[s][Pdi(n)]))
  {
    hide Inv, Pti, FrameOf, Entry, Present;
    BootingFacts(v, c, s, n);
    ZeroIsAbsent();
    assert BootAt(v, s, n, n);
    var m := n + 1;
    forall w | 0 <= w < HALF && w != n ensures BootAt(v, s, w, m) {
      assert BootAt(v, s, w, n);
    }
  }

  /** A blank table for page n. */
  lemma TableAdded(v: Vm, c: Config, s: int, n: int)
    requires Booting(v, c, s, n) && 0 < n < c.limit && !Present(v.mem[s][Pdi(n)]) && Enabled(v, c, Alloc)
    ensures var t, v1 := NextFrame(v), Apply(v, c, Alloc);
      && Inv(v1, c) && 0 <= t < |v.mem| && v1.mem == v.mem[t := Zeroes()]
      && 0 <= Pdi(n) < ENTRIES
      && var v' := Vm(Poke(v1.mem, s, Pdi(n), Entry(t)), v1.firstFree, v1.avail, v1.roles, v1.fl);
      && BootTabled(v', c, s, n, t)
  {
    hide FreeListOk, KernelOk, Structured, Pti, FrameOf, Entry, Present, SameStructure;
    BootingFacts(v, c, s, n);
    AllocKeeps(v, c);
    var t, v1 := NextFrame(v), Apply(v, c, Alloc);
    var page := v1.mem[s][Pdi(n) := Entry(t)];
    StoreKeeps(v1, c, s, page);
    var v' := Apply(v1, c, Store(s, page));
    assert v'.mem == Poke(v1.mem, s, Pdi(n), Entry(t));
    assert v.mem[s][Pdi(n)] == 0 by {
      assert BootAt(v, s, n, n);
    }
    NewEntry(v, c, s, n, t);
    var m := n + 1;
    forall w | 0 <= w < HALF && w != n ensures BootAt(v', s, w, m) {
      assert BootAt(v, s, w, n);
      TableSpans(w);
      TableSpans(n);
    }
  }

  lemma NewEntry(v: Vm, c: Config, s: int, n: int, t: int)
    requires Booting(v, c, s, n) && 0 < n < HALF && t !in v.roles
    ensures forall i | 0 <= i < HALF / ENTRIES :: v.mem[s][i] != Entry(t)
  {
    hide Inv, Entry, FrameOf;
    forall i | 0 <= i < HALF / ENTRIES ensures v.mem[s][i] != Entry(t) {
      VpnLaws(i, 0);
      assert BootAt(v, s, i * ENTRIES, n);
    }
  }

  lemma PageEntered(v: Vm, c: Config, s: int, n: int, t: int)
    requires BootTabled(v, c, s, n, t) && 0 < n < HALF
    ensures Booting(Vm(Poke(v.mem, t, Pti(n), Entry(n)), v.firstFree, v.avail, v.roles, v.fl), c, s, n + 1)
  {
    hide FreeListOk, KernelOk, Structured, Pdi, Pti, FrameOf, Entry, SameStructure;
    var page := v.mem[t][Pti(n) := Entry(n)];
    StoreKeeps(v, c, t, page);
    var v' := Apply(v, c, Store(t, page));
    assert v'.mem == Poke(v.mem, t, Pti(n), Entry(n));
    var m := n + 1;
    forall w | 0 <= w < HALF ensures BootAt(v', s, w, m) {
      if w != n {
        assert BootAt(v, s, w, m);
        SameVpn(w, n);
        TableSpans(w);
        if v.mem[s][Pdi(w)] != 0 {
          OtherTable(v, s, w, n, t);
        }
      }
    }
  }

  lemma OtherTable(v: Vm, s: int, w: int, n: int, t: int)
    requires 0 <= s < |v.mem| && OneEach(v, s) && 0 <= w < HALF && 0 <= n < HALF
    requires v.mem[s][Pdi(n)] == Entry(t) && v.mem[s][Pdi(w)] == Entry(FrameOf(v.mem[s][Pdi(w)]))
    ensures FrameOf(v.mem[s][Pdi(w)]) == t ==> Pdi(w) == Pdi(n)
  {
    hide Entry, FrameOf;
  }

  function Sealed(v: Vm): Vm {
    Vm(v.mem, v.firstFree, v.avail, map f | f in v.roles :: Shared, v.fl)
  }

  function Image(v: Vm): map<int, Page> {
    map f | f in v.roles && 0 <= f < |v.mem| :: v.mem[f]
  }

  lemma SameRange(v: Vm, c: Config, c': Config)
    requires FreeListOk(v, c) && c'.start == c.start && c'.limit == c.limit
    ensures FreeListOk(v, c')
  {
    forall f ensures f in v.roles <==> Managed(v, c', f) {
      assert f in v.roles <==> Managed(v, c, f);
    }
    forall k | 0 <= k < |v.fl| ensures FreeAt(v, k) && ChainedAt(v, k) {
    }
  }

  /** From here on the kernel's tables are fixed, and there is no process yet. */
  lemma BootDone(v: Vm, c: Config, s: int, n: int)
    requires Booting(v, c, s, n) && (n == c.limit || (n == 1 && c.limit <= 1))
    ensures var c' := c.(shared := s, image := Image(v));
      Inv(Sealed(v), c') && IdentityImage(c') && SpecialsMapped(Sealed(v), c')
  {
    hide Pdi, Pti, FrameOf, Entry;
    var c', v' := c.(shared := s, image := Image(v)), Sealed(v);
    forall f | f in v'.roles ensures FrameOk(v'.mem, v'.roles, c', f) {
    }
    forall f ensures SameFree(v, v', f) {
    }
    FreeListStays(v, v', c);
    SameRange(v', c, c');
    assert Structured(v'.mem, v'.roles, c');
    forall f | f in c'.image ensures Pinned(v', c', f) {
    }
    assert KernelOk(v', c');
    forall vpn | 0 <= vpn < HALF ensures IdentityAt(c', vpn) {
      assert BootAt(v, s, vpn, n);
      InRange(v, c, s);
    }
  }
}
