/** What malloc and free of kernel/heap.cc do to the blocks and to the free list, and
    the laws of any run of them: the blocks always tile the array, live payloads never
    overlap, and freeing everything gives back the single block of heapInit. */
module HeapLaws {
  import opened BoundaryTags

  const WORD := 4
  const SCAN_LIMIT := 20
  const SIZE_T := 0x1_0000_0000

  /** A pointer into the heap, as the index of the word it addresses. */
  datatype Pointer = Null | To(word: int)

  // ---- heapInit ----

  function InitialBlocks(len: int): Blocks {
    map[0 := -2, 2 := len - 4, len - 2 := -2]
  }

  lemma InitialShape(len: int)
    requires len >= 8
    ensures HeapShape(InitialBlocks(len), [2], len)
  {
    var b := InitialBlocks(len);
    assert Holds([2], 0, 2);
    assert HasLeft(b, 2) by { assert 0 in b; }
    assert HasLeft(b, len - 2) by { assert 2 in b; }
  }

  /** The three writes of heapInit, over any memory. */
  lemma InitRepresents(s: seq<int>)
    requires |s| >= 8
    ensures var n := |s|;
      var s1 := SetTags(s, 0, -2);
      var s2 := Push(s1, 0, 2, n - 4);
      Represents(SetTags(s2, n - 2, -2), 2, InitialBlocks(n), [2])
  {
    var n := |s|;
    var s1 := SetTags(s, 0, -2);
    var s2 := Push(s1, 0, 2, n - 4);
    TakeKeeps(s, 0, map[], [], 0, 2);
    var b1 := map[][0 := -2];
    PushKeeps(s1, 0, b1, [], 2, n - 4);
    assert [2] + [] == [2];
    TakeKeeps(s2, 2, b1[2 := n - 4], [2], n - 2, 2);
    assert b1[2 := n - 4][n - 2 := -2] == InitialBlocks(n);
  }

  // ---- malloc ----

  /** Ints in a block for a request, tags included; `bytes + 3` is computed in a 32-bit size_t. */
  function BlockInts(bytes: nat): (ints: nat)
    ensures ints >= 4
  {
    var n := ((bytes + 3) % SIZE_T) / WORD + 2;
    if n < 4 then 4 else n
  }

  predicate Fits(b: Blocks, h: int, ints: int) {
    h in b && b[h] >= ints
  }

  /** How many of the first n blocks on the list are big enough. */
  function CountFits(b: Blocks, f: seq<int>, ints: int, n: nat): nat
    requires n <= |f|
  {
    if n == 0 then 0 else CountFits(b, f, ints, n - 1) + (if Fits(b, f[n - 1], ints) then 1 else 0)
  }

  /** The prefix that holds the first 20 fits, or the whole list if it has fewer. */
  predicate ScanEnd(b: Blocks, f: seq<int>, ints: int, n: int) {
    && 0 <= n <= |f|
    && (n > 0 ==> CountFits(b, f, ints, n - 1) < SCAN_LIMIT)
    && (n < |f| ==> CountFits(b, f, ints, n) == SCAN_LIMIT)
  }

  predicate FitsAt(b: Blocks, f: seq<int>, ints: int, j: int)
    requires 0 <= j < |f|
  {
    Fits(b, f[j], ints)
  }

  /** f[k] is the smallest block that fits among the first n; the earliest one of that size. */
  ghost predicate BestFit(b: Blocks, f: seq<int>, ints: int, n: int, k: int) {
    && 0 <= k < n <= |f|
    && Fits(b, f[k], ints)
    && (forall j {:trigger FitsAt(b, f, ints, j)} | 0 <= j < n ::
          FitsAt(b, f, ints, j) ==> b[f[k]] <= b[f[j]] && (j < k ==> b[f[k]] < b[f[j]]))
  }

  ghost predicate NoneFits(b: Blocks, ints: int) {
    forall h | h in b :: !Fits(b, h, ints)
  }

  ghost predicate Chosen(b: Blocks, f: seq<int>, ints: int, k: int) {
    exists n :: ScanEnd(b, f, ints, n) && BestFit(b, f, ints, n, k)
  }

  lemma {:induction false} CountFitsMonotone(b: Blocks, f: seq<int>, ints: int, m: nat, n: nat)
    requires m <= n <= |f|
    ensures CountFits(b, f, ints, m) <= CountFits(b, f, ints, n)
  {
    if m < n {
      CountFitsMonotone(b, f, ints, m, n - 1);
    }
  }

  /** The policy picks one block: two runs of the search cannot disagree. */
  lemma ChosenIsUnique(b: Blocks, f: seq<int>, ints: int, j: int, k: int)
    requires Chosen(b, f, ints, j) && Chosen(b, f, ints, k)
    ensures j == k
  {
    var m :| ScanEnd(b, f, ints, m) && BestFit(b, f, ints, m, j);
    var n :| ScanEnd(b, f, ints, n) && BestFit(b, f, ints, n, k);
    if m < n {
      CountFitsMonotone(b, f, ints, m, n - 1);
    } else if n < m {
      CountFitsMonotone(b, f, ints, n, m - 1);
    }
    assert FitsAt(b, f, ints, j) && FitsAt(b, f, ints, k);
  }

  /** The block malloc takes. */
  ghost predicate Picked(b: Blocks, f: seq<int>, ints: int, it: int) {
    exists k :: Chosen(b, f, ints, k) && f[k] == it
  }

  /** The block the user-mode malloc takes: the first that fits. */
  ghost predicate FirstFit(b: Blocks, f: seq<int>, ints: int, it: int) {
    && Fits(b, it, ints)
    && exists k :: 0 <= k < |f| && f[k] == it && Scanned(b, f, ints, k, -1)
  }

  /** What the search knows after n blocks: nothing fits yet (k == -1), or f[k] is the best. */
  ghost predicate Scanned(b: Blocks, f: seq<int>, ints: int, n: int, k: int) {
    && 0 <= n <= |f|
    && (if k == -1 then forall j {:trigger FitsAt(b, f, ints, j)} | 0 <= j < n :: !FitsAt(b, f, ints, j)
        else BestFit(b, f, ints, n, k))
  }

  lemma ScanStep(b: Blocks, f: seq<int>, ints: int, n: int, k: int)
    requires Scanned(b, f, ints, n, k) && n < |f| && f[n] in b
    ensures var better := b[f[n]] >= ints && (k == -1 || b[f[n]] < b[f[k]]);
      Scanned(b, f, ints, n + 1, if better then n else k)
  {
  }

  /** A list that was searched to its end holds every available block. */
  lemma NothingFound(b: Blocks, f: seq<int>, ints: int, len: int)
    requires HeapShape(b, f, len) && ints > 0 && Scanned(b, f, ints, |f|, -1)
    ensures NoneFits(b, ints)
  {
    forall h | h in b ensures !Fits(b, h, ints) {
      if b[h] > 0 {
        assert Listed(b, f, h);
        var j :| Holds(f, j, h);
        assert !FitsAt(b, f, ints, j);
      }
    }
  }

  predicate Splits(b: Blocks, it: int, ints: int)
    requires it in b
  {
    b[it] - ints >= 4
  }

  function AllocBlocks(b: Blocks, it: int, ints: int): Blocks
    requires it in b
  {
    if Splits(b, it, ints) then b[it := -ints][it + ints := b[it] - ints] else b[it := -b[it]]
  }

  /** malloc took `ints` words from block `it`. */
  ghost predicate Allocated(b: Blocks, f: seq<int>, it: int, ints: int, b': Blocks, f': seq<int>) {
    it in b && b[it] >= ints && b' == AllocBlocks(b, it, ints) && f' == AllocList(b, f, it, ints)
  }

  ghost function AllocList(b: Blocks, f: seq<int>, it: int, ints: int): seq<int>
    requires it in b
  {
    if Splits(b, it, ints) then [it + ints] + Without(f, it) else Without(f, it)
  }

  lemma WithoutMember(f: seq<int>, x: int, y: int)
    requires NoRepeats(f)
    ensures OnList(Without(f, x), y) <==> OnList(f, y) && y != x
  {
    if OnList(f, x) {
      var k :| Holds(f, k, x);
      WithoutIsDrop(f, k);
      DropMember(f, k, y);
    }
  }

  lemma WithoutFree(b: Blocks, f: seq<int>, x: int)
    requires FreeBlocks(b, f)
    ensures FreeBlocks(b, Without(f, x))
  {
    if OnList(f, x) {
      var k :| Holds(f, k, x);
      WithoutIsDrop(f, k);
      DropFree(b, f, k);
    }
  }

  lemma FreeBlocksOnly(b: Blocks, b': Blocks, f: seq<int>)
    requires FreeBlocks(b, f)
    requires forall x | OnList(f, x) :: x in b' && b'[x] == b[x]
    ensures FreeBlocks(b', f)
  {
    assert forall k | 0 <= k < |f| :: Holds(f, k, f[k]);
  }

  lemma PackedApart(b: Blocks, len: int, g: int, h: int)
    requires Packed(b, len) && g in b && h in b && g != h
    ensures Apart(g, Abs(b[g]), h, Abs(b[h]))
  {
  }

  lemma AllocPacked(b: Blocks, len: int, it: int, ints: int)
    requires Packed(b, len) && it in b && b[it] >= ints >= 4
    ensures Packed(AllocBlocks(b, it, ints), len)
    ensures Splits(b, it, ints) ==> it + ints !in b
  {
    var b' := AllocBlocks(b, it, ints);
    if Splits(b, it, ints) && it + ints in b {
      PackedApart(b, len, it, it + ints);
    }
    forall g, h | g in b' && h in b' && g != h ensures Apart(g, Abs(b'[g]), h, Abs(b'[h])) {
      var g0, h0 := if g in b then g else it, if h in b then h else it;
      if g0 != h0 {
        PackedApart(b, len, g0, h0);
      }
    }
  }

  lemma AllocTiled(b: Blocks, len: int, it: int, ints: int)
    requires Tiled(b, len) && it in b && b[it] >= ints >= 4
    ensures Tiled(AllocBlocks(b, it, ints), len)
  {
    var b' := AllocBlocks(b, it, ints);
    AllocPacked(b, len, it, ints);
    forall h | h in b' ensures HasRight(b', len, h) {
      assert HasRight(b, len, if h in b then h else it);
    }
    forall h | h in b' && h != 0 ensures HasLeft(b', h) {
      if h in b {
        assert HasLeft(b, h);
        var g := LeftOf(b, h);
        assert g in b' && (g == it && Splits(b, it, ints) ==> it + ints in b' && it + ints + Abs(b'[it + ints]) == h);
        assert g != it || !Splits(b, it, ints) ==> g + Abs(b'[g]) == h;
      } else {
        assert it in b' && it + Abs(b'[it]) == h;
      }
    }
  }

  lemma AllocKeepsFree(b: Blocks, f: seq<int>, len: int, it: int, ints: int)
    requires HeapShape(b, f, len) && it in b && b[it] >= ints >= 4
    ensures var b', f' := AllocBlocks(b, it, ints), AllocList(b, f, it, ints);
      && FreeBlocks(b', f')
      && AllListed(b', f')
  {
    var b', f' := AllocBlocks(b, it, ints), AllocList(b, f, it, ints);
    AllocPacked(b, len, it, ints);
    WithoutFree(b, f, it);
    var rest := Without(f, it);
    forall x | OnList(rest, x) ensures x in b' && b'[x] == b[x] && x in b {
      WithoutMember(f, it, x);
      FreeTag(b, f, x);
    }
    FreeBlocksOnly(b, b', Without(f, it));
    if Splits(b, it, ints) {
      PushedFree(b', Without(f, it), it + ints);
    }
    forall h | h in b' ensures Listed(b', f', h) {
      assert h in b ==> Listed(b, f, h);
      WithoutMember(f, it, h);
      if h in b && h != it && b[h] > 0 {
        OnListPushed(rest, it + ints, h);
      }
      assert Splits(b, it, ints) ==> Holds(f', 0, it + ints);
    }
  }

  lemma AllocKeepsShape(b: Blocks, f: seq<int>, len: int, it: int, ints: int)
    requires HeapShape(b, f, len) && it in b && b[it] >= ints >= 4
    ensures HeapShape(AllocBlocks(b, it, ints), AllocList(b, f, it, ints), len)
  {
    hide Tiled, FreeBlocks, AllListed, Coalesced;
    AllocTiled(b, len, it, ints);
    AllocKeepsFree(b, f, len, it, ints);
    AllocCoalesced(b, len, it, ints);
    AllocSizes(b, len, it, ints);
  }

  lemma AllocCoalesced(b: Blocks, len: int, it: int, ints: int)
    requires Tiled(b, len) && Coalesced(b) && it in b && b[it] >= ints >= 4
    ensures Coalesced(AllocBlocks(b, it, ints))
  {
    var b' := AllocBlocks(b, it, ints);
    forall h | h in b' ensures CoalescedAt(b', h) {
      assert CoalescedAt(b, if h in b then h else it);
      if h in b && h != it {
        PackedApart(b, len, h, it);
      }
    }
  }

  lemma AllocSizes(b: Blocks, len: int, it: int, ints: int)
    requires Tiled(b, len) && it in b && b[it] >= ints >= 4
    requires len - 2 in b && b[0] == -2 && b[len - 2] == -2 && forall h | h in b && !Sentinel(h, len) :: Abs(b[h]) >= 4
    ensures var b' := AllocBlocks(b, it, ints);
      && 0 in b' && len - 2 in b' && b'[0] == -2 && b'[len - 2] == -2
      && forall h | h in b' && !Sentinel(h, len) :: Abs(b'[h]) >= 4
  {
    AllocPacked(b, len, it, ints);
  }

  predicate Carvable(s: seq<int>, avail: int, it: int, mx: int, ints: int) {
    0 <= it && 4 <= ints <= mx && it + mx <= |s| && (avail != 0 ==> 0 < avail < |s| - 3)
  }

  /** The array and list head once malloc has tagged the unlinked block `it` of mx words. */
  function Carve(s: seq<int>, avail: int, it: int, mx: int, ints: int): (r: (seq<int>, int))
    requires Carvable(s, avail, it, mx, ints)
  {
    if mx - ints >= 4 then (Push(SetTags(s, it, -ints), avail, it + ints, mx - ints), it + ints)
    else (SetTags(s, it, -mx), avail)
  }

  lemma CarveFits(b: Blocks, s: seq<int>, avail: int, it: int, ints: int)
    requires Packed(b, |s|) && it in b && b[it] >= ints >= 4 && (avail != 0 ==> 0 < avail < |s| - 3)
    ensures Carvable(s, avail, it, b[it], ints)
  {
  }

  lemma ClearOf(b: Blocks, len: int, it: int, i: int, n: int)
    requires Packed(b, len) && it in b && it <= i && i + n <= it + Abs(b[it])
    ensures Clear(b - {it}, i, n)
  {
    forall h | h in b - {it} ensures h + Abs(b[h]) <= i || i + n <= h {
      PackedApart(b, len, h, it);
    }
  }

  /** Writes inside an available block keep the taken ones. */
  lemma KeepsOthers(s: seq<int>, s': seq<int>, b: Blocks, it: int)
    requires Packed(b, |s|) && it in b && b[it] > 0 && KeepsTaken(s, s', b - {it})
    ensures KeepsTaken(s, s', b)
  {
    forall h, x | TakenWord(b, h, x) && 0 <= x < |s| ensures s'[x] == s[x] {
      assert TakenWord(b - {it}, h, x);
    }
  }

  /** Tagging the unlinked block, whole or in two parts. */
  lemma CarveWhole(s: seq<int>, avail: int, b: Blocks, d: seq<int>, it: int)
    requires Packed(b, |s|) && it in b && b[it] >= 4
    requires Represents(s, avail, b - {it}, d)
    ensures Represents(SetTags(s, it, -b[it]), avail, b[it := -b[it]], d)
    ensures KeepsTaken(s, SetTags(s, it, -b[it]), b)
  {
    ClearOf(b, |s|, it, it, b[it]);
    TakeKeeps(s, avail, b - {it}, d, it, b[it]);
    KeepsOthers(s, SetTags(s, it, -b[it]), b, it);
    assert (b - {it})[it := -b[it]] == b[it := -b[it]];
  }

  lemma CarveSplit(s: seq<int>, avail: int, b: Blocks, d: seq<int>, it: int, ints: int)
    requires Packed(b, |s|) && it in b && b[it] - 4 >= ints >= 4 && it > 0
    requires Represents(s, avail, b - {it}, d)
    requires avail != 0 ==> 0 < avail < |s| - 3
    ensures var rest := b[it] - ints;
      var s2 := Push(SetTags(s, it, -ints), avail, it + ints, rest);
      && Represents(s2, it + ints, b[it := -ints][it + ints := rest], [it + ints] + d)
      && KeepsTaken(s, s2, b)
  {
    hide Represents;
    var b0, rest := b - {it}, b[it] - ints;
    var s1, b1 := SetTags(s, it, -ints), b0[it := -ints];
    var s2 := Push(s1, avail, it + ints, rest);
    ClearOf(b, |s|, it, it, ints);
    ClearOf(b, |s|, it, it + ints, rest);
    TakeKeeps(s, avail, b0, d, it, ints);
    PushKeeps(s1, avail, b1, d, it + ints, rest);
    forall h, x | TakenWord(b, h, x) && 0 <= x < |s| ensures s2[x] == s[x] {
      assert TakenWord(b0, h, x) && TakenWord(b1, h, x);
    }
    assert b1[it + ints := rest] == b[it := -ints][it + ints := rest];
  }

  lemma KeepsTakenTrans(s: seq<int>, s1: seq<int>, s2: seq<int>, b: Blocks)
    requires KeepsTaken(s, s1, b) && KeepsTaken(s1, s2, b)
    ensures KeepsTaken(s, s2, b)
  {
  }

  lemma KeepsTakenSelf(s: seq<int>, b: Blocks)
    ensures KeepsTaken(s, s, b)
  {
  }

  lemma FreeListed(s: seq<int>, avail: int, b: Blocks, f: seq<int>)
    requires Represents(s, avail, b, f)
    ensures NoRepeats(f)
  {
  }

  lemma UnlinkedRepresents(s: seq<int>, avail: int, b: Blocks, f: seq<int>, k: int)
    requires Represents(s, avail, b, f) && 0 <= k < |f|
    ensures Unlinkable(s, f[k])
    ensures var (s1, avail1) := Unlink(s, avail, f[k]);
      && Represents(s1, avail1, b, Without(f, f[k]))
      && Represents(s1, avail1, b - {f[k]}, Without(f, f[k]))
      && (avail1 != 0 ==> 0 < avail1 < |s| - 3)
      && KeepsTaken(s, s1, b)
  {
    hide Represents, KeepsTaken, Without;
    LinksInRange(s, avail, b, f);
    FreeListed(s, avail, b, f);
    var (s1, avail1) := Unlink(s, avail, f[k]);
    UnlinkKeeps(s, avail, b, f, k);
    WithoutIsDrop(f, k);
    DropMember(f, k, f[k]);
    LinksInRange(s1, avail1, b, Drop(f, k));
    ForgetKeeps(s1, avail1, b, Drop(f, k), {f[k]});
  }

  lemma WhereListed(s: seq<int>, avail: int, b: Blocks, f: seq<int>, it: int) returns (k: int)
    requires Represents(s, avail, b, f) && AllListed(b, f) && it in b && b[it] > 0
    ensures 0 <= k < |f| && f[k] == it && 0 < it < |s| - 3 && Packed(b, |s|)
  {
    assert Listed(b, f, it);
    k :| Holds(f, k, it);
    LinksInRange(s, avail, b, f);
  }

  lemma CarveRepresents(s: seq<int>, avail: int, b: Blocks, f: seq<int>, it: int, ints: int)
    requires Packed(b, |s|) && it in b && b[it] >= ints >= 4 && it > 0
    requires Represents(s, avail, b - {it}, Without(f, it))
    requires avail != 0 ==> 0 < avail < |s| - 3
    ensures var (s', avail') := Carve(s, avail, it, b[it], ints);
      && Represents(s', avail', AllocBlocks(b, it, ints), AllocList(b, f, it, ints))
      && KeepsTaken(s, s', b)
  {
    hide Represents, KeepsTaken, Push, SetTags, Without;
    if Splits(b, it, ints) {
      CarveSplit(s, avail, b, Without(f, it), it, ints);
    } else {
      CarveWhole(s, avail, b, Without(f, it), it);
    }
  }

  lemma ListHead(s: seq<int>, avail: int, b: Blocks, f: seq<int>)
    requires Represents(s, avail, b, f)
    ensures avail == At(f, 0) && (avail == 0 <==> |f| == 0)
  {
  }

  /** What the search reads at the n-th free block. */
  lemma FreeBlockWords(s: seq<int>, avail: int, b: Blocks, f: seq<int>, n: int)
    requires Represents(s, avail, b, f) && 0 <= n < |f|
    ensures 0 < f[n] < |s| - 3 && f[n] in b
    ensures s[f[n]] == b[f[n]] && 4 <= b[f[n]] <= |s| && s[f[n] + 1] == At(f, n + 1)
    ensures At(f, n + 1) == 0 <==> n + 1 == |f|
  {
    assert LinkedAt(s, f, n);
  }

  // ---- free ----

  /** Where the coalesced block starts and ends. */
  ghost function MergeStart(b: Blocks, h: int): int
    requires h in b && HasLeft(b, h)
  {
    var l := LeftOf(b, h);
    if b[l] > 0 then l else h
  }

  function MergeEnd(b: Blocks, h: int): int
    requires h in b
  {
    var r := h + Abs(b[h]);
    if r in b && b[r] > 0 then r + b[r] else r
  }

  /** The blocks that become one: the freed block and its available neighbours. */
  ghost function Swallowed(b: Blocks, h: int): set<int>
    requires h in b && HasLeft(b, h)
  {
    var l, r := LeftOf(b, h), h + Abs(b[h]);
    {h} + (if b[l] > 0 then {l} else {}) + (if r in b && b[r] > 0 then {r} else {})
  }

  ghost function FreedBlocks(b: Blocks, h: int): Blocks
    requires h in b && HasLeft(b, h)
  {
    (b - Swallowed(b, h))[MergeStart(b, h) := MergeEnd(b, h) - MergeStart(b, h)]
  }

  ghost function FreedList(b: Blocks, f: seq<int>, h: int): seq<int>
    requires h in b && HasLeft(b, h)
  {
    [MergeStart(b, h)] + FreedRest(b, f, h)
  }

  ghost function FreedRest(b: Blocks, f: seq<int>, h: int): seq<int>
    requires h in b && HasLeft(b, h)
  {
    Without(Without(f, LeftOf(b, h)), h + Abs(b[h]))
  }

  /** Every block is either swallowed or clear of the merged block. */
  lemma SwallowedOrClear(b: Blocks, len: int, h: int, g: int)
    requires Packed(b, len) && h in b && HasLeft(b, h) && g in b && g !in Swallowed(b, h)
    ensures g + Abs(b[g]) <= MergeStart(b, h) || MergeEnd(b, h) <= g
  {
    var l, r := LeftOf(b, h), h + Abs(b[h]);
    PackedApart(b, len, g, h);
    if g != l {
      PackedApart(b, len, g, l);
    }
    if r in b && g != r {
      PackedApart(b, len, g, r);
    }
  }

  lemma FreedPacked(b: Blocks, len: int, h: int)
    requires Packed(b, len) && h in b && HasLeft(b, h)
    ensures Packed(FreedBlocks(b, h), len)
    ensures MergeEnd(b, h) - MergeStart(b, h) >= Abs(b[h])
    ensures 0 <= MergeStart(b, h) <= h && MergeEnd(b, h) <= len
    ensures Clear(b - Swallowed(b, h), MergeStart(b, h), MergeEnd(b, h) - MergeStart(b, h))
  {
    var start, end, kept := MergeStart(b, h), MergeEnd(b, h), b - Swallowed(b, h);
    forall x, y | x in kept && y in kept && x != y ensures Apart(x, Abs(kept[x]), y, Abs(kept[y])) {
      PackedApart(b, len, x, y);
    }
    forall g | g in kept ensures g + Abs(kept[g]) <= start || end <= g {
      SwallowedOrClear(b, len, h, g);
    }
    AddBlock(kept, len, start, end - start);
  }

  lemma FreedHasRight(b: Blocks, len: int, h: int, g: int)
    requires Tiled(b, len) && h in b && HasLeft(b, h) && g in FreedBlocks(b, h)
    ensures HasRight(FreedBlocks(b, h), len, g)
  {
    var l, r, start := LeftOf(b, h), h + Abs(b[h]), MergeStart(b, h);
    assert HasRight(b, len, h);
    if g == start {
      if r in b {
        assert HasRight(b, len, r);
      }
    } else {
      assert HasRight(b, len, g);
      PackedApart(b, len, g, h);
      if g != l {
        PackedApart(b, len, g, l);
      }
    }
  }

  lemma FreedHasLeft(b: Blocks, len: int, h: int, g: int)
    requires Tiled(b, len) && h in b && HasLeft(b, h) && 0 !in Swallowed(b, h)
    requires g in FreedBlocks(b, h) && g != 0
    ensures HasLeft(FreedBlocks(b, h), g)
  {
    var b', l, r, start, end := FreedBlocks(b, h), LeftOf(b, h), h + Abs(b[h]), MergeStart(b, h), MergeEnd(b, h);
    assert HasLeft(b, g);
    var p := LeftOf(b, g);
    if p in Swallowed(b, h) && g != start {
      SwallowedOrClear(b, len, h, g);
      assert start in b' && start + Abs(b'[start]) == end == g;
    } else {
      assert g == start ==> p !in Swallowed(b, h);
      assert p in b' && p + Abs(b'[p]) == g;
    }
  }

  lemma FreedTiled(b: Blocks, len: int, h: int)
    requires Tiled(b, len) && h in b && HasLeft(b, h) && 0 !in Swallowed(b, h)
    ensures Tiled(FreedBlocks(b, h), len)
  {
    var b' := FreedBlocks(b, h);
    FreedPacked(b, len, h);
    forall g | g in b' ensures HasRight(b', len, g) {
      FreedHasRight(b, len, h, g);
    }
    forall g | g in b' && g != 0 ensures HasLeft(b', g) {
      FreedHasLeft(b, len, h, g);
    }
  }

  lemma FreeTag(b: Blocks, f: seq<int>, x: int)
    requires FreeBlocks(b, f) && OnList(f, x)
    ensures x in b && x > 0 && b[x] >= 4
  {
  }

  lemma FreedRestFree(b: Blocks, f: seq<int>, h: int)
    requires FreeBlocks(b, f) && h in b && HasLeft(b, h)
    ensures FreeBlocks(b, FreedRest(b, f, h))
  {
    WithoutFree(b, f, LeftOf(b, h));
    WithoutFree(b, Without(f, LeftOf(b, h)), h + Abs(b[h]));
  }

  lemma FreedRestMember(b: Blocks, f: seq<int>, h: int, x: int)
    requires FreeBlocks(b, f) && h in b && b[h] < 0 && HasLeft(b, h)
    ensures OnList(FreedRest(b, f, h), x) <==> OnList(f, x) && x !in Swallowed(b, h)
  {
    var l, r := LeftOf(b, h), h + Abs(b[h]);
    WithoutFree(b, f, l);
    WithoutMember(f, l, x);
    WithoutMember(Without(f, l), r, x);
    if OnList(f, x) {
      FreeTag(b, f, x);
    }
  }

  lemma FreedKeepsFree(b: Blocks, f: seq<int>, len: int, h: int)
    requires HeapShape(b, f, len) && Live(b, len, h) && HasLeft(b, h)
    ensures FreeBlocks(FreedBlocks(b, h), FreedList(b, f, h))
    ensures AllListed(FreedBlocks(b, h), FreedList(b, f, h))
  {
    var b', f' := FreedBlocks(b, h), FreedList(b, f, h);
    var f2, start := FreedRest(b, f, h), MergeStart(b, h);
    FreedRestFree(b, f, h);
    FreedPacked(b, len, h);
    forall x | OnList(f2, x) ensures x in b && x in b' && b'[x] == b[x] && x != start {
      FreedRestMember(b, f, h, x);
      FreeTag(b, f2, x);
    }
    FreeBlocksOnly(b, b', f2);
    PushedFree(b', f2, start);
    forall x | x in b' ensures Listed(b', f', x) {
      FreedListed(b, f, h, x);
    }
  }

  lemma FreedListed(b: Blocks, f: seq<int>, h: int, x: int)
    requires FreeBlocks(b, f) && AllListed(b, f) && h in b && b[h] < 0 && HasLeft(b, h)
    requires x in FreedBlocks(b, h)
    ensures Listed(FreedBlocks(b, h), FreedList(b, f, h), x)
  {
    var f' := FreedList(b, f, h);
    assert Holds(f', 0, MergeStart(b, h));
    if x != MergeStart(b, h) && b[x] > 0 {
      assert Listed(b, f, x);
      FreedRestMember(b, f, h, x);
      OnListPushed(FreedRest(b, f, h), MergeStart(b, h), x);
    }
  }

  lemma OnListPushed(f: seq<int>, y: int, x: int)
    requires OnList(f, x)
    ensures OnList([y] + f, x)
  {
    var k :| Holds(f, k, x);
    assert Holds([y] + f, k + 1, x);
  }

  lemma FreedCoalesced(b: Blocks, len: int, h: int)
    requires Tiled(b, len) && Coalesced(b) && h in b && HasLeft(b, h)
    ensures Coalesced(FreedBlocks(b, h))
  {
    var b', l, r := FreedBlocks(b, h), LeftOf(b, h), h + Abs(b[h]);
    FreedPacked(b, len, h);
    forall x | x in b' ensures CoalescedAt(b', x) {
      if x == MergeStart(b, h) {
        assert CoalescedAt(b, if r in b && b[r] > 0 then r else h);
      } else {
        assert CoalescedAt(b, x);
        PackedApart(b, len, x, h);
        if x != l {
          PackedApart(b, len, x, l);
        }
      }
    }
  }

  /** The low sentinel is never merged. */
  lemma MergeStartPositive(b: Blocks, len: int, h: int)
    requires Packed(b, len) && 0 in b && b[0] < 0 && h in b && h != 0 && HasLeft(b, h)
    ensures 0 < MergeStart(b, h) && 0 !in Swallowed(b, h)
  {
  }

  lemma FreeKeepsShape(b: Blocks, f: seq<int>, len: int, h: int)
    requires HeapShape(b, f, len) && Live(b, len, h)
    ensures HasLeft(b, h) && HeapShape(FreedBlocks(b, h), FreedList(b, f, h), len)
  {
    assert HasLeft(b, h);
    FreedTiled(b, len, h);
    FreedPacked(b, len, h);
    FreedKeepsFree(b, f, len, h);
    FreedCoalesced(b, len, h);
  }

  /** The neighbours that free finds from the two tags next to the block. */
  lemma NeighbourTags(s: seq<int>, b: Blocks, h: int)
    requires Tiled(b, |s|) && Tagged(s, b) && h in b && h != 0
    requires |s| - 2 in b && h < |s| - 2
    ensures HasLeft(b, h) && h - Abs(s[h - 1]) == LeftOf(b, h) < h && s[LeftOf(b, h)] == b[LeftOf(b, h)]
    ensures var r := h + Abs(b[h]); r in b && h < r && s[r] == b[r]
  {
    assert HasLeft(b, h) && HasRight(b, |s|, h);
    PackedApart(b, |s|, h, |s| - 2);
  }

  lemma Neighbours(s: seq<int>, avail: int, b: Blocks, f: seq<int>, h: int)
    requires Represents(s, avail, b, f) && HeapShape(b, f, |s|) && Live(b, |s|, h)
    ensures 0 < h < |s| && h in b && b[h] < 0 && AllListed(b, f) && HasLeft(b, h)
    ensures h - Abs(s[h - 1]) == LeftOf(b, h) && h + Abs(b[h]) in b
  {
    NeighbourTags(s, b, h);
  }

  /** What `free` knows of the neighbours before it takes them off the list. */
  lemma BeforeUnhooking(s: seq<int>, avail: int, b: Blocks, f: seq<int>, h: int)
    requires Represents(s, avail, b, f) && AllListed(b, f)
    requires 0 < h < |s| && h in b && HasLeft(b, h) && h + Abs(b[h]) in b
    ensures var l, r := LeftOf(b, h), h + Abs(b[h]);
      && s[h] == b[h] && FreedRest(b, f, h) == Without(Without(f, l), r)
      && (b[l] > 0 ==> OnList(f, l)) && (b[r] > 0 ==> OnList(Without(f, l), r))
  {
    var l, r := LeftOf(b, h), h + Abs(b[h]);
    assert Listed(b, f, l);
    StillListed(b, f, l, r);
  }

  lemma StillListed(b: Blocks, f: seq<int>, l: int, r: int)
    requires FreeBlocks(b, f) && AllListed(b, f) && r in b && r != l
    ensures b[r] > 0 ==> OnList(Without(f, l), r)
  {
    assert Listed(b, f, r);
    WithoutMember(f, l, r);
  }

  /** `if (isAvail(x)) remove(x)`. */
  function UnlinkIf(s: seq<int>, avail: int, x: int): (r: (seq<int>, int))
    requires 0 <= x < |s| && (s[x] > 0 ==> Unlinkable(s, x))
    ensures |r.0| == |s|
  {
    if s[x] > 0 then Unlink(s, avail, x) else (s, avail)
  }

  lemma UnlinkIfAvailable(s: seq<int>, avail: int, b: Blocks, f: seq<int>, x: int)
    requires Represents(s, avail, b, f) && x in b && (b[x] > 0 ==> OnList(f, x))
    ensures 0 <= x < |s| && (s[x] > 0 ==> Unlinkable(s, x))
    ensures var (s1, avail1) := UnlinkIf(s, avail, x);
      && Represents(s1, avail1, b, Without(f, x))
      && KeepsTaken(s, s1, b)
  {
    if OnList(f, x) {
      FreeTag(b, f, x);
      var k :| Holds(f, k, x);
      UnlinkedRepresents(s, avail, b, f, k);
    }
  }

  lemma MergeFits(b: Blocks, f: seq<int>, len: int, h: int)
    requires HeapShape(b, f, len) && Live(b, len, h) && HasLeft(b, h)
    ensures var start, n := MergeStart(b, h), MergeEnd(b, h) - MergeStart(b, h);
      0 < start && 4 <= n && start + n <= len && Clear(b - Swallowed(b, h), start, n)
    ensures forall x | x in Swallowed(b, h) :: !OnList(FreedRest(b, f, h), x)
  {
    hide FreedRest;
    forall x | x in Swallowed(b, h) ensures !OnList(FreedRest(b, f, h), x) {
      FreedRestMember(b, f, h, x);
    }
    MergeStartPositive(b, len, h);
    FreedPacked(b, len, h);
  }

  /** The merged block goes on the list once its parts are off it. */
  lemma MergeRepresents(s: seq<int>, avail: int, b: Blocks, f: seq<int>, h: int)
    requires HeapShape(b, f, |s|) && Live(b, |s|, h) && HasLeft(b, h)
    requires Represents(s, avail, b, FreedRest(b, f, h))
    ensures var start, n := MergeStart(b, h), MergeEnd(b, h) - MergeStart(b, h);
      && Pushable(s, avail, start, n)
      && Represents(Push(s, avail, start, n), start, FreedBlocks(b, h), FreedList(b, f, h))
      && KeepsTaken(s, Push(s, avail, start, n), b - Swallowed(b, h))
  {
    hide HeapShape, Represents, KeepsTaken, Clear, FreedRest, Swallowed, MergeStart, MergeEnd, Push;
    var rest := FreedRest(b, f, h);
    MergeFits(b, f, |s|, h);
    LinksInRange(s, avail, b, rest);
    ForgetKeeps(s, avail, b, rest, Swallowed(b, h));
    var start, n := MergeStart(b, h), MergeEnd(b, h) - MergeStart(b, h);
    PushKeeps(s, avail, b - Swallowed(b, h), rest, start, n);
    assert FreedBlocks(b, h) == (b - Swallowed(b, h))[start := n] && FreedList(b, f, h) == [start] + rest;
  }

  /** Taken blocks other than the freed one are not swallowed. */
  lemma KeepsOtherTaken(s: seq<int>, s1: seq<int>, s2: seq<int>, b: Blocks, h: int)
    requires h in b && HasLeft(b, h)
    requires KeepsTaken(s, s1, b) && KeepsTaken(s1, s2, b - Swallowed(b, h))
    ensures KeepsTaken(s, s2, b - {h})
  {
    forall g, x | TakenWord(b - {h}, g, x) && 0 <= x < |s| ensures s2[x] == s[x] {
      assert TakenWord(b, g, x) && TakenWord(b - Swallowed(b, h), g, x);
    }
  }

  // ---- laws ----

  /** free after malloc restores every block; the block comes back at the head of the list. */
  lemma FreeUndoesMalloc(b: Blocks, f: seq<int>, len: int, it: int, ints: int)
    requires HeapShape(b, f, len) && it in b && b[it] >= ints >= 4
    ensures var b', f' := AllocBlocks(b, it, ints), AllocList(b, f, it, ints);
      && Live(b', len, it) && HasLeft(b', it)
      && FreedBlocks(b', it) == b
      && FreedList(b', f', it) == [it] + Without(f, it)
  {
    AllocKeepsShape(b, f, len, it, ints);
    assert HasLeft(AllocBlocks(b, it, ints), it);
    FreeUndoesBlocks(b, len, it, ints);
    FreeUndoesList(b, f, len, it, ints);
  }

  lemma FreeUndoesBlocks(b: Blocks, len: int, it: int, ints: int)
    requires Tiled(b, len) && Coalesced(b) && it in b && b[it] >= ints >= 4
    requires HasLeft(AllocBlocks(b, it, ints), it)
    ensures MergeStart(AllocBlocks(b, it, ints), it) == it
    ensures FreedBlocks(AllocBlocks(b, it, ints), it) == b
  {
    LeftOfAvailable(b, len, it, ints);
    AllocPacked(b, len, it, ints);
    assert CoalescedAt(b, it);
  }

  lemma FreeUndoesList(b: Blocks, f: seq<int>, len: int, it: int, ints: int)
    requires Tiled(b, len) && Coalesced(b) && FreeBlocks(b, f) && it in b && b[it] >= ints >= 4
    requires HasLeft(AllocBlocks(b, it, ints), it) && MergeStart(AllocBlocks(b, it, ints), it) == it
    requires FreeBlocks(AllocBlocks(b, it, ints), AllocList(b, f, it, ints))
    ensures FreedList(AllocBlocks(b, it, ints), AllocList(b, f, it, ints), it) == [it] + Without(f, it)
  {
    var b', f', rest := AllocBlocks(b, it, ints), AllocList(b, f, it, ints), Without(f, it);
    var l, r := LeftOf(b', it), it + Abs(b'[it]);
    AllocPacked(b, len, it, ints);
    if OnList(f', l) {
      FreeTag(b', f', l);
    }
    WithoutMember(f, it, r);
    assert CoalescedAt(b, it);
    if OnList(f, r) {
      FreeTag(b, f, r);
    }
    WithoutSplit(f', rest, l, r, Splits(b, it, ints));
    assert FreedRest(b', f', it) == Without(Without(f', l), r);
  }

  lemma WithoutSplit(f': seq<int>, rest: seq<int>, l: int, r: int, split: bool)
    requires !OnList(f', l) && !OnList(rest, r) && f' == (if split then [r] + rest else rest)
    ensures Without(Without(f', l), r) == rest
  {
    if split {
      WithoutHead(r, rest);
    }
  }

  lemma WithoutHead(x: int, f: seq<int>)
    requires !OnList(f, x)
    ensures Without([x] + f, x) == f
  {
    var g := [x] + f;
    assert Holds(g, 0, x);
    forall k | Holds(g, k, x) ensures k == 0 {
      assert k > 0 ==> Holds(f, k - 1, x);
    }
    assert Drop(g, 0) == f;
  }

  /** The left neighbour of the block malloc took from is taken. */
  lemma LeftOfAvailable(b: Blocks, len: int, it: int, ints: int)
    requires Tiled(b, len) && Coalesced(b) && it in b && b[it] >= ints >= 4
    requires HasLeft(AllocBlocks(b, it, ints), it)
    ensures var l := LeftOf(AllocBlocks(b, it, ints), it); l in b && l != it && b[l] < 0
  {
    var l := LeftOf(AllocBlocks(b, it, ints), it);
    assert l in b;
    assert CoalescedAt(b, l);
  }

  /** When nothing is allocated the heap is one block again: no memory is lost to fragmentation. */
  lemma NothingLiveIsInitial(b: Blocks, f: seq<int>, len: int)
    requires HeapShape(b, f, len)
    requires forall h :: !Live(b, len, h)
    ensures b == InitialBlocks(len) && f == [2]
  {
    assert HasRight(b, len, 0) && 2 in b && b[2] > 0 by {
      assert !Live(b, len, 2);
    }
    assert HasRight(b, len, 2) && Listed(b, f, 2) && CoalescedAt(b, 2);
    PackedApart(b, len, 2, len - 2);
    var r := 2 + b[2];
    assert r == len - 2 by {
      assert !Live(b, len, r);
    }
    forall h | h in b ensures h == 0 || h == 2 || h == len - 2 {
      if h != 0 && h != 2 && h != len - 2 {
        PackedApart(b, len, h, 0);
        PackedApart(b, len, h, 2);
        PackedApart(b, len, h, len - 2);
      }
    }
    assert forall k | 0 <= k < |f| :: f[k] == 2;
    var j :| Holds(f, j, 2);
    assert |f| > 1 ==> Differ(f, 0, 1);
  }

  /** Every word of the array belongs to exactly one block. */
  lemma TilingCovers(b: Blocks, len: int, i: int)
    requires Tiled(b, len) && 0 <= i < len
    ensures exists h :: h in b && h <= i < h + Abs(b[h])
    ensures forall g, h | g in b && h in b && g <= i < g + Abs(b[g]) && h <= i < h + Abs(b[h]) :: g == h
  {
    CoveredFrom(b, len, 0, i);
    forall g, h | g in b && h in b && g <= i < g + Abs(b[g]) && h <= i < h + Abs(b[h])
      ensures g == h
    {
      if g != h {
        PackedApart(b, len, g, h);
      }
    }
  }

  lemma {:induction false} CoveredFrom(b: Blocks, len: int, h: int, i: int)
    requires Tiled(b, len) && h in b && h <= i < len
    ensures exists g :: g in b && g <= i < g + Abs(b[g])
    decreases len - h
  {
    if i >= h + Abs(b[h]) {
      assert HasRight(b, len, h);
      CoveredFrom(b, len, h + Abs(b[h]), i);
    }
  }

  /** The words a caller owns: between the two tags of a live block. */
  predicate InPayload(b: Blocks, h: int, i: int)
    requires h in b
  {
    h < i < h + Abs(b[h]) - 1
  }

  lemma PayloadsDisjoint(b: Blocks, f: seq<int>, len: int, g: int, h: int, i: int)
    requires HeapShape(b, f, len) && Live(b, len, g) && Live(b, len, h)
    requires InPayload(b, g, i) && InPayload(b, h, i)
    ensures g == h
  {
    if g != h {
      PackedApart(b, len, g, h);
    }
  }

  lemma StoreRepresents(s: seq<int>, avail: int, b: Blocks, f: seq<int>, h: int, i: int, value: int)
    requires Represents(s, avail, b, f) && h in b && b[h] < 0 && InPayload(b, h, i)
    ensures 0 <= i < |s| && Represents(s[i := value], avail, b, f)
  {
    var s' := s[i := value];
    forall g | g in b ensures s'[g] == b[g] && s'[g + Abs(b[g]) - 1] == b[g] {
      if g != h {
        PackedApart(b, |s|, g, h);
      }
    }
    forall k | 0 <= k < |f| ensures LinkedAt(s', f, k) {
      assert LinkedAt(s, f, k);
      PackedApart(b, |s|, f[k], h);
    }
  }

  /** A block allocated for `bytes` holds that many, exactly when `bytes + 3` does not wrap. */
  lemma PayloadHoldsRequest(b: Blocks, it: int, bytes: nat)
    requires it in b && b[it] >= BlockInts(bytes) && bytes < SIZE_T
    ensures WORD * (Abs(AllocBlocks(b, it, BlockInts(bytes))[it]) - 2) >= bytes <==> bytes <= SIZE_T - 4
  {
  }

  /** n words from dst on in s' are the n words from src on in s. */
  ghost predicate Copied(s: seq<int>, s': seq<int>, src: int, dst: int, n: int) {
    && 0 <= src && 0 <= dst && src + n <= |s| && dst + n <= |s'|
    && (forall x | dst <= x < dst + n :: s'[x] == s[x - dst + src])
  }

  /** A copy in progress: i words done, nothing else touched. */
  ghost predicate Copying(s: seq<int>, s': seq<int>, src: int, dst: int, i: int) {
    && |s| == |s'| && Copied(s, s', src, dst, i)
    && (forall x | 0 <= x < |s| && !(dst <= x < dst + i) :: s'[x] == s[x])
  }

  lemma CopyStep(s: seq<int>, s': seq<int>, src: int, dst: int, i: nat)
    requires Copying(s, s', src, dst, i) && src + i < |s| && dst + i < |s|
    requires src + i < dst || dst + i <= src
    ensures Copying(s, s'[dst + i := s'[src + i]], src, dst, i + 1)
  {
  }

  /** Only payload words of block h differ. */
  ghost predicate OnlyPayloadDiffers(s: seq<int>, s': seq<int>, b: Blocks, h: int)
    requires h in b
  {
    && |s| == |s'|
    && (forall x | 0 <= x < |s| && !InPayload(b, h, x) :: s'[x] == s[x])
  }

  /** The first n words at pointer q are those that block p - 1 held at p. */
  ghost predicate CarriesOver(s: seq<int>, s': seq<int>, b: Blocks, p: int, q: int, n: int) {
    && |s| == |s'| && 0 <= q && q + n <= |s'| && p - 1 in b
    && (forall x | q <= x < q + n && InPayload(b, p - 1, x - q + p) && 0 <= x - q + p < |s| ::
          s'[x] == s[x - q + p])
  }

  /** What r bytes of a little-endian word can hold. */
  function Low(r: int): int {
    if r == 1 then 0x100 else if r == 2 then 0x1_0000 else 0x100_0000
  }

  /** The low r bytes of two words are the same. */
  predicate SameLow(w: int, v: int, r: int) {
    w % Low(r) == v % Low(r)
  }

  /** The bytes of m that do not make a word are copied too. */
  ghost predicate RestCopied(s: seq<int>, s': seq<int>, src: int, dst: int, m: nat) {
    m % WORD > 0 ==>
      && 0 <= src + m / WORD < |s| && 0 <= dst + m / WORD < |s'|
      && SameLow(s'[dst + m / WORD], s[src + m / WORD], m % WORD)
  }

  /** So are those of the size asked for, as far as the old block has them. */
  ghost predicate CarriesRest(s: seq<int>, s': seq<int>, b: Blocks, p: int, q: int, size: nat) {
    p - 1 in b && size % WORD > 0 && InPayload(b, p - 1, p + size / WORD) ==>
      && 0 <= p + size / WORD < |s| && 0 <= q + size / WORD < |s'|
      && SameLow(s'[q + size / WORD], s[p + size / WORD], size % WORD)
  }

  lemma LowBytes(w: int, v: int, r: int)
    requires 1 <= r <= 3
    ensures SameLow(w - w % Low(r) + v % Low(r), v, r)
  {
    if r == 1 {
      LowByte(w / 0x100, v % 0x100);
    } else if r == 2 {
      LowTwo(w / 0x1_0000, v % 0x1_0000);
    } else {
      LowThree(w / 0x100_0000, v % 0x100_0000);
    }
  }

  lemma LowByte(q: int, x: int)
    requires 0 <= x < 0x100
    ensures (0x100 * q + x) % 0x100 == x
  {
  }

  lemma LowTwo(q: int, x: int)
    requires 0 <= x < 0x1_0000
    ensures (0x1_0000 * q + x) % 0x1_0000 == x
  {
  }

  lemma LowThree(q: int, x: int)
    requires 0 <= x < 0x100_0000
    ensures (0x100_0000 * q + x) % 0x100_0000 == x
  {
  }

  /** realloc of pointer p to q: the other blocks keep every word; a block at q is big enough and
      starts with what fits of the old payload. */
  ghost predicate Resized(s: seq<int>, s': seq<int>, b: Blocks, b': Blocks, p: int, q: Pointer, newSize: nat) {
    && KeepsTaken(s, s', b - {p - 1})
    && (q.To? ==>
          && q.word - 1 in b' && WORD * (Abs(b'[q.word - 1]) - 2) >= newSize
          && CarriesOver(s, s', b, p, q.word, newSize / WORD) && CarriesRest(s, s', b, p, q.word, newSize))
  }

  /** Frames of realloc's copy (s1 to s2) and free (s2 to s3). */
  lemma MoveFrames(s1: seq<int>, s2: seq<int>, s3: seq<int>, b: Blocks, p: int, q: int, bytes: nat, size: nat)
    requires Packed(b, |s1|) && p - 1 in b && b[p - 1] < 0 && q - 1 in b && b[q - 1] < 0 && p != q
    requires OnlyPayloadDiffers(s1, s2, b, q - 1) && KeepsTaken(s2, s3, b - {p - 1})
    requires Copied(s1, s2, p, q, bytes / WORD) && RestCopied(s1, s2, p, q, bytes)
    requires size <= WORD * (Abs(b[q - 1]) - 2) && (bytes == size || bytes == WORD * Abs(b[p - 1]))
    ensures KeepsTaken(s1, s3, b - {p - 1, q - 1})
    ensures CarriesOver(s1, s3, b, p, q, size / WORD) && CarriesRest(s1, s3, b, p, q, size)
  {
    hide SameLow;
    var rest, n := b - {p - 1, q - 1}, size / WORD;
    forall g, x | TakenWord(rest, g, x) && 0 <= x < |s1| ensures s3[x] == s1[x] {
      assert TakenWord(b - {p - 1}, g, x);
      PackedApart(b, |s1|, g, q - 1);
    }
    forall x | q <= x < q + n && InPayload(b, p - 1, x - q + p) && 0 <= x - q + p < |s1|
      ensures s3[x] == s1[x - q + p]
    {
      assert TakenWord(b - {p - 1}, q - 1, x);
    }
    if size % WORD > 0 && InPayload(b, p - 1, p + n) {
      assert TakenWord(b - {p - 1}, q - 1, q + n);
      assert bytes != size ==> s2[q + n] == s1[p + n];
      SameLowSelf(s1[p + n], size % WORD);
    }
  }

  lemma SameLowSelf(w: int, r: int)
    ensures SameLow(w, w, r)
  {
  }

  /** realloc reads at most up to the header that follows the old block, never into the new one. */
  lemma CopyRange(b: Blocks, f: seq<int>, len: int, h: int, q: int, m: nat)
    requires HeapShape(b, f, len) && Live(b, len, h) && Live(b, len, q) && h != q
    requires m <= WORD * Abs(b[h]) && m <= WORD * (Abs(b[q]) - 2)
    ensures h + 1 + (m + 3) / WORD <= len && q + 1 + (m + 3) / WORD <= len
    ensures h + 1 + (m + 3) / WORD <= q + 1 || q + 1 + (m + 3) / WORD <= h + 1
  {
    PackedApart(b, len, h, q);
    PackedApart(b, len, h, len - 2);
  }

  lemma FreedKeepsLive(b: Blocks, len: int, h: int, q: int)
    requires Packed(b, len) && h in b && HasLeft(b, h) && q in b && b[q] < 0 && q != h
    ensures q in FreedBlocks(b, h) && FreedBlocks(b, h)[q] == b[q]
  {
    assert q !in Swallowed(b, h);
    FreedPacked(b, len, h);
  }

  /** malloc (s to s1) before the move (s1 to s3). */
  lemma ReallocFrames(s: seq<int>, s1: seq<int>, s3: seq<int>, b: Blocks, f: seq<int>, b1: Blocks, f1: seq<int>,
                      p: int, q: int, bytes: nat)
    requires HeapShape(b, f, |s|) && Live(b, |s|, p - 1)
    requires bytes > 0 && UserMallocStep(b, f, bytes, To(q), b1, f1)
    requires KeepsTaken(s, s1, b) && KeepsTaken(s1, s3, b1 - {p - 1, q - 1})
    requires CarriesOver(s1, s3, b1, p, q, bytes / WORD) && CarriesRest(s1, s3, b1, p, q, bytes)
    ensures KeepsTaken(s, s3, b - {p - 1})
    ensures CarriesOver(s, s3, b, p, q, bytes / WORD) && CarriesRest(s, s3, b, p, q, bytes)
  {
    hide SameLow;
    var rest, rest1, n := b - {p - 1}, b1 - {p - 1, q - 1}, bytes / WORD;
    AllocPacked(b, |s|, q - 1, BlockInts(bytes));
    forall g, x | TakenWord(rest, g, x) && 0 <= x < |s| ensures s3[x] == s[x] {
      assert TakenWord(b, g, x) && TakenWord(rest1, g, x);
    }
    forall x | q <= x < q + n && InPayload(b, p - 1, x - q + p) && 0 <= x - q + p < |s|
      ensures s3[x] == s[x - q + p]
    {
      assert TakenWord(b, p - 1, x - q + p) && InPayload(b1, p - 1, x - q + p);
    }
    if InPayload(b, p - 1, p + n) {
      assert TakenWord(b, p - 1, p + n) && InPayload(b1, p - 1, p + n);
    }
  }

  // ---- runs ----

  /** malloc(bytes) == p: null exactly when no available block is big enough, and otherwise the
      payload of the smallest of the first 20 that are. */
  ghost predicate MallocStep(b: Blocks, f: seq<int>, bytes: nat, p: Pointer, b': Blocks, f': seq<int>) {
    if bytes == 0 then p == To(0) && b' == b && f' == f
    else if p == Null then NoneFits(b, BlockInts(bytes)) && b' == b && f' == f
    else Picked(b, f, BlockInts(bytes), p.word - 1) && Allocated(b, f, p.word - 1, BlockInts(bytes), b', f')
  }

  /** The same for the user-mode heap, which takes the first block that fits. */
  ghost predicate UserMallocStep(b: Blocks, f: seq<int>, bytes: nat, p: Pointer, b': Blocks, f': seq<int>) {
    if bytes == 0 then p == To(0) && b' == b && f' == f
    else if p == Null then NoneFits(b, BlockInts(bytes)) && b' == b && f' == f
    else FirstFit(b, f, BlockInts(bytes), p.word - 1) && Allocated(b, f, p.word - 1, BlockInts(bytes), b', f')
  }

  /** free(p), for p null, the array itself, or a block: a block that is not taken is a panic. */
  ghost predicate FreeStep(b: Blocks, f: seq<int>, p: Pointer, panicked: bool, b': Blocks, f': seq<int>) {
    if p == Null || p == To(0) then !panicked && b' == b && f' == f
    else
      var h := p.word - 1;
      h in b && panicked == (b[h] > 0)
      && (if panicked then b' == b && f' == f
          else HasLeft(b, h) && b' == FreedBlocks(b, h) && f' == FreedList(b, f, h))
  }

  /** realloc(p, newSize) == q: the old block is freed whether there is a new one or not. */
  ghost predicate ReallocStep(b: Blocks, f: seq<int>, p: Pointer, newSize: nat, q: Pointer, b': Blocks, f': seq<int>) {
    if p.Null? then UserMallocStep(b, f, newSize, q, b', f')
    else if FreeStep(b, f, p, true, b', f') then q == Null
    else if newSize == 0 then q == Null && FreeStep(b, f, p, false, b', f')
    else exists b1, f1 :: UserMallocStep(b, f, newSize, q, b1, f1) && FreeStep(b1, f1, p, false, b', f')
  }

  datatype HeapOp =
    | Realloc(before: Pointer, newSize: nat, result: Pointer)
    | Malloc(bytes: nat, result: Pointer)
    | UserMalloc(bytes: nat, result: Pointer)
    | Free(p: Pointer)

  ghost predicate HeapStep(b: Blocks, f: seq<int>, op: HeapOp, b': Blocks, f': seq<int>, len: int) {
    match op
    case Malloc(bytes, p) => MallocStep(b, f, bytes, p, b', f')
    case UserMalloc(bytes, p) => UserMallocStep(b, f, bytes, p, b', f')
    case Realloc(p, newSize, q) =>
      (p.To? ==> p.word != 0 && !Sentinel(p.word - 1, len)) && ReallocStep(b, f, p, newSize, q, b', f')
    case Free(p) => (p.To? ==> !Sentinel(p.word - 1, len)) && FreeStep(b, f, p, false, b', f')
  }

  /** The block handed out was available, and is available no more. */
  lemma MallocHandsOut(b: Blocks, f: seq<int>, bytes: nat, p: Pointer, b': Blocks, f': seq<int>, len: int)
    requires HeapShape(b, f, len) && 0 < bytes < SIZE_T && p != Null
    requires MallocStep(b, f, bytes, p, b', f') || UserMallocStep(b, f, bytes, p, b', f')
    ensures !Live(b, len, p.word - 1) && Live(b', len, p.word - 1)
    ensures WORD * (Abs(b'[p.word - 1]) - 2) >= bytes <==> bytes <= SIZE_T - 4
    ensures forall h | Live(b, len, h) :: Live(b', len, h) && b'[h] == b[h]
  {
    AllocPacked(b, len, p.word - 1, BlockInts(bytes));
    PayloadHoldsRequest(b, p.word - 1, bytes);
  }

  /** The smallest block with room for its tags, its links while it is free, and `bytes` rounded up to words;
      a request so big that rounding wraps gets the smallest of all. */
  function Needed(bytes: nat): int {
    if bytes <= 4 * 2 || bytes > SIZE_T - 4 then 4 else 2 + (bytes + 3) / 4
  }

  /** A block is handed out at `it` that is big enough and has less than a block's worth of ints to spare.
      What it leaves of the free block it comes from is free, right behind it; no other block changes. */
  ghost predicate CutOut(b: Blocks, b': Blocks, bytes: nat, it: int) {
    && it in b && b[it] > 0 && it in b' && b'[it] < 0
    && Needed(bytes) <= -b'[it] < Needed(bytes) + 4
    && (var left := b[it] + b'[it];
        if left == 0 then b'.Keys == b.Keys
        else left >= 4 && b'.Keys == b.Keys + {it - b'[it]} && it - b'[it] !in b && b'[it - b'[it]] == left)
    && (forall h | h in b && h != it :: b'[h] == b[h])
  }

  /** How much malloc takes, and what it leaves. */
  lemma MallocTakesLittle(b: Blocks, f: seq<int>, bytes: nat, p: Pointer, b': Blocks, f': seq<int>, len: int)
    requires HeapShape(b, f, len) && 0 < bytes < SIZE_T && p != Null
    requires MallocStep(b, f, bytes, p, b', f') || UserMallocStep(b, f, bytes, p, b', f')
    ensures CutOut(b, b', bytes, p.word - 1)
  {
    hide CutOut;
    CutOutOf(b, len, p.word - 1, bytes);
  }

  lemma NeededIs(bytes: nat)
    requires 0 < bytes < SIZE_T
    ensures BlockInts(bytes) == Needed(bytes) >= 4
  {
  }

  lemma CutOutOf(b: Blocks, len: int, it: int, bytes: nat)
    requires Packed(b, len) && it in b && b[it] >= BlockInts(bytes) && 0 < bytes < SIZE_T
    ensures CutOut(b, AllocBlocks(b, it, BlockInts(bytes)), bytes, it)
  {
    hide BlockInts, Needed;
    NeededIs(bytes);
    var next := it + BlockInts(bytes);
    if next in b {
      PackedApart(b, len, it, next);
    }
  }

  /** The block at p is live no more, the one at q is and was not, and every other that was live still is. */
  ghost predicate HandedOver(b: Blocks, b': Blocks, len: int, p: int, q: Pointer) {
    && !Live(b', len, p - 1) && (q != Null ==> !Live(b, len, q.word - 1) && Live(b', len, q.word - 1))
    && (forall h | Live(b, len, h) && h != p - 1 :: Live(b', len, h) && b'[h] == b[h])
  }

  /** What realloc hands back was not live and is, the old block is live no more, and every other block that
      was live still is. */
  lemma ReallocMoves(b: Blocks, f: seq<int>, p: Pointer, newSize: nat, q: Pointer, b': Blocks, f': seq<int>, len: int)
    requires HeapShape(b, f, len) && p.To? && Live(b, len, p.word - 1) && newSize < SIZE_T
    requires ReallocStep(b, f, p, newSize, q, b', f')
    ensures HandedOver(b, b', len, p.word, q)
    ensures q == Null && newSize > 0 ==> NoneFits(b, BlockInts(newSize))
    ensures q != Null ==> (WORD * (Abs(b'[q.word - 1]) - 2) >= newSize <==> newSize <= SIZE_T - 4)
  {
    hide HeapShape, UserMallocStep, FreedBlocks, FreedList;
    LiveInside(b, f, len, p.word - 1);
    if newSize == 0 {
      FreeLetsGo(b, f, len, p.word - 1);
      return;
    }
    var b1, f1 :| UserMallocStep(b, f, newSize, q, b1, f1) && FreeStep(b1, f1, p, false, b', f');
    StepKeepsShape(b, f, UserMalloc(newSize, q), b1, f1, len);
    if q != Null {
      MallocHandsOut(b, f, newSize, q, b1, f1, len);
    } else {
      NothingHandedOut(b, f, newSize, b1, f1);
    }
    FreeLetsGo(b1, f1, len, p.word - 1);
  }

  lemma LiveInside(b: Blocks, f: seq<int>, len: int, h: int)
    requires HeapShape(b, f, len) && Live(b, len, h)
    ensures 0 < h < len
  {
  }

  lemma LiveIsTaken(b: Blocks, f: seq<int>, len: int, p: int)
    requires HeapShape(b, f, len) && Live(b, len, p - 1)
    ensures p > 1 && forall b', f' :: !FreeStep(b, f, To(p), true, b', f')
  {
  }

  lemma FreeingIsFree(b: Blocks, f: seq<int>, len: int, h: int)
    requires HeapShape(b, f, len) && Live(b, len, h)
    ensures HasLeft(b, h) && FreeStep(b, f, To(h + 1), false, FreedBlocks(b, h), FreedList(b, f, h))
  {
  }

  lemma FreeSpares(b: Blocks, f: seq<int>, len: int, h: int, q: int, b': Blocks, f': seq<int>)
    requires HeapShape(b, f, len) && Live(b, len, h) && Live(b, len, q) && h != q
    requires FreeStep(b, f, To(h + 1), false, b', f')
    ensures q in b' && b'[q] == b[q]
  {
    FreedKeepsLive(b, len, h, q);
  }

  lemma NothingHandedOut(b: Blocks, f: seq<int>, bytes: nat, b': Blocks, f': seq<int>)
    requires UserMallocStep(b, f, bytes, Null, b', f') && bytes > 0
    ensures b' == b && f' == f && NoneFits(b, BlockInts(bytes))
  {
  }

  /** A freed block is live no more; the others are. */
  lemma FreeLetsGo(b: Blocks, f: seq<int>, len: int, h: int)
    requires HeapShape(b, f, len) && Live(b, len, h) && HasLeft(b, h)
    ensures !Live(FreedBlocks(b, h), len, h)
    ensures forall g | Live(b, len, g) && g != h :: Live(FreedBlocks(b, h), len, g) && FreedBlocks(b, h)[g] == b[g]
  {
    MergeStartPositive(b, len, h);
    forall g | Live(b, len, g) && g != h ensures Live(FreedBlocks(b, h), len, g) && FreedBlocks(b, h)[g] == b[g] {
      FreedKeepsLive(b, len, h, g);
    }
  }

  lemma StepKeepsShape(b: Blocks, f: seq<int>, op: HeapOp, b': Blocks, f': seq<int>, len: int)
    requires HeapShape(b, f, len) && HeapStep(b, f, op, b', f', len)
    ensures HeapShape(b', f', len)
    decreases op.Realloc?
  {
    match op
    case Free(p) =>
      if p.To? && p.word != 0 {
        FreeKeepsShape(b, f, len, p.word - 1);
      }
    case Realloc(p, newSize, q) =>
      if p.Null? {
        StepKeepsShape(b, f, UserMalloc(newSize, q), b', f', len);
      } else if FreeStep(b, f, p, true, b', f') {
      } else if newSize == 0 {
        StepKeepsShape(b, f, Free(p), b', f', len);
      } else {
        var b1, f1 :| UserMallocStep(b, f, newSize, q, b1, f1) && FreeStep(b1, f1, p, false, b', f');
        StepKeepsShape(b, f, UserMalloc(newSize, q), b1, f1, len);
        StepKeepsShape(b1, f1, Free(p), b', f', len);
      }
    case _ =>
      if op.bytes > 0 && op.result != Null {
        AllocKeepsShape(b, f, len, op.result.word - 1, BlockInts(op.bytes));
      }
  }

  datatype HeapState = HeapState(blocks: Blocks, free: seq<int>)

  ghost predicate HeapRun(run: seq<HeapState>, ops: seq<HeapOp>, len: int) {
    && |run| == |ops| + 1
    && run[0] == HeapState(InitialBlocks(len), [2])
    && (forall i | 0 <= i < |ops| ::
          HeapStep(run[i].blocks, run[i].free, ops[i], run[i + 1].blocks, run[i + 1].free, len))
  }

  /** Any sequence of malloc and free, from heapInit on, keeps the heap well formed; if nothing
      is live at the end, the heap is exactly what heapInit made. */
  lemma {:induction false} RunKeepsShape(run: seq<HeapState>, ops: seq<HeapOp>, len: int)
    requires len >= 8 && HeapRun(run, ops, len)
    ensures HeapShape(run[|ops|].blocks, run[|ops|].free, len)
    ensures (forall h :: !Live(run[|ops|].blocks, len, h)) ==> run[|ops|] == run[0]
    decreases |ops|
  {
    if |ops| == 0 {
      InitialShape(len);
    } else {
      var n := |ops| - 1;
      assert HeapRun(run[..|ops|], ops[..n], len);
      RunKeepsShape(run[..|ops|], ops[..n], len);
      var b, f, b', f' := run[n].blocks, run[n].free, run[n + 1].blocks, run[n + 1].free;
      assert HeapStep(b, f, ops[n], b', f', len);
      StepKeepsShape(b, f, ops[n], b', f', len);
    }
    if forall h :: !Live(run[|ops|].blocks, len, h) {
      NothingLiveIsInitial(run[|ops|].blocks, run[|ops|].free, len);
    }
  }
}
