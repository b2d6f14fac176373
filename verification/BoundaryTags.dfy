/** The block structure of kernel/heap.cc seen as values: the int array as a
    `seq<int>`, the set of blocks as a map from header index to signed tag
    (positive: available, negative: taken), and the `avail` list as a sequence of
    header indices.  The class in KernelHeap.dfy is proved against these definitions. */
module BoundaryTags {

  type Blocks = map<int, int>

  function Abs(x: int): (r: nat) {
    if x < 0 then -x else x
  }

  /** Blocks lie inside the array, have room for both tags, and do not overlap. */
  ghost predicate Packed(b: Blocks, len: int) {
    && (forall h | h in b :: 0 <= h && Abs(b[h]) >= 2 && h + Abs(b[h]) <= len)
    && (forall g, h {:trigger Apart(g, Abs(b[g]), h, Abs(b[h]))} |
          g in b && h in b && g != h :: Apart(g, Abs(b[g]), h, Abs(b[h])))
  }

  /** The m words from g and the n words from h are disjoint. */
  predicate Apart(g: int, m: int, h: int, n: int) {
    g + m <= h || h + n <= g
  }

  /** Header and footer of every block hold its tag. */
  ghost predicate Tagged(s: seq<int>, b: Blocks)
    requires Packed(b, |s|)
  {
    forall h {:trigger b[h]} | h in b :: s[h] == b[h] && s[h + Abs(b[h]) - 1] == b[h]
  }

  /** Element k of the list, or 0 (the source's null index) outside it. */
  function At(f: seq<int>, k: int): int {
    if 0 <= k < |f| then f[k] else 0
  }

  /** x is the k-th element of f. */
  predicate Holds(f: seq<int>, k: int, x: int) {
    0 <= k < |f| && f[k] == x
  }

  ghost predicate OnList(f: seq<int>, x: int) {
    exists k :: Holds(f, k, x)
  }

  ghost predicate FreeBlocks(b: Blocks, f: seq<int>) {
    && (forall k {:trigger f[k]} | 0 <= k < |f| :: f[k] in b && f[k] > 0 && b[f[k]] >= 4)
    && NoRepeats(f)
  }

  ghost predicate NoRepeats(f: seq<int>) {
    forall j, k {:trigger Differ(f, j, k)} | 0 <= j < k < |f| :: Differ(f, j, k)
  }

  predicate Differ(f: seq<int>, j: int, k: int)
    requires 0 <= j < |f| && 0 <= k < |f|
  {
    f[j] != f[k]
  }

  /** `avail` and the next/prev words of the free blocks spell out exactly `f`. */
  ghost predicate Linked(s: seq<int>, avail: int, b: Blocks, f: seq<int>)
    requires Packed(b, |s|) && FreeBlocks(b, f)
  {
    && avail == At(f, 0)
    && (forall k {:trigger LinkedAt(s, f, k)} | 0 <= k < |f| :: LinkedAt(s, f, k))
  }

  /** The next and prev words of the k-th free block. */
  predicate LinkedAt(s: seq<int>, f: seq<int>, k: int)
    requires 0 <= k < |f| && 0 <= f[k] < |s| - 2
  {
    s[f[k] + 1] == At(f, k + 1) && s[f[k] + 2] == At(f, k - 1)
  }

  /** The array represents blocks `b` and free list `f`; holds in the middle of an operation too. */
  ghost predicate Represents(s: seq<int>, avail: int, b: Blocks, f: seq<int>) {
    Packed(b, |s|) && Tagged(s, b) && FreeBlocks(b, f) && Linked(s, avail, b, f)
  }

  /** The blocks cover the array from 0 to len without a gap. */
  ghost predicate Tiled(b: Blocks, len: int) {
    && Packed(b, len)
    && 0 in b
    && (forall h {:trigger HasRight(b, len, h)} | h in b :: HasRight(b, len, h))
    && (forall h {:trigger HasLeft(b, h)} | h in b && h != 0 :: HasLeft(b, h))
  }

  predicate HasRight(b: Blocks, len: int, h: int)
    requires h in b
  {
    h + Abs(b[h]) == len || h + Abs(b[h]) in b
  }

  ghost predicate HasLeft(b: Blocks, h: int) {
    exists g :: g in b && g + Abs(b[g]) == h
  }

  ghost function LeftOf(b: Blocks, h: int): (g: int)
    requires HasLeft(b, h)
    ensures g in b && g + Abs(b[g]) == h
  {
    var g :| g in b && g + Abs(b[g]) == h;
    g
  }

  predicate Sentinel(h: int, len: int) {
    h == 0 || h == len - 2
  }

  predicate CoalescedAt(b: Blocks, h: int)
    requires h in b
  {
    b[h] > 0 && h + b[h] in b ==> b[h + b[h]] < 0
  }

  /** No two neighbouring blocks are both available. */
  ghost predicate Coalesced(b: Blocks) {
    forall h {:trigger CoalescedAt(b, h)} | h in b :: CoalescedAt(b, h)
  }

  /** What holds between operations. */
  ghost predicate HeapShape(b: Blocks, f: seq<int>, len: int) {
    && len >= 8
    && Tiled(b, len)
    && len - 2 in b && b[0] == -2 && b[len - 2] == -2
    && (forall h | h in b && !Sentinel(h, len) :: Abs(b[h]) >= 4)
    && FreeBlocks(b, f)
    && AllListed(b, f)
    && Coalesced(b)
  }

  /** The list misses no available block. */
  ghost predicate AllListed(b: Blocks, f: seq<int>) {
    forall h {:trigger Listed(b, f, h)} | h in b :: Listed(b, f, h)
  }

  ghost predicate Listed(b: Blocks, f: seq<int>, h: int)
    requires h in b
  {
    b[h] > 0 ==> OnList(f, h)
  }

  ghost predicate Live(b: Blocks, len: int, h: int) {
    h in b && b[h] < 0 && !Sentinel(h, len)
  }

  /** Word x belongs to the taken block h. */
  predicate TakenWord(b: Blocks, h: int, x: int) {
    h in b && b[h] < 0 && h <= x < h + Abs(b[h])
  }

  /** Every word of every taken block of `b`, tags and payload, is the same in both arrays. */
  ghost predicate KeepsTaken(s: seq<int>, s': seq<int>, b: Blocks) {
    && |s| == |s'|
    && (forall h, x {:trigger TakenWord(b, h, x)} | TakenWord(b, h, x) && 0 <= x < |s| :: s'[x] == s[x])
  }

  // ---- the private operations on the array ----

  function SetTags(s: seq<int>, i: int, tag: int): (s': seq<int>)
    requires 0 <= i && Abs(tag) >= 1 && i + Abs(tag) <= |s|
    ensures |s'| == |s|
  {
    s[i := tag][i + Abs(tag) - 1 := tag]
  }

  predicate Unlinkable(s: seq<int>, i: int) {
    && 0 <= i < |s| - 2
    && (s[i + 2] != 0 ==> 0 <= s[i + 2] < |s| - 1)
    && (s[i + 1] != 0 ==> 0 <= s[i + 1] < |s| - 2)
  }

  predicate Pushable(s: seq<int>, avail: int, i: int, n: int) {
    0 <= i && n >= 4 && i + n <= |s| && (avail != 0 ==> 0 <= avail < |s| - 2)
  }

  /** `remove`: unlink block i. */
  function Unlink(s: seq<int>, avail: int, i: int): (r: (seq<int>, int))
    requires Unlinkable(s, i)
    ensures |r.0| == |s|
  {
    var prev, next := s[i + 2], s[i + 1];
    var s1 := if prev == 0 then s else s[prev + 1 := next];
    var s2 := if next == 0 then s1 else s1[next + 2 := prev];
    (s2, if prev == 0 then next else avail)
  }

  /** `makeAvail`: tag block i as available and put it at the head of the list. */
  function Push(s: seq<int>, avail: int, i: int, n: int): (s': seq<int>)
    requires Pushable(s, avail, i, n)
    ensures |s'| == |s|
  {
    var t := SetTags(s, i, n)[i + 1 := avail][i + 2 := 0];
    if avail == 0 then t else t[avail + 2 := i]
  }

  function Drop(f: seq<int>, k: int): (r: seq<int>)
    requires 0 <= k < |f|
    ensures |r| == |f| - 1
  {
    seq(|f| - 1, i requires 0 <= i < |f| - 1 => f[if i < k then i else i + 1])
  }

  /** The list without x. */
  ghost function Without(f: seq<int>, x: int): (r: seq<int>)
    ensures !OnList(f, x) ==> r == f
  {
    if OnList(f, x) then
      var k :| Holds(f, k, x);
      Drop(f, k)
    else f
  }

  lemma WithoutIsDrop(f: seq<int>, k: int)
    requires 0 <= k < |f| && NoRepeats(f)
    ensures Without(f, f[k]) == Drop(f, k)
  {
    assert Holds(f, k, f[k]);
    forall j | Holds(f, j, f[k]) ensures j == k {
      assert j < k ==> Differ(f, j, k);
      assert k < j ==> Differ(f, k, j);
    }
  }

  lemma DropMember(f: seq<int>, k: int, x: int)
    requires 0 <= k < |f| && NoRepeats(f)
    ensures OnList(Drop(f, k), x) <==> OnList(f, x) && x != f[k]
  {
    var d := Drop(f, k);
    if OnList(d, x) {
      var i :| Holds(d, i, x);
      assert Holds(f, if i < k then i else i + 1, x);
      assert if i < k then Differ(f, i, k) else Differ(f, k, i + 1);
    }
    if OnList(f, x) && x != f[k] {
      var i :| Holds(f, i, x);
      assert Holds(d, if i < k then i else i - 1, x);
    }
  }

  lemma DropFree(b: Blocks, f: seq<int>, k: int)
    requires 0 <= k < |f| && FreeBlocks(b, f)
    ensures FreeBlocks(b, Drop(f, k))
  {
    var d := Drop(f, k);
    forall i, j | 0 <= i < j < |d| ensures Differ(d, i, j) {
      assert Differ(f, if i < k then i else i + 1, if j < k then j else j + 1);
    }
  }

  // ---- each private operation keeps the representation ----

  /** The links stay inside the array, so `remove` and `makeAvail` are well defined. */
  lemma LinksInRange(s: seq<int>, avail: int, b: Blocks, f: seq<int>)
    requires Represents(s, avail, b, f)
    ensures avail != 0 ==> 0 < avail < |s| - 3
    ensures forall k | 0 <= k < |f| ::
      && 0 < f[k] < |s| - 3
      && (s[f[k] + 1] != 0 ==> 0 < s[f[k] + 1] < |s| - 3)
      && (s[f[k] + 2] != 0 ==> 0 < s[f[k] + 2] < |s| - 3)
  {
    forall k | 0 <= k < |f| ensures
      && 0 < f[k] < |s| - 3
      && (s[f[k] + 1] != 0 ==> 0 < s[f[k] + 1] < |s| - 3)
      && (s[f[k] + 2] != 0 ==> 0 < s[f[k] + 2] < |s| - 3)
    {
      assert LinkedAt(s, f, k);
    }
  }

  /** `s'` differs from `s` only in next/prev words of blocks on the list. */
  ghost predicate OnlyLinksDiffer(s: seq<int>, s': seq<int>, f: seq<int>) {
    && |s| == |s'|
    && (forall x | 0 <= x < |s| && s'[x] != s[x] ::
          exists k :: 0 <= k < |f| && (x == f[k] + 1 || x == f[k] + 2))
  }

  lemma LinkWritesFrame(s: seq<int>, s': seq<int>, b: Blocks, f: seq<int>)
    requires Packed(b, |s|) && Tagged(s, b) && FreeBlocks(b, f)
    requires OnlyLinksDiffer(s, s', f)
    ensures Tagged(s', b) && KeepsTaken(s, s', b)
  {
    forall h, x | h in b && h <= x < h + Abs(b[h]) && s'[x] != s[x]
      ensures b[h] >= 4 && (x == h + 1 || x == h + 2)
    {
      var k :| 0 <= k < |f| && (x == f[k] + 1 || x == f[k] + 2);
      assert f[k] != h ==> Apart(f[k], Abs(b[f[k]]), h, Abs(b[h]));
    }
    forall h | h in b ensures s'[h] == b[h] && s'[h + Abs(b[h]) - 1] == b[h] {
      assert s[h] == b[h] && s[h + Abs(b[h]) - 1] == b[h];
    }
  }

  lemma FreeApart(s: seq<int>, b: Blocks, f: seq<int>, i: int, j: int)
    requires Packed(b, |s|) && FreeBlocks(b, f) && 0 <= i < |f|
    ensures 0 <= j < |f| && i != j ==> f[i] + 4 <= f[j] || f[j] + 4 <= f[i]
  {
    if 0 <= j < |f| && i != j {
      assert if i < j then Differ(f, i, j) else Differ(f, j, i);
      assert Apart(f[i], Abs(b[f[i]]), f[j], Abs(b[f[j]]));
    }
  }

  lemma UnlinkWrites(s: seq<int>, avail: int, b: Blocks, f: seq<int>, k: int)
    requires Represents(s, avail, b, f) && 0 <= k < |f|
    requires Unlinkable(s, f[k])
    ensures var s' := Unlink(s, avail, f[k]).0;
      && OnlyLinksDiffer(s, s', f)
      && (forall x | 0 <= x < |s| :: s'[x] ==
            if k + 1 < |f| && x == f[k + 1] + 2 then At(f, k - 1)
            else if k > 0 && x == f[k - 1] + 1 then At(f, k + 1)
            else s[x])
  {
    assert LinkedAt(s, f, k);
  }

  lemma AtDrop(f: seq<int>, k: int, j: int)
    requires 0 <= k < |f|
    ensures At(Drop(f, k), j) == At(f, if j < k then j else j + 1)
  {
  }

  /** The link words of the blocks that stay on the list, after `remove` of the k-th. */
  lemma UnlinkWords(s: seq<int>, avail: int, b: Blocks, f: seq<int>, k: int, o: int)
    requires Represents(s, avail, b, f) && 0 <= k < |f| && 0 <= o < |f| && o != k
    requires Unlinkable(s, f[k])
    ensures var s' := Unlink(s, avail, f[k]).0;
      && s'[f[o] + 1] == (if o == k - 1 then At(f, k + 1) else At(f, o + 1))
      && s'[f[o] + 2] == (if o == k + 1 then At(f, k - 1) else At(f, o - 1))
  {
    hide Unlink;
    assert LinkedAt(s, f, o);
    FreeApart(s, b, f, o, k - 1);
    FreeApart(s, b, f, o, k + 1);
    UnlinkWrites(s, avail, b, f, k);
  }

  /** If the words around f[k] skip it, they link the list without f[k]. */
  lemma LinkedDrop(s': seq<int>, f: seq<int>, k: int, j: int, o: int)
    requires 0 <= k < |f| && 0 <= j < |f| - 1 && o == (if j < k then j else j + 1)
    requires 0 <= f[o] < |s'| - 2
    requires s'[f[o] + 1] == (if o == k - 1 then At(f, k + 1) else At(f, o + 1))
    requires s'[f[o] + 2] == (if o == k + 1 then At(f, k - 1) else At(f, o - 1))
    ensures Drop(f, k)[j] == f[o] && LinkedAt(s', Drop(f, k), j)
  {
    AtDrop(f, k, j);
    AtDrop(f, k, j + 1);
    AtDrop(f, k, j - 1);
  }

  lemma UnlinkKeeps(s: seq<int>, avail: int, b: Blocks, f: seq<int>, k: int)
    requires Represents(s, avail, b, f) && 0 <= k < |f|
    requires Unlinkable(s, f[k])
    ensures var r := Unlink(s, avail, f[k]);
      && Represents(r.0, r.1, b, Drop(f, k))
      && KeepsTaken(s, r.0, b)
  {
    var (s', avail') := Unlink(s, avail, f[k]);
    var d := Drop(f, k);
    assert Tagged(s', b) && KeepsTaken(s, s', b) by {
      UnlinkWrites(s, avail, b, f, k);
      LinkWritesFrame(s, s', b, f);
    }
    DropFree(b, f, k);
    forall j | 0 <= j < |d| ensures LinkedAt(s', d, j) {
      var o := if j < k then j else j + 1;
      UnlinkWords(s, avail, b, f, k, o);
      LinkedDrop(s', f, k, j, o);
    }
    assert avail' == At(d, 0) by {
      assert LinkedAt(s, f, k);
      AtDrop(f, k, 0);
    }
  }

  ghost predicate Clear(b: Blocks, i: int, n: int) {
    forall h | h in b :: h + Abs(b[h]) <= i || i + n <= h
  }

  lemma AddBlock(b: Blocks, len: int, i: int, tag: int)
    requires Packed(b, len) && 0 <= i && Abs(tag) >= 2 && i + Abs(tag) <= len && Clear(b, i, Abs(tag))
    ensures i !in b && Packed(b[i := tag], len)
  {
    var b' := b[i := tag];
    forall g, h | g in b' && h in b' && g != h ensures Apart(g, Abs(b'[g]), h, Abs(b'[h])) {
      assert g in b && h in b ==> Apart(g, Abs(b[g]), h, Abs(b[h]));
    }
  }

  lemma TakeKeeps(s: seq<int>, avail: int, b: Blocks, f: seq<int>, i: int, n: int)
    requires Represents(s, avail, b, f)
    requires 0 <= i && 2 <= n && i + n <= |s| && Clear(b, i, n)
    ensures Represents(SetTags(s, i, -n), avail, b[i := -n], f)
    ensures KeepsTaken(s, SetTags(s, i, -n), b)
  {
    var s', b' := SetTags(s, i, -n), b[i := -n];
    AddBlock(b, |s|, i, -n);
    forall k | 0 <= k < |f| ensures LinkedAt(s', f, k) {
      assert LinkedAt(s, f, k);
    }
  }

  lemma PushedFree(b: Blocks, f: seq<int>, x: int)
    requires FreeBlocks(b, f) && !OnList(f, x) && x in b && x > 0 && b[x] >= 4
    ensures FreeBlocks(b, [x] + f)
  {
    var f' := [x] + f;
    forall j, k | 0 <= j < k < |f'| ensures Differ(f', j, k) {
      assert f'[k] == f[k - 1] && (f[k - 1] == x ==> Holds(f, k - 1, x));
      assert j > 0 ==> Differ(f, j - 1, k - 1);
    }
  }

  /** Words 1 and 2 of block g, after block i went to the head of the list. */
  lemma PushWords(s: seq<int>, avail: int, i: int, n: int, g: int)
    requires Pushable(s, avail, i, n) && 0 <= g < |s| - 2
    requires avail != 0 ==> Apart(avail, 4, i, n)
    requires g == i || (Apart(g, 4, i, n) && (avail == 0 || g == avail || Apart(g, 4, avail, 4)))
    ensures var s' := Push(s, avail, i, n);
      && s'[g + 1] == (if g == i then avail else s[g + 1])
      && s'[g + 2] == (if g == i then 0 else if avail != 0 && g == avail then i else s[g + 2])
  {
  }

  lemma PushLink(s: seq<int>, avail: int, b: Blocks, f: seq<int>, i: int, n: int, k: int)
    requires Packed(b, |s|) && FreeBlocks(b, f) && Linked(s, avail, b, f)
    requires 0 < i && 4 <= n && i + n <= |s| && Clear(b, i, n) && 0 <= k <= |f|
    requires Pushable(s, avail, i, n)
    ensures LinkedAt(Push(s, avail, i, n), [i] + f, k)
  {
    var f' := [i] + f;
    assert At(f', 1) == At(f, 0);
    if k == 0 {
      PushWords(s, avail, i, n, i);
    } else {
      assert LinkedAt(s, f, k - 1);
      FreeApart(s, b, f, k - 1, 0);
      PushWords(s, avail, i, n, f[k - 1]);
      assert At(f', k + 1) == At(f, k);
      assert k > 1 ==> At(f', k - 1) == At(f, k - 2);
    }
  }

  lemma PushKeeps(s: seq<int>, avail: int, b: Blocks, f: seq<int>, i: int, n: int)
    requires Represents(s, avail, b, f)
    requires 0 < i && 4 <= n && i + n <= |s| && Clear(b, i, n)
    requires Pushable(s, avail, i, n)
    ensures Represents(Push(s, avail, i, n), i, b[i := n], [i] + f)
    ensures KeepsTaken(s, Push(s, avail, i, n), b)
  {
    var s0 := SetTags(s, i, n)[i + 1 := avail][i + 2 := 0];
    var s', b', f' := Push(s, avail, i, n), b[i := n], [i] + f;
    AddBlock(b, |s|, i, n);
    assert KeepsTaken(s, s0, b) && Tagged(s0, b');
    assert !OnList(f, i) && FreeBlocks(b', f);
    PushedFree(b', f, i);
    assert OnlyLinksDiffer(s0, s', f') by {
      assert avail != 0 ==> f'[1] == avail;
    }
    LinkWritesFrame(s0, s', b', f');
    forall k | 0 <= k < |f'| ensures LinkedAt(s', f', k) {
      PushLink(s, avail, b, f, i, n, k);
    }
    forall h, x | TakenWord(b, h, x) && 0 <= x < |s| ensures s'[x] == s[x] {
      assert TakenWord(b', h, x);
    }
  }

  /** Forgetting blocks that are not on the list. */
  lemma ForgetKeeps(s: seq<int>, avail: int, b: Blocks, f: seq<int>, gone: set<int>)
    requires Represents(s, avail, b, f)
    requires forall x | x in gone :: !OnList(f, x)
    ensures Represents(s, avail, b - gone, f)
  {
    var b' := b - gone;
    forall g, h | g in b' && h in b' && g != h ensures Apart(g, Abs(b'[g]), h, Abs(b'[h])) {
      assert Apart(g, Abs(b[g]), h, Abs(b[h]));
    }
    assert FreeBlocks(b', f) by {
      assert forall k {:trigger f[k]} | 0 <= k < |f| :: Holds(f, k, f[k]);
    }
  }
}
