/** The kernel heap of kernel/heap.cc: one int array that holds tags, links and payloads,
    rewritten in place.  A pointer is the index of the word it addresses; index 0 is the
    address of the array itself, which malloc(0) returns. */
module KernelHeap {
  import opened BoundaryTags
  import opened HeapLaws

  const INT_MAX := 0x7FFFFFFF

  class Heap {
    const words: array<int>
    var avail: int
    var lock: Pointer
    ghost var blocks: Blocks
    ghost var free: seq<int>

    ghost predicate Valid()
      reads this, words
    {
      && words.Length < INT_MAX
      && Represents(words[..], avail, blocks, free)
      && HeapShape(blocks, free, words.Length)
    }

    /** `heapInit`, on memory with arbitrary contents, and the heap's first block: its own lock, whose size
        is an argument.  Without room for the lock, `operator new` panics. */
    constructor (base: array<int>, lockBytes: nat)
      requires 8 <= base.Length < INT_MAX && 0 < lockBytes < SIZE_T
      modifies base
      ensures Valid() && words == base
      ensures MallocStep(InitialBlocks(base.Length), [2], lockBytes, lock, blocks, free)
      ensures lock != Null ==> Live(blocks, base.Length, lock.word - 1)
    {
      hide HeapShape, Represents, MallocStep, Live;
      words, avail, lock := base, 0, Null;
      blocks, free := map[], [];
      new;
      Layout();
      lock := Malloc(lockBytes);
      if lock != Null {
        MallocHandsOut(InitialBlocks(words.Length), [2], lockBytes, lock, blocks, free, words.Length);
      }
    }

    /** `heap_init` of the user library, whose heap has no lock. */
    constructor UserInit(base: array<int>)
      requires 8 <= base.Length < INT_MAX
      modifies base
      ensures Valid() && words == base && lock == Null
      ensures blocks == InitialBlocks(base.Length) && free == [2]
    {
      words, avail, lock := base, 0, Null;
      blocks, free := map[], [];
      new;
      Layout();
    }

    /** One free block between two taken ones. */
    method Layout()
      requires 8 <= words.Length < INT_MAX && avail == 0
      modifies words, this`avail, this`blocks, this`free
      ensures Valid() && blocks == InitialBlocks(words.Length) && free == [2]
    {
      ghost var n := words.Length;
      MakeTaken(0, 2);
      MakeAvail(2, words.Length - 4);
      MakeTaken(words.Length - 2, 2);
      blocks, free := InitialBlocks(n), [2];
      InitRepresents(old(words[..]));
      InitialShape(n);
    }

    method Remove(i: int)
      requires Unlinkable(words[..], i)
      modifies words, this`avail
      ensures (words[..], avail) == Unlink(old(words[..]), old(avail), i)
    {
      var prevIndex := words[i + 2];
      var nextIndex := words[i + 1];
      if prevIndex == 0 {
        avail := nextIndex;
      } else {
        words[prevIndex + 1] := nextIndex;
      }
      if nextIndex != 0 {
        words[nextIndex + 2] := prevIndex;
      }
    }

    method MakeAvail(i: int, ints: int)
      requires Pushable(words[..], avail, i, ints)
      modifies words, this`avail
      ensures words[..] == Push(old(words[..]), old(avail), i, ints) && avail == i
    {
      words[i] := ints;
      words[i + Abs(words[i]) - 1] := ints;
      words[i + 1] := avail;
      words[i + 2] := 0;
      if avail != 0 {
        words[avail + 2] := i;
      }
      avail := i;
    }

    method MakeTaken(i: int, ints: int)
      requires 0 <= i && ints >= 1 && i + ints <= words.Length
      modifies words
      ensures words[..] == SetTags(old(words[..]), i, -ints)
    {
      words[i] := -ints;
      words[i + Abs(words[i]) - 1] := -ints;
    }

    /** `malloc`: the smallest of the first 20 blocks on the list that fit, split when at least
        four words are left over; null exactly when no available block is big enough. */
    method Malloc(bytes: nat) returns (p: Pointer)
      requires Valid() && bytes < SIZE_T
      modifies this`avail, this`blocks, this`free, words
      ensures Valid()
      ensures MallocStep(old(blocks), old(free), bytes, p, blocks, free)
      ensures p != Null && bytes > 0 ==> CutOut(old(blocks), blocks, bytes, p.word - 1)
      ensures p == Null || bytes == 0 ==> words[..] == old(words[..])
      ensures KeepsTaken(old(words[..]), words[..], old(blocks))
    {
      hide HeapShape, Represents, CutOut;
      if bytes == 0 {
        return To(0);
      }
      var ints := ((bytes + 3) % SIZE_T) / 4 + 2;
      if ints < 4 { ints := 4; }
      p := Null;
      var mx, it := Search(ints);
      if it != 0 {
        Take(it, mx, ints);
        p := To(it + 1);
        MallocTakesLittle(old(blocks), old(free), bytes, p, blocks, free, words.Length);
      }
    }

    /** The part of `malloc` after the search: unlink block `it` and tag it, split or whole. */
    method Take(it: int, mx: int, ints: int)
      requires Valid() && it in blocks && mx == blocks[it] >= ints >= 4
      modifies this`avail, this`blocks, this`free, words
      ensures Valid()
      ensures Allocated(old(blocks), old(free), it, ints, blocks, free)
      ensures KeepsTaken(old(words[..]), words[..], old(blocks))
    {
      hide Represents, KeepsTaken, Tiled, FreeBlocks, AllListed, Coalesced, AllocBlocks, Without;
      ghost var s, b, f := words[..], blocks, free;
      ghost var k := WhereListed(s, avail, b, f, it);
      UnlinkedRepresents(s, avail, b, f, k);
      Remove(it);
      ghost var s1 := words[..];
      CarveRepresents(s1, avail, b, f, it, ints);
      CarveFits(b, s1, avail, it, ints);
      Tag(it, mx, ints);
      KeepsTakenTrans(s, s1, words[..], b);
      AllocKeepsShape(b, f, words.Length, it, ints);
      blocks, free := AllocBlocks(b, it, ints), AllocList(b, f, it, ints);
    }

    method Tag(it: int, mx: int, ints: int)
      requires Carvable(words[..], avail, it, mx, ints)
      modifies words, this`avail
      ensures (words[..], avail) == Carve(old(words[..]), old(avail), it, mx, ints)
    {
      var extra := mx - ints;
      if extra >= 4 {
        MakeTaken(it, ints);
        MakeAvail(it + ints, extra);
      } else {
        MakeTaken(it, mx);
      }
    }

    /** The search loop of `malloc`: at most 20 blocks that fit are looked at. */
    method Search(ints: int) returns (mx: int, it: int)
      requires Valid() && ints > 0
      ensures it == 0 ==> NoneFits(blocks, ints)
      ensures it != 0 ==> Picked(blocks, free, ints, it) && Fits(blocks, it, ints) && mx == blocks[it]
    {
      hide HeapShape, Represents;
      mx, it := INT_MAX, 0;
      var countDown := 20;
      var p := avail;
      ghost var s, b, f := words[..], blocks, free;
      ghost var n, k := 0, -1;
      ListHead(s, avail, b, f);
      while p != 0
        invariant 0 <= n <= |f| && p == At(f, n) && (p == 0 <==> n == |f|)
        invariant CountFits(b, f, ints, n) == 20 - countDown < 20
        invariant n > 0 ==> CountFits(b, f, ints, n - 1) < 20
        invariant Scanned(b, f, ints, n, k)
        invariant it == (if k == -1 then 0 else f[k]) && mx == (if k == -1 then INT_MAX else b[f[k]])
        decreases |f| - n
      {
        FreeBlockWords(s, avail, b, f, n);
        assert words[p] > 0;  // the source panics otherwise
        var sz := Abs(words[p]);
        ScanStep(b, f, ints, n, k);
        if sz >= ints {
          if sz < mx {
            mx := sz;
            it := p;
            k := n;
          }
          countDown := countDown - 1;
          if countDown == 0 {
            FreeBlockWords(s, avail, b, f, k);
            assert ScanEnd(b, f, ints, n + 1) && Chosen(b, f, ints, k);
            return;
          }
        }
        p := words[p + 1];
        n := n + 1;
      }
      if k == -1 {
        NothingFound(b, f, ints, words.Length);
      } else {
        FreeBlockWords(s, avail, b, f, k);
        assert ScanEnd(b, f, ints, n) && Chosen(b, f, ints, k);
      }
    }

    /** What free accepts: null, the array, or a block that is still in the heap.  The source
        panics on one that is not taken. */
    ghost predicate Freeable(p: Pointer)
      reads this, words
    {
      p.Null? || p.word == 0 || (p.word - 1 in blocks && !Sentinel(p.word - 1, words.Length))
    }

    /** `free`: the block and its available neighbours become one available block. */
    method Free(p: Pointer) returns (panicked: bool)
      requires Valid() && Freeable(p)
      modifies this`avail, this`blocks, this`free, words
      ensures Valid()
      ensures FreeStep(old(blocks), old(free), p, panicked, blocks, free)
      ensures p.Null? || p.word == 0 || panicked ==> words[..] == old(words[..])
      ensures p.To? ==> KeepsTaken(old(words[..]), words[..], old(blocks) - {p.word - 1})
    {
      if p == Null || p == To(0) {
        return false;
      }
      var idx := p.word - 1;
      if !(words[idx] < 0) {
        return true;
      }
      Release(idx);
      return false;
    }

    method Release(h: int)
      requires Valid() && Live(blocks, words.Length, h)
      modifies this`avail, this`blocks, this`free, words
      ensures Valid() && HasLeft(old(blocks), h)
      ensures FreeStep(old(blocks), old(free), To(h + 1), false, blocks, free)
      ensures KeepsTaken(old(words[..]), words[..], old(blocks) - {h})
    {
      hide HeapShape, Represents, KeepsTaken, FreeStep, FreedBlocks, FreedList, MergeStart, MergeEnd;
      ghost var s, b, f := words[..], blocks, free;
      Neighbours(s, avail, b, f, h);
      FreeKeepsShape(b, f, words.Length, h);
      FreeingIsFree(b, f, words.Length, h);
      var idx, sz := Unhook(h);
      label unhooked:
      Rejoin(h, idx, sz);
      KeepsOtherTaken(s, old@unhooked(words[..]), words[..], b, h);
      blocks, free := FreedBlocks(b, h), FreedList(b, f, h);
    }

    /** The last part of `free`: the merged block goes on the list. */
    method Rejoin(ghost h: int, idx: int, sz: int)
      requires HeapShape(blocks, free, words.Length) && Live(blocks, words.Length, h) && HasLeft(blocks, h)
      requires Represents(words[..], avail, blocks, FreedRest(blocks, free, h))
      requires idx == MergeStart(blocks, h) && sz == MergeEnd(blocks, h) - idx
      modifies words, this`avail
      ensures Represents(words[..], avail, FreedBlocks(blocks, h), FreedList(blocks, free, h))
      ensures KeepsTaken(old(words[..]), words[..], blocks - Swallowed(blocks, h))
    {
      hide HeapShape, Represents, KeepsTaken;
      ghost var s, a := words[..], avail;
      MergeRepresents(s, a, blocks, free, h);
      ghost var s' := Push(s, a, idx, sz);
      assert Represents(s', idx, FreedBlocks(blocks, h), FreedList(blocks, free, h));
      MakeAvail(idx, sz);
      assert words[..] == s';
    }

    /** The first part of `free`: take the available neighbours off the list and measure. */
    method Unhook(h: int) returns (idx: int, sz: int)
      requires Represents(words[..], avail, blocks, free) && AllListed(blocks, free)
      requires 0 < h < words.Length && h in blocks && HasLeft(blocks, h) && h + Abs(blocks[h]) in blocks
      requires h - Abs(words[h - 1]) == LeftOf(blocks, h) && blocks[h] < 0
      modifies words, this`avail
      ensures Represents(words[..], avail, blocks, FreedRest(blocks, free, h))
      ensures KeepsTaken(old(words[..]), words[..], blocks)
      ensures idx == MergeStart(blocks, h) && sz == MergeEnd(blocks, h) - idx
    {
      hide Represents, AllListed, FreedRest, Without, LeftOf, KeepsTaken;
      ghost var s := words[..];
      BeforeUnhooking(s, avail, blocks, free, h);
      sz := Abs(words[h]);
      var leftIndex := h - 1 - Abs(words[h - 1]) + 1;
      var rightIndex := h + Abs(words[h]);
      KeepsTakenSelf(s, blocks);
      var n := RemoveIfAvailable(leftIndex, free, s);
      idx := if n > 0 then leftIndex else h;
      sz := sz + n;
      n := RemoveIfAvailable(rightIndex, Without(free, leftIndex), s);
      sz := sz + n;
    }

    /** `if (isAvail(x)) remove(x)`; the result is the size of the block if it was available.
        s is the array at the start of `free`. */
    method RemoveIfAvailable(x: int, ghost f: seq<int>, ghost s: seq<int>) returns (n: int)
      requires Represents(words[..], avail, blocks, f) && x in blocks && (blocks[x] > 0 ==> OnList(f, x))
      requires KeepsTaken(s, words[..], blocks)
      modifies words, this`avail
      ensures n == if blocks[x] > 0 then blocks[x] else 0
      ensures Represents(words[..], avail, blocks, Without(f, x))
      ensures KeepsTaken(s, words[..], blocks)
    {
      UnlinkIfAvailable(words[..], avail, blocks, f, x);
      n := 0;
      assert words[..][x] == blocks[x];
      if words[x] > 0 {
        Remove(x);
        assert words[..][x] == blocks[x];
        n := Abs(words[x]);
      }
      KeepsTakenTrans(s, old(words[..]), words[..], blocks);
    }

    /** A caller writing into its own block changes no part of the heap structure and no other
        block. */
    method Store(h: int, i: int, value: int)
      requires Valid() && Live(blocks, words.Length, h) && InPayload(blocks, h, i)
      modifies words
      ensures Valid() && words[..] == old(words[..])[i := value]
    {
      StoreRepresents(words[..], avail, blocks, free, h, i, value);
      words[i] := value;
    }

    // ---- the user-mode heap, t0.dir/sbin/heap.c: same blocks and lists, first fit ----

    method UserMalloc(bytes: nat) returns (p: Pointer)
      requires Valid() && bytes < SIZE_T
      modifies this`avail, this`blocks, this`free, words
      ensures Valid()
      ensures UserMallocStep(old(blocks), old(free), bytes, p, blocks, free)
      ensures p != Null && bytes > 0 ==> CutOut(old(blocks), blocks, bytes, p.word - 1)
      ensures p == Null || bytes == 0 ==> words[..] == old(words[..])
      ensures KeepsTaken(old(words[..]), words[..], old(blocks))
    {
      hide HeapShape, Represents, CutOut;
      if bytes == 0 {
        return To(0);
      }
      var ints := ((bytes + 3) % SIZE_T) / 4 + 2;
      if ints < 4 { ints := 4; }
      p := Null;
      var mx, it := FirstSearch(ints);
      if it != 0 {
        Take(it, mx, ints);
        p := To(it + 1);
        MallocTakesLittle(old(blocks), old(free), bytes, p, blocks, free, words.Length);
      }
    }

    /** The search loop of the user-mode `malloc`: the first block that fits. */
    method FirstSearch(ints: int) returns (mx: int, it: int)
      requires Valid() && ints > 0
      ensures it == 0 ==> NoneFits(blocks, ints)
      ensures it != 0 ==> FirstFit(blocks, free, ints, it) && mx == blocks[it]
    {
      hide HeapShape, Represents;
      mx, it := 0, avail;
      ghost var s, b, f := words[..], blocks, free;
      ghost var n := 0;
      ListHead(s, avail, b, f);
      while it != 0
        invariant 0 <= n <= |f| && it == At(f, n) && (it == 0 <==> n == |f|)
        invariant Scanned(b, f, ints, n, -1)
        decreases |f| - n
      {
        FreeBlockWords(s, avail, b, f, n);
        mx := Abs(words[it]);
        if mx >= ints {
          return;
        }
        it := words[it + 1];
        n := n + 1;
      }
      NothingFound(b, f, ints, words.Length);
    }

    /** `realloc`: `malloc`, a copy of what both blocks can hold, and `free` of the old block, which comes
        also when there is no new one.  A block that is not taken is left alone. */
    method Realloc(p: Pointer, newSize: nat) returns (q: Pointer)
      requires Valid() && newSize <= SIZE_T - 4
      requires p.To? ==> p.word - 1 in blocks && !Sentinel(p.word - 1, words.Length)
      modifies this`avail, this`blocks, this`free, words
      ensures Valid()
      ensures ReallocStep(old(blocks), old(free), p, newSize, q, blocks, free)
      ensures p.Null? ==> KeepsTaken(old(words[..]), words[..], old(blocks))
      ensures p.To? ==> Resized(old(words[..]), words[..], old(blocks), blocks, p.word, q, newSize)
      ensures p.To? && old(blocks)[p.word - 1] > 0 ==> words[..] == old(words[..])
      ensures p.To? && old(blocks)[p.word - 1] < 0 ==> HandedOver(old(blocks), blocks, words.Length, p.word, q)
    {
      hide HandedOver, FreedBlocks, FreedList, KeepsTaken, CarriesOver;
      ghost var b, f := blocks, free;
      if p == Null {
        q := UserMalloc(newSize);
      } else if !(words[p.word - 1] < 0) {
        KeepsTakenSelf(words[..], b - {p.word - 1});
        q := Null;
      } else if newSize == 0 {
        Release(p.word - 1);
        q := Null;
        ReallocMoves(b, f, p, newSize, q, blocks, free, words.Length);
      } else {
        q := Resize(p.word, newSize);
        ReallocMoves(b, f, p, newSize, q, blocks, free, words.Length);
      }
    }

    method Resize(p: int, newSize: nat) returns (q: Pointer)
      requires Valid() && 0 < newSize <= SIZE_T - 4 && Live(blocks, words.Length, p - 1)
      modifies this`avail, this`blocks, this`free, words
      ensures Valid()
      ensures ReallocStep(old(blocks), old(free), To(p), newSize, q, blocks, free)
      ensures Resized(old(words[..]), words[..], old(blocks), blocks, p, q, newSize)
    {
      hide HeapShape, Represents, FreeStep, UserMallocStep, CarriesOver, KeepsTaken;
      ghost var s, b, f := words[..], blocks, free;
      LiveIsTaken(b, f, words.Length, p);
      q := UserMalloc(newSize);
      ghost var s1, b1, f1 := words[..], blocks, free;
      if q == Null {
        NothingHandedOut(b, f, newSize, b1, f1);
        Release(p - 1);
        return;
      }
      MallocHandsOut(b, f, newSize, q, blocks, free, words.Length);
      MoveAndFree(p, q.word, newSize);
      ReallocFrames(s, s1, words[..], b, f, b1, f1, p, q.word, newSize);
    }

    /** The last part of `realloc`: copy what fits, free the old block. */
    method MoveAndFree(p: int, q: int, newSize: nat)
      requires Valid() && Live(blocks, words.Length, p - 1) && Live(blocks, words.Length, q - 1) && p != q
      requires WORD * (Abs(blocks[q - 1]) - 2) >= newSize
      modifies this`avail, this`blocks, this`free, words
      ensures Valid() && q - 1 in blocks && blocks[q - 1] == old(blocks)[q - 1]
      ensures FreeStep(old(blocks), old(free), To(p), false, blocks, free)
      ensures KeepsTaken(old(words[..]), words[..], old(blocks) - {p - 1, q - 1})
      ensures CarriesOver(old(words[..]), words[..], old(blocks), p, q, newSize / WORD)
      ensures CarriesRest(old(words[..]), words[..], old(blocks), p, q, newSize)
    {
      hide Represents;
      ghost var s1, b := words[..], blocks;
      var m := CopyInto(p, q, newSize);
      ghost var s2 := words[..];
      FreeOld(p - 1, q - 1);
      MoveFrames(s1, s2, words[..], b, p, q, m, newSize);
    }

    method FreeOld(h: int, ghost q: int)
      requires Valid() && Live(blocks, words.Length, h) && Live(blocks, words.Length, q) && h != q
      modifies this`avail, this`blocks, this`free, words
      ensures Valid() && q in blocks && blocks[q] == old(blocks)[q]
      ensures FreeStep(old(blocks), old(free), To(h + 1), false, blocks, free)
      ensures KeepsTaken(old(words[..]), words[..], old(blocks) - {h})
    {
      hide HeapShape, Represents, KeepsTaken, FreeStep;
      Release(h);
      FreeSpares(old(blocks), old(free), words.Length, h, q, blocks, free);
    }

    method CopyInto(p: int, q: int, newSize: nat) returns (m: nat)
      requires Valid() && Live(blocks, words.Length, p - 1) && Live(blocks, words.Length, q - 1) && p != q
      requires WORD * (Abs(blocks[q - 1]) - 2) >= newSize
      modifies words
      ensures Valid() && OnlyPayloadDiffers(old(words[..]), words[..], blocks, q - 1)
      ensures m == newSize || m == WORD * Abs(blocks[p - 1])
      ensures Copied(old(words[..]), words[..], p, q, m / WORD) && RestCopied(old(words[..]), words[..], p, q, m)
    {
      var sz := Abs(words[p - 1]) * 4;
      m := if newSize > sz then sz else newSize;
      CopyRange(blocks, free, words.Length, p - 1, q - 1, m);
      Copy(q, p, m);
    }

    /** `memcpy` of m bytes from word `src` on into a live block. */
    method Copy(dst: int, src: int, m: nat)
      requires Valid() && Live(blocks, words.Length, dst - 1)
      requires m <= WORD * (Abs(blocks[dst - 1]) - 2)
      requires 0 <= src && src + (m + 3) / WORD <= words.Length
      requires 0 <= dst && dst + (m + 3) / WORD <= words.Length
      requires src + (m + 3) / WORD <= dst || dst + (m + 3) / WORD <= src
      modifies words
      ensures Valid()
      ensures Copied(old(words[..]), words[..], src, dst, m / WORD) && RestCopied(old(words[..]), words[..], src, dst, m)
      ensures OnlyPayloadDiffers(old(words[..]), words[..], blocks, dst - 1)
    {
      hide HeapShape, Represents, KeepsTaken;
      ghost var s := words[..];
      var i := 0;
      while i < m / 4
        invariant 0 <= i <= m / WORD && Valid()
        invariant Copying(s, words[..], src, dst, i)
      {
        CopyStep(s, words[..], src, dst, i);
        Store(dst - 1, dst + i, words[src + i]);
        i := i + 1;
      }
      if m % 4 > 0 {
        // the first m % 4 bytes of a little-endian word are its low ones
        var low := if m % 4 == 1 then 0x100 else if m % 4 == 2 then 0x1_0000 else 0x100_0000;
        var w, v := words[dst + i], words[src + i];
        LowBytes(w, v, m % 4);
        Store(dst - 1, dst + i, w - w % low + v % low);
      }
    }
  }
}
