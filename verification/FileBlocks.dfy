/** From the blocks of a file to the blocks of the disk: `BlockCache::read_block` of kernel/Ext22.h and
    `Node::read_block` of kernel/ext2.cc, against the list of block numbers that section "Inode Table",
    i_block, of "The Second Extended File System" defines. */
module FileBlocks {
  import opened BlockIo

  /** The fields of an i-node that say where its data is. */
  datatype Inode = Inode(size: int, sectors: int, direct: seq<int>, single: int, double: int)

  predicate GoodBlockSize(b: int) {
    512 <= b <= 65536 && b % 512 == 0
  }

  /** References in a block. */
  function Refs(b: int): int {
    b / 4
  }

  /** Block p can be read whole below the size that the disk claims. */
  predicate InReach(disk: Device, b: int, p: int) {
    0 <= p && 0 <= p * b && p * b + b <= disk.size
  }

  /** Block p of the disk; zeros stand for one that is not there. */
  function DiskBlock(disk: Device, b: int, p: int): (s: seq<byte>)
    requires Sound(disk) && 0 <= b
    ensures |s| == b
  {
    if InReach(disk, b, p) then Slice(disk, p * b, b) else seq(b, _ => 0)
  }

  /** The i-th little-endian word. */
  function Word(s: seq<byte>, i: int): int
    requires 0 <= i && 4 * i + 4 <= |s|
  {
    s[4 * i] as int + 0x100 * (s[4 * i + 1] as int) + 0x1_0000 * (s[4 * i + 2] as int) + 0x100_0000 * (s[4 * i + 3] as int)
  }

  function Words(s: seq<byte>): (w: seq<int>)
    ensures |w| == |s| / 4
  {
    seq(|s| / 4, i requires 0 <= i < |s| / 4 => Word(s, i))
  }

  /** References as they are written on the disk. */
  function Encoded(refs: seq<int>): (s: seq<byte>)
    requires forall i | 0 <= i < |refs| :: 0 <= refs[i] < TWO32
    ensures |s| == 4 * |refs|
  {
    if refs == [] then [] else Encoded(refs[..|refs| - 1]) + LittleEndian(refs[|refs| - 1], 4)
  }

  /** Reading a word gives the number whose little-endian bytes stand there. */
  lemma WordIs(s: seq<byte>, i: int, v: int)
    requires 0 <= i && 4 * i + 4 <= |s| && 0 <= v < TWO32 && s[4 * i..4 * i + 4] == LittleEndian(v, 4)
    ensures Word(s, i) == v
  {
    FourBytes(v);
    var w := s[4 * i..4 * i + 4];
    assert w[0] == s[4 * i] && w[1] == s[4 * i + 1] && w[2] == s[4 * i + 2] && w[3] == s[4 * i + 3];
  }

  /** What was written is what is read. */
  lemma {:induction false} WordsOfEncoded(refs: seq<int>)
    requires forall i | 0 <= i < |refs| :: 0 <= refs[i] < TWO32
    ensures Words(Encoded(refs)) == refs
  {
    hide Word;
    if refs != [] {
      var n := |refs| - 1;
      WordsOfEncoded(refs[..n]);
      var s := Encoded(refs);
      forall i | 0 <= i <= n ensures Words(s)[i] == refs[i] {
        if i < n {
          SameWord(Encoded(refs[..n]), s, i);
        } else {
          assert s[4 * n..4 * n + 4] == LittleEndian(refs[n], 4);
          WordIs(s, n, refs[n]);
        }
      }
    }
  }

  lemma SameWord(s: seq<byte>, s': seq<byte>, i: int)
    requires 0 <= i && 4 * i + 4 <= |s| && s <= s'
    ensures Word(s', i) == Word(s, i)
  {
  }

  /** The references in the blocks ps, block by block. */
  function Gathered(disk: Device, b: int, ps: seq<int>): seq<int>
    requires Sound(disk) && GoodBlockSize(b)
  {
    if ps == [] then [] else Gathered(disk, b, ps[..|ps| - 1]) + Words(DiskBlock(disk, b, ps[|ps| - 1]))
  }

  ghost predicate Shaped(disk: Device, b: int, node: Inode) {
    Sound(disk) && GoodBlockSize(b) && |node.direct| == 12
  }

  /** The numbers of the file's blocks, in order: the direct ones, those in the single indirect block, and
      those in the blocks that the double indirect block lists. */
  function BlockList(disk: Device, b: int, node: Inode): seq<int>
    requires Shaped(disk, b, node)
  {
    node.direct + Words(DiskBlock(disk, b, node.single))
    + Gathered(disk, b, Words(DiskBlock(disk, b, node.double)))
  }

  /** Block `number` of the file and the indirect blocks on the way to it lie on the disk.  Of the other
      references nothing is asked: those of a short file may be anything. */
  ghost predicate Reachable(disk: Device, b: int, node: Inode, number: int)
    requires Shaped(disk, b, node)
  {
    var n := Refs(b);
    if number < 12 then 0 <= number && InReach(disk, b, node.direct[number])
    else if number < 12 + n then
      InReach(disk, b, node.single) && InReach(disk, b, Words(DiskBlock(disk, b, node.single))[number - 12])
    else
      var x := number - 12 - n;
      && InReach(disk, b, node.double) && Block(x, n) < n
      && var outer := Words(DiskBlock(disk, b, node.double))[Block(x, n)];
      InReach(disk, b, outer) && InReach(disk, b, Words(DiskBlock(disk, b, outer))[Within(x, n)])
  }

  lemma {:induction false} GatheredAt(disk: Device, b: int, ps: seq<int>, i: int, j: int)
    requires Sound(disk) && GoodBlockSize(b) && 0 <= i < |ps| && 0 <= j < Refs(b)
    ensures |Gathered(disk, b, ps)| == |ps| * Refs(b) && 0 <= i * Refs(b) + j < |ps| * Refs(b)
    ensures Gathered(disk, b, ps)[i * Refs(b) + j] == Words(DiskBlock(disk, b, ps[i]))[j]
    decreases |ps|
  {
    hide DiskBlock, InReach, Refs, Words;
    RefsIs(b);
    var n := |ps| - 1;
    var last := Words(DiskBlock(disk, b, ps[n]));
    GatheredLength(disk, b, ps[..n]);
    assert |last| == Refs(b);
    Times(n, i, Refs(b));
    if i < n {
      GatheredAt(disk, b, ps[..n], i, j);
    }
  }

  lemma RefsIs(b: int)
    requires GoodBlockSize(b)
    ensures 0 < Refs(b) && 4 * Refs(b) == b && b / 4 == Refs(b)
  {
  }

  lemma {:induction false} GatheredLength(disk: Device, b: int, ps: seq<int>)
    requires Sound(disk) && GoodBlockSize(b)
    ensures |Gathered(disk, b, ps)| == |ps| * Refs(b)
    decreases |ps|
  {
    hide DiskBlock, InReach, Refs, Words;
    RefsIs(b);
    if ps != [] {
      GatheredLength(disk, b, ps[..|ps| - 1]);
      Times(|ps| - 1, 0, Refs(b));
    }
  }

  lemma Times(n: int, i: int, r: int)
    requires 0 <= n && 0 <= r
    ensures (n + 1) * r == n * r + r && 0 <= n * r
    ensures 0 <= i < n ==> 0 <= i * r && i * r + r <= n * r
  {
    NotNegative(n, r);
    if 0 <= i < n {
      NotNegative(i, r);
      NotNegative(n - i - 1, r);
      assert n * r == (n - i - 1) * r + i * r + r;
    }
  }

  lemma NotNegative(n: int, r: int)
    requires 0 <= n && 0 <= r
    ensures 0 <= n * r
  {
  }

  // ---- the arithmetic of the code ----

  function Mul32(a: int, b: int): int {
    (a * b) % TWO32
  }

  /** The first block number that the double indirect branch does not take. */
  function DoubleLimit(b: int): int {
    Mul32(b, b) / 16 + (Refs(b) + 12)
  }

  /** All of the double indirect blocks are below it, unless the block size is 2^16 and its square wraps. */
  lemma DoubleLimitIs(b: int)
    requires GoodBlockSize(b)
    ensures DoubleLimit(b) == 12 + Refs(b) + Refs(b) * Refs(b) <==> b != 65536
    ensures b == 65536 ==> DoubleLimit(b) == 12 + Refs(b)
  {
    var r := Refs(b);
    RefsIs(b);
    if b < 65536 {
      Square(r);
      assert b * b == 16 * (r * r);
    }
  }

  lemma Square(r: int)
    requires 0 <= r <= 16383
    ensures (4 * r) * (4 * r) == 16 * (r * r) && 0 <= 16 * (r * r) < TWO32
  {
    Multiples(r);
    AtMost(r, 16383, r);
  }

  lemma Multiples(r: int)
    ensures (4 * r) * (4 * r) == 16 * (r * r)
  {
    calc {
      (4 * r) * (4 * r);
      4 * (r * (4 * r));
      4 * (4 * (r * r));
    }
  }

  lemma AtMost(a: int, b: int, c: int)
    requires 0 <= a <= b && 0 <= c
    ensures 0 <= a * c <= b * c
  {
    NotNegative(b - a, c);
    NotNegative(a, c);
  }

  lemma NoWrap(disk: Device, b: int, p: int)
    requires InReach(disk, b, p) && 0 < b && disk.size < TWO32
    ensures Mul32(p, b) == p * b && p * b + b <= disk.size
  {
  }

  /** The list has at the place that the code computes what the code finds there. */
  lemma ListAt(disk: Device, b: int, node: Inode, number: int)
    requires Shaped(disk, b, node) && Reachable(disk, b, node, number)
    ensures var list, n, x := BlockList(disk, b, node), Refs(b), number - 12 - Refs(b);
      && 0 <= number < |list| && InReach(disk, b, list[number])
      && (number < 12 ==> list[number] == node.direct[number])
      && (12 <= number < 12 + n ==>
            InReach(disk, b, node.single) && list[number] == Words(DiskBlock(disk, b, node.single))[number - 12])
      && (12 + n <= number ==>
            var outer := Words(DiskBlock(disk, b, node.double));
            && 0 <= Block(x, n) < |outer| && InReach(disk, b, node.double) && InReach(disk, b, outer[Block(x, n)])
            && list[number] == Words(DiskBlock(disk, b, outer[Block(x, n)]))[Within(x, n)])
  {
    hide DiskBlock, InReach, Block, Within, Word, DoubleLimit, Words;
    RefsIs(b);
    var n := Refs(b);
    if 12 + n <= number {
      GatheredAt(disk, b, Words(DiskBlock(disk, b, node.double)), Block(number - 12 - n, n), Within(number - 12 - n, n));
    }
  }

  /** The numbers in the double indirect blocks, one block's after the other's. */
  function Flattened(inner: seq<seq<int>>): seq<int> {
    if inner == [] then [] else Flattened(inner[..|inner| - 1]) + inner[|inner| - 1]
  }

  predicate Fills(b: int, refs: seq<int>) {
    |refs| == Refs(b) && forall i | 0 <= i < |refs| :: 0 <= refs[i] < TWO32
  }

  /** The indirect blocks hold these numbers. */
  ghost predicate Holds(disk: Device, b: int, node: Inode, single: seq<int>, outer: seq<int>, inner: seq<seq<int>>)
    requires Shaped(disk, b, node)
  {
    && Fills(b, single) && Fills(b, outer) && |inner| == |outer|
    && DiskBlock(disk, b, node.single) == Encoded(single) && DiskBlock(disk, b, node.double) == Encoded(outer)
    && (forall i {:trigger inner[i]} | 0 <= i < |inner| ::
          Fills(b, inner[i]) && DiskBlock(disk, b, outer[i]) == Encoded(inner[i]))
  }

  /** The file's blocks are the direct ones, then those whose numbers are written in the single indirect block,
      then those whose numbers are written in the blocks that the double indirect block names. */
  lemma ListIsWritten(disk: Device, b: int, node: Inode, single: seq<int>, outer: seq<int>, inner: seq<seq<int>>)
    requires Shaped(disk, b, node) && Holds(disk, b, node, single, outer, inner)
    ensures BlockList(disk, b, node) == node.direct + single + Flattened(inner)
  {
    hide DiskBlock, Words, Encoded;
    WordsOfEncoded(single);
    WordsOfEncoded(outer);
    GatheredIs(disk, b, outer, inner);
  }

  lemma {:induction false} GatheredIs(disk: Device, b: int, outer: seq<int>, inner: seq<seq<int>>)
    requires Sound(disk) && GoodBlockSize(b) && |inner| == |outer|
    requires forall i {:trigger inner[i]} | 0 <= i < |inner| ::
      Fills(b, inner[i]) && DiskBlock(disk, b, outer[i]) == Encoded(inner[i])
    ensures Gathered(disk, b, outer) == Flattened(inner)
    decreases |outer|
  {
    hide DiskBlock, Words, Encoded;
    if outer != [] {
      var n := |outer| - 1;
      GatheredIs(disk, b, outer[..n], inner[..n]);
      WordsOfEncoded(inner[n]);
    }
  }

  /** The code's limit is the length of the list, unless blocks have 65536 bytes. */
  lemma LimitIsLength(disk: Device, b: int, node: Inode)
    requires Shaped(disk, b, node)
    ensures |BlockList(disk, b, node)| == 12 + Refs(b) + Refs(b) * Refs(b)
    ensures DoubleLimit(b) == |BlockList(disk, b, node)| <==> b != 65536
  {
    hide DiskBlock, Gathered, Mul32;
    RefsIs(b);
    DoubleLimitIs(b);
    GatheredLength(disk, b, Words(DiskBlock(disk, b, node.double)));
  }

  /** One block of the disk into a buffer. */
  method FetchBlock(disk: Device, b: int, p: int, buffer: array<byte>) returns (cnt: int)
    requires Sound(disk) && GoodBlockSize(b) && InReach(disk, b, p) && buffer.Length == b
    modifies buffer
    ensures cnt == b && buffer[..] == DiskBlock(disk, b, p)
  {
    hide Slice, ByteAt, Mul32;
    NoWrap(disk, b, p);
    cnt := ReadAll(disk, Mul32(p, b), b, buffer, 0);
  }

  /** `BlockCache::read_block`, up to the double indirect blocks. */
  method ReadBlock(disk: Device, b: int, node: Inode, number: int, buffer: array<byte>)
    requires Shaped(disk, b, node) && number < DoubleLimit(b) && Reachable(disk, b, node, number) && buffer.Length == b
    modifies buffer
    ensures 0 <= number < |BlockList(disk, b, node)|
    ensures buffer[..] == DiskBlock(disk, b, BlockList(disk, b, node)[number])
  {
    hide Slice, DiskBlock, InReach, Word, Mul32, Gathered, Block, Within, DoubleLimit;
    var n := b / 4;
    RefsIs(b);
    ListAt(disk, b, node, number);
    if number < 12 {
      var _ := FetchBlock(disk, b, node.direct[number], buffer);
    } else if number < n + 12 {
      var arr := new byte[b];
      var _ := FetchBlock(disk, b, node.single, arr);
      var _ := FetchBlock(disk, b, Word(arr[..], number - 12), buffer);
    } else {
      var arr := new byte[b];
      var _ := FetchBlock(disk, b, node.double, arr);
      var nextArr := new byte[b];
      var nextIndex := number - 12 - n;
      var _ := FetchBlock(disk, b, Word(arr[..], Block(nextIndex, n)), nextArr);
      var _ := FetchBlock(disk, b, Word(nextArr[..], Within(nextIndex, n)), buffer);
    }
  }

  /** One word of the disk, as `BlockIO::read` into a variable. */
  method FetchWord(disk: Device, b: int, p: int, i: int) returns (panicked: bool, w: int)
    requires Sound(disk) && GoodBlockSize(b) && InReach(disk, b, p) && 0 <= i < Refs(b)
    ensures !panicked && w == Words(DiskBlock(disk, b, p))[i]
  {
    hide ByteAt, Mul32;
    NoWrap(disk, b, p);
    RefsIs(b);
    var word := new byte[4];
    var cnt := ReadAll(disk, Mul32(p, b) + i * 4, 4, word, 0);
    WordInBlock(disk, b, p, i);
    w := Word(word[..], 0);
    panicked := cnt != 4;
  }

  lemma WordInBlock(disk: Device, b: int, p: int, i: int)
    requires Sound(disk) && GoodBlockSize(b) && InReach(disk, b, p) && 0 <= i < Refs(b)
    ensures Word(Slice(disk, p * b + i * 4, 4), 0) == Words(DiskBlock(disk, b, p))[i]
  {
    hide ByteAt;
    var s, word := DiskBlock(disk, b, p), Slice(disk, p * b + i * 4, 4);
    forall k | 0 <= k < 4 ensures word[k] == s[4 * i + k] {
    }
  }

  /** `Node::read_block`: the other file system code refuses what lies beyond the single indirect block,
      and blocks that the sector count does not cover, and else reads the same block. */
  method NodeReadBlock(disk: Device, b: int, node: Inode, index: int, buffer: array<byte>) returns (panicked: bool)
    requires Shaped(disk, b, node) && 0 <= index && 0 <= node.sectors && buffer.Length == b
    requires index < node.sectors / (b / 512) && index < 12 + Refs(b) ==> Reachable(disk, b, node, index)
    modifies buffer
    ensures panicked <==> index >= node.sectors / (b / 512) || index >= 12 + Refs(b)
    ensures !panicked ==>
      && index < |BlockList(disk, b, node)|
      && buffer[..] == DiskBlock(disk, b, BlockList(disk, b, node)[index])
  {
    hide Slice, DiskBlock, InReach, Word, Mul32, Gathered, Block, Within, DoubleLimit;
    RefsIs(b);
    if index >= node.sectors / (b / 512) || index >= 12 + Refs(b) {
      return true;
    }
    ListAt(disk, b, node, index);
    var p;
    if index < 12 {
      p := node.direct[index];
    } else {
      var failed;
      failed, p := FetchWord(disk, b, node.single, index - 12);
    }
    var cnt := FetchBlock(disk, b, p, buffer);
    panicked := cnt != b;
  }

  // ---- the file as a device ----

  /** A file whose blocks, as far as its size goes, can be reached. */
  ghost predicate GoodFile(disk: Device, b: int, node: Inode) {
    && Shaped(disk, b, node) && 0 <= node.size < TWO32
    && forall i {:trigger Reachable(disk, b, node, i)} | 0 <= i && i * b < node.size :: Reachable(disk, b, node, i)
  }

  /** What `read_block` puts into the buffer for block i of the file. */
  ghost function FileBlock(disk: Device, b: int, node: Inode, i: int): (s: seq<byte>)
    requires Shaped(disk, b, node)
    ensures |s| == b
  {
    var list := BlockList(disk, b, node);
    if 0 <= i < |list| then DiskBlock(disk, b, list[i]) else seq(b, _ => 0)
  }

  ghost function FileDevice(disk: Device, b: int, node: Inode): (d: Device)
    requires Shaped(disk, b, node) && 0 <= node.size < TWO32
    ensures Sound(d) && d.blockSize == b && d.size == node.size
  {
    Device(b, node.size, i requires Shaped(disk, b, node) => FileBlock(disk, b, node, i))
  }

  /** Whatever `read_all` returns of a file is, byte for byte, what lies on the disk in the blocks that the
      file's list names, in order. */
  lemma FileByte(disk: Device, b: int, node: Inode, offset: int, n: int, k: int)
    requires GoodFile(disk, b, node) && 0 <= offset && 0 <= k < n && offset + n <= node.size
    ensures var list, i := BlockList(disk, b, node), Block(offset + k, b);
      && i < |list| && 0 <= list[i] * b
      && Slice(FileDevice(disk, b, node), offset, n)[k] == ByteAt(disk, list[i] * b + Within(offset + k, b))
  {
    hide Block, Within, BlockList, ByteAt, Reachable;
    var o := offset + k;
    var i := Block(o, b);
    var r := Within(o, b);
    assert i * b <= o < node.size;
    assert Reachable(disk, b, node, i);
    ListAt(disk, b, node, i);
    OneByte(disk, b, node, o);
    assert Slice(FileDevice(disk, b, node), offset, n)[k] == ByteAt(FileDevice(disk, b, node), o);
  }

  lemma OneByte(disk: Device, b: int, node: Inode, o: int)
    requires Shaped(disk, b, node) && 0 <= node.size < TWO32 && 0 <= o && Block(o, b) < |BlockList(disk, b, node)|
    requires InReach(disk, b, BlockList(disk, b, node)[Block(o, b)])
    ensures var p := BlockList(disk, b, node)[Block(o, b)];
      ByteAt(FileDevice(disk, b, node), o) == ByteAt(disk, p * b + Within(o, b))
  {
    hide Block, Within, BlockList;
    var p := BlockList(disk, b, node)[Block(o, b)];
    var d := FileDevice(disk, b, node);
    assert d.block(Block(o, b)) == FileBlock(disk, b, node, Block(o, b)) == DiskBlock(disk, b, p);
  }

  /** A file of at most twelve blocks needs nothing but those: whatever its other references are. */
  lemma ShortFile(disk: Device, b: int, node: Inode)
    requires Shaped(disk, b, node) && 0 <= node.size <= 12 * b && node.size < TWO32
    requires forall i | 0 <= i < 12 && i * b < node.size :: InReach(disk, b, node.direct[i])
    ensures GoodFile(disk, b, node)
  {
    hide InReach;
    forall i | 0 <= i && i * b < node.size ensures Reachable(disk, b, node, i) {
      if i >= 12 {
        AtMost(12, i, b);
      }
    }
  }
}
