/** Byte-range reads over a device that reads whole blocks: kernel/block_io.cc. */
module BlockIo {

  newtype byte = x: int | 0 <= x < 256

  const TWO32 := 0x1_0000_0000

  /** Something that `BlockIO` is the base class of: what its `size_in_bytes` returns, and what its
      `read_block` puts into the buffer. */
  datatype Device = Device(blockSize: int, size: int, block: int -> seq<byte>)

  ghost predicate Sound(d: Device) {
    && 0 < d.blockSize < TWO32 && 0 <= d.size < TWO32
    && forall i {:trigger d.block(i)} | 0 <= i :: |d.block(i)| == d.blockSize
  }

  /** A number in n bytes, the lowest first. */
  function LittleEndian(v: int, n: nat): (s: seq<byte>)
    requires 0 <= v
    ensures |s| == n
  {
    if n == 0 then [] else [(v % 256) as byte] + LittleEndian(v / 256, n - 1)
  }

  lemma FourBytes(v: int)
    requires 0 <= v < TWO32
    ensures var s := LittleEndian(v, 4);
      s[0] as int + 0x100 * (s[1] as int) + 0x1_0000 * (s[2] as int) + 0x100_0000 * (s[3] as int) == v
  {
    assert LittleEndian(v, 4)[1..] == LittleEndian(v / 256, 3);
    assert LittleEndian(v / 256, 3)[1..] == LittleEndian(v / 256 / 256, 2);
    assert LittleEndian(v / 256 / 256, 2)[1..] == LittleEndian(v / 256 / 256 / 256, 1);
  }

  lemma TwoBytes(v: int)
    requires 0 <= v < 0x1_0000
    ensures var s := LittleEndian(v, 2); s[0] as int + 0x100 * (s[1] as int) == v
  {
    assert LittleEndian(v, 2)[1..] == LittleEndian(v / 256, 1);
  }

  // ---- which block, and where in it ----

  function Block(i: int, size: int): (q: int)
    requires 0 <= i && 0 < size
    ensures 0 <= q
  {
    i / size
  }

  function Within(i: int, size: int): (r: int)
    requires 0 <= i && 0 < size
    ensures 0 <= r < size && i == Block(i, size) * size + r
  {
    i % size
  }

  lemma Split(q: int, r: int, size: int)
    requires 0 <= q && 0 <= r < size
    ensures 0 <= q * size && Block(q * size + r, size) == q && Within(q * size + r, size) == r
  {
    hide Block, Within;
    var i := q * size + r;
    Grows(q, size);
    var p := Block(i, size);
    var r' := Within(i, size);
    if p > q {
      Apart(p, q, size);
    } else if p < q {
      Apart(q, p, size);
    }
  }

  lemma Grows(q: int, size: int)
    requires 0 <= q && 0 < size
    ensures 0 <= q * size && (q >= 1 ==> q * size >= size)
  {
  }

  lemma Apart(a: int, b: int, size: int)
    requires a > b && size > 0
    ensures a * size >= b * size + size
  {
    Grows(a - b, size);
    assert (a - b) * size == a * size - b * size;
  }

  /** The i-th byte of the device. */
  function ByteAt(d: Device, i: int): byte
    requires Sound(d) && 0 <= i
  {
    d.block(Block(i, d.blockSize))[Within(i, d.blockSize)]
  }

  /** The n bytes from `offset` on. */
  function Slice(d: Device, offset: int, n: int): (s: seq<byte>)
    requires Sound(d) && 0 <= offset && 0 <= n
    ensures |s| == n
  {
    seq(n, k requires 0 <= k < n => ByteAt(d, offset + k))
  }

  /** What `read_all` is to return: -1 beyond the end, and else how much there is of what is asked for. */
  function Available(d: Device, offset: int, n: int): int {
    if n == 0 then 0 else if offset > d.size then -1 else if n < d.size - offset then n else d.size - offset
  }

  /** `dst` with `bytes` written from `at` on. */
  function Overwritten(dst: seq<byte>, at: int, bytes: seq<byte>): (r: seq<byte>)
    requires 0 <= at && at + |bytes| <= |dst|
    ensures |r| == |dst| && (bytes == [] ==> r == dst)
  {
    dst[..at] + bytes + dst[at + |bytes|..]
  }

  /** Bytes in one block are together. */
  lemma WithinBlock(d: Device, offset: int, n: int)
    requires Sound(d) && 0 <= offset && 0 <= n && Within(offset, d.blockSize) + n <= d.blockSize
    ensures var r := Within(offset, d.blockSize);
      Slice(d, offset, n) == d.block(Block(offset, d.blockSize))[r..r + n]
  {
    hide Block, Within;
    var q, r := Block(offset, d.blockSize), Within(offset, d.blockSize);
    forall k | 0 <= k < n ensures Slice(d, offset, n)[k] == d.block(q)[r..r + n][k] {
      Split(q, r + k, d.blockSize);
      assert offset + k == q * d.blockSize + (r + k);
      assert ByteAt(d, offset + k) == d.block(q)[r + k];
    }
  }

  /** Two slices one after the other are one. */
  lemma SlicesJoin(d: Device, offset: int, m: int, n: int)
    requires Sound(d) && 0 <= offset && 0 <= m && 0 <= n
    ensures Slice(d, offset, m) + Slice(d, offset + m, n) == Slice(d, offset, m + n)
  {
    hide ByteAt;
  }

  lemma OverwritesJoin(dst: seq<byte>, at: int, a: seq<byte>, b: seq<byte>)
    requires 0 <= at && at + |a| + |b| <= |dst|
    ensures Overwritten(Overwritten(dst, at, a), at + |a|, b) == Overwritten(dst, at, a + b)
  {
  }

  lemma SoundMeans(d: Device)
    requires Sound(d)
    ensures 0 < d.blockSize < TWO32 && 0 <= d.size < TWO32
  {
  }

  /** `memcpy` */
  method Copy(buffer: array<byte>, at: int, bytes: seq<byte>)
    requires 0 <= at && at + |bytes| <= buffer.Length
    modifies buffer
    ensures buffer[..] == Overwritten(old(buffer[..]), at, bytes)
  {
    for k := 0 to |bytes|
      invariant forall j | 0 <= j < buffer.Length ::
        buffer[j] == if at <= j < at + k then bytes[j - at] else old(buffer[j])
    {
      buffer[at + k] := bytes[k];
    }
  }

  /** `BlockIO::read`: at most the rest of one block. */
  method Read(d: Device, offset: int, wanted: int, buffer: array<byte>, at: int) returns (cnt: int)
    requires Sound(d) && 0 <= offset < TWO32 && 0 <= wanted < TWO32 && 0 <= at && at + wanted <= buffer.Length
    modifies buffer
    ensures cnt == if offset > d.size then -1 else
              var rest, left := d.size - offset, d.blockSize - Within(offset, d.blockSize);
              var n := if wanted < rest then wanted else rest;
              if left < n then left else n
    ensures cnt <= wanted && (cnt < 0 ==> buffer[..] == old(buffer[..]))
    ensures cnt >= 0 ==> buffer[..] == Overwritten(old(buffer[..]), at, Slice(d, offset, cnt))
  {
    hide ByteAt, Block, Within, Overwritten, Slice;
    var sz := d.size;
    if offset > sz {
      return -1;
    }
    if offset == sz {
      return 0;
    }
    var n := if wanted < sz - offset then wanted else sz - offset;
    var blockNumber := Block(offset, d.blockSize);
    var offsetInBlock := Within(offset, d.blockSize);
    cnt := if d.blockSize - offsetInBlock < n then d.blockSize - offsetInBlock else n;
    WithinBlock(d, offset, cnt);
    var temp := d.block(blockNumber);
    assert cnt == d.blockSize ==> temp == temp[offsetInBlock..offsetInBlock + cnt];
    if cnt == d.blockSize {
      Copy(buffer, at, temp);
    } else {
      Copy(buffer, at, temp[offsetInBlock..offsetInBlock + cnt]);
    }
  }

  /** `BlockIO::read_all`: the whole of what is asked for, as far as there is. */
  method ReadAll(d: Device, offset: int, n: int, buffer: array<byte>, at: int) returns (total: int)
    requires Sound(d) && 0 <= offset < TWO32 && 0 <= n < TWO32 && 0 <= at && at + n <= buffer.Length
    modifies buffer
    ensures total == Available(d, offset, n) && total <= n
    ensures total < 0 ==> buffer[..] == old(buffer[..])
    ensures total >= 0 ==> buffer[..] == Overwritten(old(buffer[..]), at, Slice(d, offset, total))
  {
    hide ByteAt, Block, Within, Overwritten, Slice, Sound;
    SoundMeans(d);
    var o, m, b := offset, n, at;
    total := 0;
    while m > 0
      invariant 0 <= total == o - offset == b - at == n - m && m >= 0
      invariant o <= d.size || total == 0
      invariant o < TWO32
      invariant buffer[..] == Overwritten(old(buffer[..]), at, Slice(d, offset, total))
    {
      var cnt := Read(d, o, m, buffer, b);
      if cnt < 0 {
        return cnt;
      }
      if cnt == 0 {
        return;
      }
      SlicesJoin(d, offset, total, cnt);
      OverwritesJoin(old(buffer[..]), at, Slice(d, offset, total), Slice(d, o, cnt));
      total, o, m, b := total + cnt, o + cnt, m - cnt, b + cnt;
    }
  }
}
