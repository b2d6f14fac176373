/** Directories and paths: `Node::entries` and `Ext2::find` of kernel/ext2.h, `Node::find` of
    kernel/ext2.cc. */
module Directories {
  import opened BlockIo

  const SLASH: byte := 47
  const NUL: byte := 0

  /** A record of a directory: an i-node number and a name. */
  datatype Entry = Entry(inode: int, name: seq<byte>)

  // ---- the records ----

  function Word16(s: seq<byte>, i: int): int
    requires 0 <= i && i + 2 <= |s|
  {
    s[i] as int + 0x100 * (s[i + 1] as int)
  }

  function Word32(s: seq<byte>, i: int): int
    requires 0 <= i && i + 4 <= |s|
  {
    Word16(s, i) + 0x1_0000 * Word16(s, i + 2)
  }

  /** From `offset` on the directory is records of at least 8 bytes, one behind the other to the end, and
      each name lies in the directory. */
  predicate Records?(s: seq<byte>, offset: int)
    requires 0 <= offset <= |s|
    decreases |s| - offset
  {
    offset == |s| ||
    (&& offset + 8 <= |s|
     && offset + 8 + s[offset + 6] as int <= |s|
     && 8 <= Word16(s, offset + 4) <= |s| - offset
     && Records?(s, offset + Word16(s, offset + 4)))
  }

  function Entries(s: seq<byte>, offset: int): seq<Entry>
    requires 0 <= offset <= |s| && Records?(s, offset)
    decreases |s| - offset
  {
    if offset == |s| then []
    else
      [Entry(Word32(s, offset), s[offset + 8..offset + 8 + s[offset + 6] as int])]
      + Entries(s, offset + Word16(s, offset + 4))
  }

  // ---- a directory as it is written ----

  /** A record on the disk: its entry, the byte for its kind, and what fills it up. */
  datatype Record = Record(entry: Entry, kind: byte, pad: seq<byte>)

  function Length(r: Record): int {
    8 + |r.entry.name| + |r.pad|
  }

  predicate Fits(r: Record) {
    0 <= r.entry.inode < TWO32 && |r.entry.name| < 256 && Length(r) < 0x1_0000
  }

  /** Number, length of the record, length of the name, kind, name. */
  function Encoded(r: Record): (s: seq<byte>)
    requires Fits(r)
    ensures |s| == Length(r)
  {
    LittleEndian(r.entry.inode, 4) + LittleEndian(Length(r), 2) + LittleEndian(|r.entry.name|, 1) + [r.kind]
    + r.entry.name + r.pad
  }

  function AllEncoded(rs: seq<Record>): seq<byte>
    requires forall i | 0 <= i < |rs| :: Fits(rs[i])
  {
    if rs == [] then [] else Encoded(rs[0]) + AllEncoded(rs[1..])
  }

  function EntriesOf(rs: seq<Record>): seq<Entry> {
    if rs == [] then [] else [rs[0].entry] + EntriesOf(rs[1..])
  }

  lemma Word16Is(s: seq<byte>, i: int, v: int)
    requires 0 <= i && i + 2 <= |s| && 0 <= v < 0x1_0000 && s[i..i + 2] == LittleEndian(v, 2)
    ensures Word16(s, i) == v
  {
    hide LittleEndian;
    TwoBytes(v);
    var w := s[i..i + 2];
    assert w[0] == s[i] && w[1] == s[i + 1];
  }

  lemma Word32Is(s: seq<byte>, i: int, v: int)
    requires 0 <= i && i + 4 <= |s| && 0 <= v < TWO32 && s[i..i + 4] == LittleEndian(v, 4)
    ensures Word32(s, i) == v
  {
    hide LittleEndian;
    FourBytes(v);
    var w := s[i..i + 4];
    assert w[0] == s[i] && w[1] == s[i + 1] && w[2] == s[i + 2] && w[3] == s[i + 3];
  }

  lemma Part(s: seq<byte>, offset: int, e: seq<byte>, i: int, j: int)
    requires 0 <= offset && offset + |e| <= |s| && s[offset..offset + |e|] == e && 0 <= i <= j <= |e|
    ensures s[offset + i..offset + j] == e[i..j]
  {
    forall k | 0 <= k < j - i ensures s[offset + i..offset + j][k] == e[i..j][k] {
      assert e[i + k] == s[offset..offset + |e|][i + k];
    }
  }

  lemma PartsOf(a: seq<byte>, b: seq<byte>, c: seq<byte>, k: byte, d: seq<byte>, pad: seq<byte>)
    requires |a| == 4 && |b| == 2 && |c| == 1
    ensures var e := a + b + c + [k] + d + pad;
      |e| == 8 + |d| + |pad| && e[0..4] == a && e[4..6] == b && e[6..7] == c && e[8..8 + |d|] == d
  {
  }

  /** What the record at `offset` says. */
  lemma RecordAt(s: seq<byte>, offset: int, r: Record)
    requires Fits(r) && 0 <= offset && offset + Length(r) <= |s| && s[offset..offset + Length(r)] == Encoded(r)
    ensures Word32(s, offset) == r.entry.inode && Word16(s, offset + 4) == Length(r)
    ensures s[offset + 6] as int == |r.entry.name| && s[offset + 8..offset + 8 + |r.entry.name|] == r.entry.name
  {
    hide Word16, Word32;
    var e, n := Encoded(r), |r.entry.name|;
    PartsOf(LittleEndian(r.entry.inode, 4), LittleEndian(Length(r), 2), LittleEndian(n, 1), r.kind, r.entry.name, r.pad);
    Part(s, offset, e, 0, 4);
    Part(s, offset, e, 4, 6);
    Part(s, offset, e, 6, 7);
    Part(s, offset, e, 8, 8 + n);
    assert s[offset + 6] == s[offset + 6..offset + 7][0];
    Word32Is(s, offset, r.entry.inode);
    Word16Is(s, offset + 4, Length(r));
  }

  lemma FitsMeans(r: Record)
    requires Fits(r)
    ensures 8 + |r.entry.name| <= Length(r)
  {
  }

  lemma RecordAhead(s: seq<byte>, offset: int, r: Record)
    requires Fits(r) && 0 <= offset && offset + Length(r) <= |s|
    requires Word32(s, offset) == r.entry.inode && Word16(s, offset + 4) == Length(r)
    requires s[offset + 6] as int == |r.entry.name| && s[offset + 8..offset + 8 + |r.entry.name|] == r.entry.name
    requires Records?(s, offset + Length(r))
    ensures Records?(s, offset) && Entries(s, offset) == [r.entry] + Entries(s, offset + Length(r))
  {
    hide Word16, Word32, Records?, Entries;
    FitsMeans(r);
    RecordsAhead(s, offset);
    NextRecord(s, offset);
  }

  lemma RecordsAhead(s: seq<byte>, offset: int)
    requires 0 <= offset && offset + 8 <= |s| && offset + 8 + s[offset + 6] as int <= |s|
    requires 8 <= Word16(s, offset + 4) <= |s| - offset && Records?(s, offset + Word16(s, offset + 4))
    ensures Records?(s, offset)
  {
    hide Word16;
  }

  /** The entries of a directory are those of the records that were written one behind the other. */
  lemma {:induction false} EntriesAreWritten(before: seq<byte>, rs: seq<Record>)
    requires forall i | 0 <= i < |rs| :: Fits(rs[i])
    ensures var s := before + AllEncoded(rs);
      Records?(s, |before|) && Entries(s, |before|) == EntriesOf(rs)
    decreases |rs|
  {
    hide Encoded, Fits, Length, Entries, Records?;
    var s, n := before + AllEncoded(rs), |before|;
    if rs != [] {
      var next := before + Encoded(rs[0]);
      assert s == next + AllEncoded(rs[1..]);
      EntriesAreWritten(next, rs[1..]);
      assert s[n..n + Length(rs[0])] == Encoded(rs[0]);
      RecordAt(s, n, rs[0]);
      FitsMeans(rs[0]);
      RecordAhead(s, n, rs[0]);
    } else {
      NoRecords(s);
      assert s == before;
    }
  }

  /** A C string: what comes before the first zero byte. */
  function CString(s: seq<byte>): (r: seq<byte>)
    ensures |r| <= |s| && NUL !in r
  {
    if s == [] || s[0] == NUL then [] else [s[0]] + CString(s[1..])
  }

  /** The number of the last entry of that name, or 0. */
  function LastMatch(entries: seq<Entry>, name: seq<byte>): int {
    if entries == [] then 0
    else
      var e := entries[|entries| - 1];
      if CString(e.name) == name then e.inode else LastMatch(entries[..|entries| - 1], name)
  }

  lemma {:induction false} NoMatch(entries: seq<Entry>, name: seq<byte>)
    requires forall i | 0 <= i < |entries| :: CString(entries[i].name) != name
    ensures LastMatch(entries, name) == 0
    decreases |entries|
  {
    hide CString;
    if entries != [] {
      NoMatch(entries[..|entries| - 1], name);
    }
  }

  /** With distinct names it is the number of the one entry of that name. */
  lemma {:induction false} OneMatch(entries: seq<Entry>, name: seq<byte>, i: int)
    requires 0 <= i < |entries| && CString(entries[i].name) == name
    requires forall j | i < j < |entries| :: CString(entries[j].name) != name
    ensures LastMatch(entries, name) == entries[i].inode
    decreases |entries|
  {
    hide CString;
    var n := |entries| - 1;
    if i < n {
      OneMatch(entries[..n], name, i);
    }
  }

  lemma MatchGrows(entries: seq<Entry>, e: Entry, name: seq<byte>)
    ensures LastMatch(entries + [e], name) == if CString(e.name) == name then e.inode else LastMatch(entries, name)
  {
    assert (entries + [e])[..|entries|] == entries;
  }

  /** The bytes of a directory or file. */
  function Content(d: Device): seq<byte>
    requires Sound(d)
  {
    Slice(d, 0, d.size)
  }

  lemma PartOf(d: Device, offset: int, n: int)
    requires Sound(d) && 0 <= offset && 0 <= n && offset + n <= d.size
    ensures Slice(d, offset, n) == Content(d)[offset..offset + n]
  {
    hide ByteAt;
  }

  /** `BlockIO::read` of n bytes that are there. */
  method Fetch(d: Device, offset: int, n: int) returns (bytes: seq<byte>)
    requires Sound(d) && 0 <= offset && 0 <= n && offset + n <= d.size
    ensures bytes == Content(d)[offset..offset + n]
  {
    hide ByteAt, Content, Slice;
    var buffer := new byte[n];
    var cnt := ReadAll(d, offset, n, buffer, 0);
    PartOf(d, offset, n);
    bytes := buffer[..];
  }

  /** The first i bytes are the same, and none of them is a zero. */
  ghost predicate SameSoFar(a: seq<byte>, b: seq<byte>, i: int) {
    0 <= i <= |a| && i <= |b| && a[..i] == b[..i] && CString(b) == b[..i] + CString(b[i..])
  }

  lemma SameGrows(a: seq<byte>, b: seq<byte>, i: int)
    requires SameSoFar(a, b, i) && i < |a| && i < |b| && a[i] == b[i] != NUL
    ensures SameSoFar(a, b, i + 1)
  {
    assert b[i..][1..] == b[i + 1..];
    assert a[..i + 1] == a[..i] + [a[i]] && b[..i + 1] == b[..i] + [b[i]];
  }

  lemma SameEnds(a: seq<byte>, b: seq<byte>, i: int)
    requires SameSoFar(a, b, i) && i == |a| && (i == |b| || b[i] == NUL)
    ensures a == CString(b)
  {
  }

  lemma Differ(a: seq<byte>, b: seq<byte>, i: int)
    requires NUL !in a && SameSoFar(a, b, i)
    requires (if i < |a| then a[i] else NUL) != (if i < |b| then b[i] else NUL)
    ensures a != CString(b)
  {
    if i < |b| && b[i] != NUL {
      assert CString(b)[i] == b[i];
    } else {
      assert |CString(b)| == i;
    }
  }

  /** `K::streq` of a name and the bytes of a record with a zero behind them. */
  method StrEq(a: seq<byte>, b: seq<byte>) returns (same: bool)
    requires NUL !in a
    ensures same <==> a == CString(b)
  {
    hide CString, SameSoFar;
    var i := 0;
    NothingYet(a, b);
    while true
      invariant 0 <= i <= |a| && i <= |b| && SameSoFar(a, b, i)
      decreases |a| - i
    {
      var x := if i < |a| then a[i] else NUL;
      var y := if i < |b| then b[i] else NUL;
      assert i < |a| ==> a[i] != NUL;
      if x != y {
        Differ(a, b, i);
        return false;
      }
      if x == NUL {
        SameEnds(a, b, i);
        return true;
      }
      SameGrows(a, b, i);
      i := i + 1;
    }
  }

  lemma NothingYet(a: seq<byte>, b: seq<byte>)
    ensures SameSoFar(a, b, 0)
  {
    assert b[0..] == b;
  }

  /** `Node::find` over `Node::entries`. */
  method Find(d: Device, name: seq<byte>) returns (out: int)
    requires Sound(d) && NUL !in name && Records?(Content(d), 0)
    ensures out == LastMatch(Entries(Content(d), 0), name)
  {
    hide ByteAt, Slice, CString, Word32, Word16, Entries, Records?, LastMatch;
    ghost var s := Content(d);
    ghost var seen: seq<Entry> := [];
    var offset := 0;
    out := 0;
    NoMatch([], name);
    while offset < d.size
      invariant 0 <= offset <= |s| && Records?(s, offset) && seen + Entries(s, offset) == Entries(s, 0)
      invariant out == LastMatch(seen, name)
      decreases |s| - offset
    {
      NextRecord(s, offset);
      var inode := Fetch(d, offset, 4);
      var total := Fetch(d, offset + 4, 2);
      var length := Fetch(d, offset + 6, 1);
      var nm := Fetch(d, offset + 8, length[0] as int);
      SameWords(s, offset, inode, total);
      var same := StrEq(name, nm);
      MatchGrows(seen, Entry(Word32(inode, 0), nm), name);
      if same {
        out := Word32(inode, 0);
      }
      seen := seen + [Entry(Word32(inode, 0), nm)];
      offset := offset + Word16(total, 0);
    }
    NoRecords(s);
    assert seen == Entries(s, 0);
  }

  lemma NextRecord(s: seq<byte>, offset: int)
    requires 0 <= offset < |s| && Records?(s, offset)
    ensures offset + 8 <= |s| && offset + 8 + s[offset + 6] as int <= |s|
    ensures var next := offset + Word16(s, offset + 4);
      && offset < next <= |s| && Records?(s, next)
      && Entries(s, offset) ==
           [Entry(Word32(s, offset), s[offset + 8..offset + 8 + s[offset + 6] as int])] + Entries(s, next)
  {
  }

  lemma NoRecords(s: seq<byte>)
    ensures Records?(s, |s|) && Entries(s, |s|) == []
  {
  }

  lemma SameWords(s: seq<byte>, offset: int, inode: seq<byte>, total: seq<byte>)
    requires 0 <= offset && offset + 6 <= |s| && inode == s[offset..offset + 4] && total == s[offset + 4..offset + 6]
    ensures Word32(inode, 0) == Word32(s, offset) && Word16(total, 0) == Word16(s, offset + 4)
  {
  }
}
