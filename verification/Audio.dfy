/** Playing a wave file through a ring of sixteen pages: the refill loop of kernel/audio.h and the page
    reads of kernel/list_wave.h. */
module Audio {
  import opened BlockIo

  const PAGE := 4096
  const RING := 65536
  const TWO64 := 0x1_0000_0000_0000_0000

  /** Where byte l of the file's data lies in the ring. */
  function Place(l: int): (q: int)
    ensures 0 <= l ==> 0 <= q < RING
  {
    l % RING
  }

  /** The ring shows the data from `from` on, one turn of it, as far as the file goes; the data begins at
      `start` in the file. */
  predicate ShowsAt(ring: seq<byte>, d: Device, start: int, l: int)
    requires |ring| == RING && Sound(d) && 0 <= start && 0 <= l
  {
    start + l < d.size ==> ring[Place(l)] == ByteAt(d, start + l)
  }

  ghost predicate Shows(ring: seq<byte>, d: Device, start: int, from: int) {
    && |ring| == RING && Sound(d) && 0 <= start && 0 <= from
    && (forall l {:trigger ShowsAt(ring, d, start, l)} | from <= l < from + RING :: ShowsAt(ring, d, start, l))
  }

  // ---- reading one page ----

  /** What `read_all` of a page leaves in the ring. */
  function PageRead(ring: seq<byte>, d: Device, offset: int, index: int): (r: seq<byte>)
    requires |ring| == RING && Sound(d) && 0 <= offset && 0 <= index < 16
    ensures |r| == RING
  {
    var n := Available(d, offset, PAGE);
    if n < 0 then ring else Overwritten(ring, PAGE * index, Slice(d, offset, n))
  }

  lemma PageReadAt(ring: seq<byte>, d: Device, offset: int, index: int, q: int)
    requires |ring| == RING && Sound(d) && 0 <= offset && 0 <= index < 16 && 0 <= q < RING
    ensures var r, k := PageRead(ring, d, offset, index)[q], q - PAGE * index;
      && (0 <= k < PAGE && offset + k < d.size ==> r == ByteAt(d, offset + k))
      && (!(0 <= k < PAGE) ==> r == ring[q])
  {
    hide ByteAt, Block, Within;
  }

  /** The page that comes next is the one whose data is oldest. */
  lemma PlaceOf(refills: int, l: int)
    requires 0 <= refills && PAGE * refills <= l < PAGE * refills + RING + PAGE
    ensures var page := PAGE * (refills % 16);
      && (l < PAGE * refills + PAGE ==> Place(l) == page + (l - PAGE * refills))
      && (PAGE * refills + PAGE <= l < PAGE * refills + RING ==> !(page <= Place(l) < page + PAGE))
      && (PAGE * refills + RING <= l ==> Place(l) == page + (l - PAGE * refills - RING))
  {
  }

  /** Reading the page with the oldest data moves the shown part of the file on by a page. */
  lemma RefillShows(ring: seq<byte>, d: Device, start: int, refills: int)
    requires 0 <= refills && Shows(ring, d, start, PAGE * refills)
    ensures Shows(PageRead(ring, d, start + RING + PAGE * refills, refills % 16), d, start, PAGE * (refills + 1))
  {
    hide PageRead, Place, Sound;
    var offset, index := start + RING + PAGE * refills, refills % 16;
    var ring' := PageRead(ring, d, offset, index);
    forall l | PAGE * (refills + 1) <= l < PAGE * (refills + 1) + RING ensures ShowsAt(ring', d, start, l) {
      PlaceOf(refills, l);
      PageReadAt(ring, d, offset, index, Place(l));
      if l < PAGE * refills + RING {
        assert ShowsAt(ring, d, start, l);
      }
    }
  }

  // ---- the loop ----

  /** What the loop keeps: the ring, its counters, and the place in the file that is read next. */
  datatype Player = Player(ring: seq<byte>, written: int, index: int, offset: int)

  /** `(hardware_offset - written) % 65536` in 64 unsigned bits. */
  function Ahead(hardware: int, written: int): int {
    ((hardware - written + TWO64) % TWO64) % RING
  }

  /** The counters are those of `refills` pages read so far. */
  ghost predicate Keeps(p: Player, d: Device, start: int, refills: int) {
    && 0 <= refills && Shows(p.ring, d, start, PAGE * refills)
    && p.index == refills % 16 && p.written == PAGE * p.index && p.offset == start + RING + PAGE * refills
  }

  /** One turn of the loop with the hardware's position. */
  function Polled(p: Player, d: Device, hardware: int): Player
    requires |p.ring| == RING && Sound(d) && 0 <= p.offset && 0 <= p.index < 16
  {
    if Ahead(hardware, p.written) > PAGE then
      Player(PageRead(p.ring, d, p.offset, p.index), (p.written + PAGE) % RING, (p.index + 1) % 16, p.offset + PAGE)
    else p
  }

  lemma AheadIs(played: int, refills: int)
    requires 0 <= refills && PAGE * refills <= played < PAGE * refills + RING
    ensures Ahead(Place(played), PAGE * (refills % 16)) == played - PAGE * refills
  {
    var a, w := played % RING, PAGE * (refills % 16);
    assert w == (PAGE * refills) % RING;
    if a >= w {
      assert (a - w + TWO64) % TWO64 == a - w;
    } else {
      assert (a - w + TWO64) % TWO64 == a - w + TWO64;
    }
  }

  /** If the hardware is less than a turn past the refill position, a turn of the loop keeps everything in
      step, does not overtake it, and rewrites no page that it is in. */
  lemma PollKeeps(p: Player, d: Device, start: int, refills: int, played: int)
    requires Keeps(p, d, start, refills) && PAGE * refills <= played < PAGE * refills + RING
    ensures var refills' := if played - PAGE * refills > PAGE then refills + 1 else refills;
      var p' := Polled(p, d, Place(played));
      && Keeps(p', d, start, refills') && PAGE * refills' <= played
      && (forall q | 0 <= q < RING && q / PAGE == Place(played) / PAGE :: p'.ring[q] == p.ring[q])
  {
    hide Shows, PageRead, Place, Ahead, Sound;
    ShowsMeans(p.ring, d, start, PAGE * refills);
    AheadIs(played, refills);
    if played - PAGE * refills > PAGE {
      RefillShows(p.ring, d, start, refills);
      PlaceOf(refills, played);
      forall q | 0 <= q < RING && q / PAGE == Place(played) / PAGE
        ensures Polled(p, d, Place(played)).ring[q] == p.ring[q]
      {
        PageReadAt(p.ring, d, p.offset, p.index, q);
      }
    }
  }

  lemma ShowsMeans(ring: seq<byte>, d: Device, start: int, from: int)
    requires Shows(ring, d, start, from)
    ensures |ring| == RING && Sound(d) && 0 <= start && 0 <= from
  {
  }

  // ---- whole runs ----

  /** The loop polls, or the hardware plays on by n bytes. */
  datatype Event = Poll | Advance(n: nat)

  /** The player, the pages read since the start, and what has been heard. */
  datatype State = State(p: Player, refills: int, heard: seq<byte>)

  /** The hardware stays less than a turn ahead of the refill position. */
  predicate InTime(s: State, e: Event) {
    e.Advance? ==> |s.heard| + e.n < PAGE * s.refills + RING
  }

  function After(s: State, d: Device, e: Event): State
    requires |s.p.ring| == RING && Sound(d) && 0 <= s.p.offset && 0 <= s.p.index < 16
  {
    match e
    case Poll =>
      var hardware := Place(|s.heard|);
      State(Polled(s.p, d, hardware), s.refills + if Ahead(hardware, s.p.written) > PAGE then 1 else 0, s.heard)
    case Advance(n) =>
      State(s.p, s.refills, s.heard + seq(n, k requires 0 <= k < n => s.p.ring[Place(|s.heard| + k)]))
  }

  predicate HeardAt(heard: seq<byte>, d: Device, start: int, l: int)
    requires Sound(d) && 0 <= start && 0 <= l < |heard|
  {
    start + l < d.size ==> heard[l] == ByteAt(d, start + l)
  }

  ghost predicate Inv(s: State, d: Device, start: int) {
    && Keeps(s.p, d, start, s.refills) && PAGE * s.refills <= |s.heard| < PAGE * s.refills + RING
    && Sound(d) && 0 <= start
    && (forall l {:trigger HeardAt(s.heard, d, start, l)} | 0 <= l < |s.heard| :: HeardAt(s.heard, d, start, l))
  }

  lemma EventKeeps(s: State, d: Device, start: int, e: Event)
    requires Inv(s, d, start) && InTime(s, e)
    ensures |s.p.ring| == RING && 0 <= s.p.offset && 0 <= s.p.index < 16
    ensures Inv(After(s, d, e), d, start)
  {
    hide Shows, Place, ByteAt, Sound, Ahead;
    ShowsMeans(s.p.ring, d, start, PAGE * s.refills);
    AheadIs(|s.heard|, s.refills);
    match e
    case Poll => PollKeeps(s.p, d, start, s.refills, |s.heard|);
    case Advance(n) =>
      var s' := After(s, d, e);
      forall l | 0 <= l < |s'.heard| ensures HeardAt(s'.heard, d, start, l) {
        if l < |s.heard| {
          assert HeardAt(s.heard, d, start, l);
        } else {
          ShowsThere(s.p.ring, d, start, PAGE * s.refills, l);
          assert s'.heard[l] == s.p.ring[Place(l)];
        }
      }
  }

  lemma ShowsThere(ring: seq<byte>, d: Device, start: int, from: int, l: int)
    requires Shows(ring, d, start, from) && from <= l < from + RING
    ensures start + l < d.size ==> ring[Place(l)] == ByteAt(d, start + l)
  {
    assert ShowsAt(ring, d, start, l);
  }

  /** A run of the loop and the hardware; an advance that would come too late is left out. */
  ghost function Run(s: State, d: Device, start: int, events: seq<Event>): State
    requires Inv(s, d, start)
    decreases |events|
  {
    if events == [] then s
    else if !InTime(s, events[0]) then Run(s, d, start, events[1..])
    else
      EventKeeps(s, d, start, events[0]);
      Run(After(s, d, events[0]), d, start, events[1..])
  }

  /** Whatever has been heard in a run without end is the file's data, byte for byte from its beginning, as
      far as the file goes. */
  lemma {:induction false} HearsTheFile(s: State, d: Device, start: int, events: seq<Event>)
    requires Inv(s, d, start)
    ensures var s' := Run(s, d, start, events);
      && Inv(s', d, start) && s.heard <= s'.heard
      && (forall l | 0 <= l < |s'.heard| && start + l < d.size :: s'.heard[l] == ByteAt(d, start + l))
    decreases |events|
  {
    hide Keeps, ByteAt, Sound, After;
    if events == [] {
      forall l | 0 <= l < |s.heard| && start + l < d.size ensures s.heard[l] == ByteAt(d, start + l) {
        assert HeardAt(s.heard, d, start, l);
      }
    } else if !InTime(s, events[0]) {
      HearsTheFile(s, d, start, events[1..]);
    } else {
      EventKeeps(s, d, start, events[0]);
      HeardGrows(s, d, events[0]);
      HearsTheFile(After(s, d, events[0]), d, start, events[1..]);
    }
  }

  lemma HeardGrows(s: State, d: Device, e: Event)
    requires |s.p.ring| == RING && Sound(d) && 0 <= s.p.offset && 0 <= s.p.index < 16
    ensures s.heard <= After(s, d, e).heard
  {
    hide Polled;
  }

  /** The state in which the constructor of the wave leaves the player, with nothing heard. */
  ghost predicate Started(p: Player, d: Device, start: int) {
    Keeps(p, d, start, 0)
  }

  lemma StartOk(p: Player, d: Device, start: int)
    requires Started(p, d, start)
    ensures Inv(State(p, 0, []), d, start)
  {
    hide ShowsAt;
  }

  /** So from the constructor on, all that is heard is the file's data, in order and from its beginning. */
  lemma PlaysTheFile(p: Player, d: Device, start: int, events: seq<Event>)
    requires Started(p, d, start)
    ensures Inv(State(p, 0, []), d, start) && Sound(d)
    ensures var heard := Run(State(p, 0, []), d, start, events).heard;
      forall l | 0 <= l < |heard| && start + l < d.size :: heard[l] == ByteAt(d, start + l)
  {
    hide Keeps, Run, Started, ByteAt;
    StartOk(p, d, start);
    HearsTheFile(State(p, 0, []), d, start, events);
  }

  // ---- the ring in memory ----

  /** The first i pages have been read. */
  ghost predicate FirstPages(ring: seq<byte>, d: Device, start: int, i: int) {
    && |ring| == RING && Sound(d) && 0 <= start && 0 <= i <= 16
    && (forall l {:trigger ShowsAt(ring, d, start, l)} | 0 <= l < PAGE * i :: ShowsAt(ring, d, start, l))
  }

  lemma OnePageMore(ring: seq<byte>, d: Device, start: int, i: int)
    requires FirstPages(ring, d, start, i) && i < 16
    ensures FirstPages(PageRead(ring, d, start + PAGE * i, i), d, start, i + 1)
  {
    hide PageRead, Sound, ByteAt;
    var ring' := PageRead(ring, d, start + PAGE * i, i);
    forall l | 0 <= l < PAGE * (i + 1) ensures ShowsAt(ring', d, start, l) {
      PageReadAt(ring, d, start + PAGE * i, i, l);
      assert l < PAGE * i ==> ShowsAt(ring, d, start, l);
    }
  }

  class Wave {
    const file: Device
    const start: int
    const ring: array<byte>
    var offset: int
    var written: int
    var index: int

    ghost function View(): Player
      reads this, ring
    {
      Player(ring[..], written, index, offset)
    }

    ghost predicate Readable()
      reads this
    {
      ring.Length == RING && Sound(file) && 0 <= start <= offset
    }

    ghost predicate Valid()
      reads this
    {
      Readable() && 0 <= index < 16 && 0 <= written < RING
    }

    /** The constructor's loop over the sixteen pages. */
    constructor (file: Device, start: int, ring: array<byte>)
      requires Sound(file) && ring.Length == RING && 0 <= start && start + RING < TWO32
      modifies ring
      ensures this.file == file && this.start == start && this.ring == ring
      ensures Valid() && Started(View(), file, start)
    {
      this.file, this.start, this.ring := file, start, ring;
      written, index, offset := 0, 0, start;
      new;
      hide ByteAt, Slice, Overwritten, ShowsAt, Sound;
      SoundMeans(file);
      for i := 0 to 16
        modifies ring, `offset
        invariant offset == start + PAGE * i && FirstPages(ring[..], file, start, i)
      {
        ghost var was := ring[..];
        var _ := ReadAll(file, start + PAGE * i, PAGE, ring, PAGE * i);
        offset := start + PAGE * i + PAGE;
        OnePageMore(was, file, start, i);
      }
    }

    /** `rebuildData` */
    method RebuildData(page: int)
      requires Readable() && 0 <= page < 16 && offset < TWO32
      modifies ring, `offset
      ensures ring[..] == PageRead(old(ring[..]), file, old(offset), page) && offset == old(offset) + PAGE
    {
      hide ByteAt, Slice, Overwritten;
      var _ := ReadAll(file, offset, PAGE, ring, PAGE * page);
      offset := offset + PAGE;
    }

    /** One turn of the endless loop, with the position read from the hardware; the machine shuts down
        once the size in the file's header is reached. */
    method Turn(hardware: int, size: int) returns (shutdown: bool)
      requires Valid() && 0 <= hardware < RING && offset < TWO32
      modifies ring, `offset, `written, `index
      ensures Valid() && View() == Polled(old(View()), file, hardware)
      ensures shutdown <==> offset >= size
    {
      hide PageRead, Sound;
      if Ahead(hardware, written) > PAGE {
        var page := index;
        index := index + 1;
        RebuildData(page);
        written := written + PAGE;
        written := written % RING;
        index := index % 16;
      }
      shutdown := offset >= size;
    }
  }
}
