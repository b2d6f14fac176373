/** The set-associative block cache of kernel/Ext22.h. */
module BlockCache {
  import opened BlockIo
  import opened Common
  import opened FileBlocks

  datatype Key = Key(number: int, block: int)

  /** One room of a set.  `lru` is 16 bits wide. */
  datatype Line = Line(valid: bool, key: Key, lru: int, data: seq<byte>)

  const STAMPS := 0x1_0000

  // ---- the order of use, as a list ----

  /** A list of keys, least recently used first, without key k. */
  function Without(keys: seq<Key>, k: Key): seq<Key> {
    if keys == [] then [] else if keys[0] == k then keys[1..] else [keys[0]] + Without(keys[1..], k)
  }

  /** A set of `rooms` rooms that throws out what was used the longest time ago. */
  function Touched(keys: seq<Key>, k: Key, rooms: int): seq<Key> {
    if k in keys then Without(keys, k) + [k]
    else if |keys| < rooms || keys == [] then keys + [k]
    else keys[1..] + [k]
  }

  // ---- one set ----

  predicate Listed(order: seq<int>, r: int) {
    exists i :: 0 <= i < |order| && order[i] == r
  }

  /** No key is in two rooms. */
  ghost predicate NoDoubles(line: seq<Line>) {
    forall i, j | 0 <= i < j < |line| && line[i].valid && line[j].valid :: line[i].key != line[j].key
  }

  predicate RoomAt(line: seq<Line>, order: seq<int>, lru: int, i: int)
    requires 0 <= i < |order|
  {
    0 <= order[i] < |line| && line[order[i]].valid && line[order[i]].lru <= lru
  }

  predicate Before(line: seq<Line>, r: int, r': int) {
    0 <= r < |line| && 0 <= r' < |line| && line[r].lru < line[r'].lru
  }

  /** `order` is the rooms in use, by rising stamps. */
  ghost predicate Ordered(line: seq<Line>, order: seq<int>, lru: int) {
    && (forall i {:trigger RoomAt(line, order, lru, i)} | 0 <= i < |order| :: RoomAt(line, order, lru, i))
    && (forall i, j {:trigger Before(line, order[i], order[j])} | 0 <= i < j < |order| ::
          Before(line, order[i], order[j]))
    && (forall r {:trigger Listed(order, r)} | 0 <= r < |line| && line[r].valid :: Listed(order, r))
  }

  function Keys(line: seq<Line>, order: seq<int>): seq<Key>
    requires forall i | 0 <= i < |order| :: 0 <= order[i] < |line|
  {
    seq(|order|, i requires 0 <= i < |order| && 0 <= order[i] < |line| => line[order[i]].key)
  }

  lemma {:induction false} ManyRooms(q: seq<int>, n: nat)
    requires forall r | 0 <= r < n :: Listed(q, r)
    ensures |q| >= n
    decreases n
  {
    if n > 0 {
      assert Listed(q, n - 1);
      var i :| 0 <= i < |q| && q[i] == n - 1;
      var rest := q[..i] + q[i + 1..];
      forall r | 0 <= r < n - 1 ensures Listed(rest, r) {
        assert Listed(q, r);
        var j :| 0 <= j < |q| && q[j] == r;
        assert rest[if j < i then j else j - 1] == r;
      }
      ManyRooms(rest, n - 1);
    }
  }

  /** A set is full exactly when its list of keys is as long as it has rooms. */
  lemma FullWhenListed(line: seq<Line>, order: seq<int>, lru: int)
    requires Ordered(line, order, lru)
    ensures |order| <= |line|
    ensures |order| == |line| <==> forall r | 0 <= r < |line| :: line[r].valid
  {
    forall i, j | 0 <= i < j < |order| ensures order[i] != order[j] {
      assert Before(line, order[i], order[j]);
    }
    forall i | 0 <= i < |order| ensures 0 <= order[i] < |line| {
      assert RoomAt(line, order, lru, i);
    }
    FewDistinct(order, |line|);
    if forall r | 0 <= r < |line| :: line[r].valid {
      ManyRooms(order, |line|);
    } else {
      var r :| 0 <= r < |line| && !line[r].valid;
      var more := order + [r];
      forall i | 0 <= i < |order| ensures order[i] != r {
        assert RoomAt(line, order, lru, i);
      }
      FewDistinct(more, |line|);
    }
  }

  lemma {:induction false} WithoutAt(keys: seq<Key>, p: int)
    requires 0 <= p < |keys| && forall i | 0 <= i < p :: keys[i] != keys[p]
    ensures Without(keys, keys[p]) == keys[..p] + keys[p + 1..]
    decreases |keys|
  {
    if p > 0 {
      WithoutAt(keys[1..], p - 1);
      assert keys[..p] == [keys[0]] + keys[1..][..p - 1];
    }
  }

  /** Room order[p] is used again, with the newest stamp. */
  lemma HitOrdered(line: seq<Line>, order: seq<int>, lru: int, p: int, stamp: int)
    requires Ordered(line, order, lru) && 0 <= p < |order| && stamp > lru && 0 <= order[p] < |line|
    ensures Ordered(line[order[p] := line[order[p]].(lru := stamp)], order[..p] + order[p + 1..] + [order[p]], stamp)
  {
    var r := order[p];
    var line', order' := line[r := line[r].(lru := stamp)], order[..p] + order[p + 1..] + [r];
    assert RoomAt(line, order, lru, p);
    forall i | 0 <= i < |order| - 1
      ensures var i' := if i < p then i else i + 1; order'[i] == order[i'] && order[i'] != r && RoomAt(line, order, lru, i')
    {
      var i' := if i < p then i else i + 1;
      assert RoomAt(line, order, lru, i');
      assert i' < p ==> Before(line, order[i'], order[p]);
      assert i' > p ==> Before(line, order[p], order[i']);
    }
    forall i | 0 <= i < |order'| ensures RoomAt(line', order', stamp, i) {
    }
    forall i, j | 0 <= i < j < |order'| ensures Before(line', order'[i], order'[j]) {
      if j < |order| - 1 {
        assert Before(line, order[if i < p then i else i + 1], order[if j < p then j else j + 1]);
      }
    }
    forall q | 0 <= q < |line'| && line'[q].valid ensures Listed(order', q) {
      assert Listed(order, q);
      var i :| 0 <= i < |order| && order[i] == q;
      assert order'[if i == p then |order| - 1 else if i < p then i else i - 1] == q;
    }
  }

  lemma Hit(line: seq<Line>, order: seq<int>, lru: int, p: int, stamp: int)
    requires Ordered(line, order, lru) && NoDoubles(line) && 0 <= p < |order| && stamp > lru
    requires forall i | 0 <= i < |order| :: 0 <= order[i] < |line|
    ensures var r := order[p];
      var line', order' := line[r := line[r].(lru := stamp)], order[..p] + order[p + 1..] + [r];
      && Ordered(line', order', stamp) && NoDoubles(line')
      && (forall i | 0 <= i < |order'| :: 0 <= order'[i] < |line'|)
      && Keys(line', order') == Touched(Keys(line, order), line[r].key, |line|)
  {
    var r := order[p];
    var line', order' := line[r := line[r].(lru := stamp)], order[..p] + order[p + 1..] + [r];
    HitOrdered(line, order, lru, p, stamp);
    var keys := Keys(line, order);
    assert RoomAt(line, order, lru, p);
    forall i | 0 <= i < p ensures keys[i] != keys[p] {
      assert RoomAt(line, order, lru, i) && Before(line, order[i], order[p]);
    }
    WithoutAt(keys, p);
    assert keys[p] in keys;
    KeysMove(line, order, p, stamp);
  }

  lemma KeysMove(line: seq<Line>, order: seq<int>, p: int, stamp: int)
    requires 0 <= p < |order| && forall i | 0 <= i < |order| :: 0 <= order[i] < |line|
    ensures var r, keys := order[p], Keys(line, order);
      Keys(line[r := line[r].(lru := stamp)], order[..p] + order[p + 1..] + [r]) == keys[..p] + keys[p + 1..] + [keys[p]]
  {
    var r, keys := order[p], Keys(line, order);
    var line', order' := line[r := line[r].(lru := stamp)], order[..p] + order[p + 1..] + [r];
    assert forall i | 0 <= i < |line| :: line'[i].key == line[i].key;
    forall i | 0 <= i < |order'|
      ensures 0 <= order'[i] < |line'| && Keys(line', order')[i] == (keys[..p] + keys[p + 1..] + [keys[p]])[i]
    {
      assert order'[i] == order[if i < p then i else if i < |order| - 1 then i + 1 else p];
    }
  }

  /** Room r, free or the one used the longest time ago in a full set, takes a new block. */
  lemma Miss(line: seq<Line>, order: seq<int>, lru: int, r: int, entry: Line)
    requires Ordered(line, order, lru) && NoDoubles(line) && 0 <= r < |line| && entry.valid && entry.lru > lru
    requires forall i | 0 <= i < |order| :: 0 <= order[i] < |line|
    requires forall i | 0 <= i < |line| && line[i].valid :: line[i].key != entry.key
    requires !line[r].valid || ((forall i | 0 <= i < |line| :: line[i].valid) && order != [] && r == order[0])
    ensures var line', order' := line[r := entry], (if line[r].valid then order[1..] else order) + [r];
      && Ordered(line', order', entry.lru) && NoDoubles(line')
      && (forall i | 0 <= i < |order'| :: 0 <= order'[i] < |line'|)
      && Keys(line', order') == Touched(Keys(line, order), entry.key, |line|)
  {
    var d := if line[r].valid then 1 else 0;
    var line', order' := line[r := entry], order[d..] + [r];
    forall i | 0 <= i < |order| - d ensures order'[i] == order[i + d] && order[i + d] != r {
      assert RoomAt(line, order, lru, i + d);
      if d == 1 {
        assert Before(line, order[0], order[i + 1]);
      }
    }
    forall i | 0 <= i < |order'| ensures RoomAt(line', order', entry.lru, i) {
      assert i < |order'| - 1 ==> RoomAt(line, order, lru, i + d);
    }
    forall i, j | 0 <= i < j < |order'| ensures Before(line', order'[i], order'[j]) {
      assert RoomAt(line, order, lru, i + d);
      assert j < |order'| - 1 ==> Before(line, order[i + d], order[j + d]);
    }
    forall q | 0 <= q < |line'| && line'[q].valid ensures Listed(order', q) {
      if q == r {
        assert order'[|order'| - 1] == r;
      } else {
        assert Listed(order, q);
        var i :| 0 <= i < |order| && order[i] == q;
        assert order'[i - d] == q;
      }
    }
    FullWhenListed(line, order, lru);
    var keys := Keys(line, order);
    forall i | 0 <= i < |keys| ensures keys[i] != entry.key {
      assert RoomAt(line, order, lru, i);
    }
    assert Keys(line', order') == keys[d..] + [entry.key];
  }

  /** In a full set the room with the lowest stamp is the first in the order. */
  lemma Oldest(line: seq<Line>, order: seq<int>, lru: int, r: int)
    requires Ordered(line, order, lru) && 0 <= r < |line| && line[r].valid
    requires forall i | 0 <= i < |line| :: line[r].lru <= line[i].lru
    ensures order != [] && r == order[0]
  {
    assert Listed(order, r);
    var i :| 0 <= i < |order| && order[i] == r;
    assert RoomAt(line, order, lru, 0);
    assert i > 0 ==> Before(line, order[0], order[i]);
  }

  // ---- the cache ----

  /** What the cache reads from: the disk, and the i-nodes by their numbers. */
  datatype Store = Store(disk: Device, blockSize: int, nodes: map<int, Inode>)

  ghost predicate Known(st: Store, key: Key) {
    && key.number in st.nodes && Shaped(st.disk, st.blockSize, st.nodes[key.number])
    && key.block < DoubleLimit(st.blockSize) && Reachable(st.disk, st.blockSize, st.nodes[key.number], key.block)
  }

  /** What reading the block without a cache gives. */
  ghost function Uncached(st: Store, key: Key): seq<byte>
    requires Known(st, key)
  {
    FileBlock(st.disk, st.blockSize, st.nodes[key.number], key.block)
  }

  /** A room in use belongs to set k of `sets`, and holds what is on the disk. */
  ghost predicate RoomOk(st: Store, sets: int, k: int, room: Line)
    requires 0 < sets
  {
    room.valid ==>
      Known(st, room.key) && Within(room.key.block, sets) == k && room.data == Uncached(st, room.key)
  }

  ghost predicate Coherent(st: Store, sets: int, k: int, line: seq<Line>)
    requires 0 < sets
  {
    NoDoubles(line) && forall i {:trigger line[i]} | 0 <= i < |line| :: RoomOk(st, sets, k, line[i])
  }

  /** One set as it should be; `inOrder` while no stamp has come twice. */
  ghost predicate SetFits(st: Store, sets: int, k: int, rooms: int, line: seq<Line>, order: seq<int>, lru: int, inOrder: bool) {
    && 0 < sets && |line| == rooms && Coherent(st, sets, k, line)
    && (inOrder ==> Ordered(line, order, lru) && forall i | 0 <= i < |order| :: 0 <= order[i] < |line|)
  }

  predicate FoundAt(line: seq<Line>, key: Key, i: int) {
    0 <= i < |line| && line[i].valid && line[i].key == key
  }

  lemma HitFits(st: Store, sets: int, k: int, rooms: int, line: seq<Line>, order: seq<int>, lru: int, inOrder: bool,
                i: int, key: Key, stamp: int)
    returns (order': seq<int>)
    requires SetFits(st, sets, k, rooms, line, order, lru, inOrder) && FoundAt(line, key, i)
    requires inOrder ==> stamp > lru
    ensures Known(st, key) && line[i].data == Uncached(st, key)
    ensures var line' := line[i := line[i].(lru := stamp)];
      && SetFits(st, sets, k, rooms, line', order', stamp, inOrder)
      && (inOrder ==> Keys(line', order') == Touched(Keys(line, order), key, rooms))
  {
    hide Known, Uncached, Ordered;
    assert RoomOk(st, sets, k, line[i]);
    var line' := line[i := line[i].(lru := stamp)];
    assert Coherent(st, sets, k, line');
    order' := order;
    if inOrder {
      InOrder(line, order, lru, i);
      var p :| 0 <= p < |order| && order[p] == i;
      Hit(line, order, lru, p, stamp);
      order' := order[..p] + order[p + 1..] + [i];
    }
  }

  lemma InOrder(line: seq<Line>, order: seq<int>, lru: int, i: int)
    requires Ordered(line, order, lru) && 0 <= i < |line| && line[i].valid
    ensures Listed(order, i)
  {
  }

  lemma MissFits(st: Store, sets: int, k: int, rooms: int, line: seq<Line>, order: seq<int>, lru: int, inOrder: bool,
                 r: int, entry: Line)
    returns (order': seq<int>)
    requires SetFits(st, sets, k, rooms, line, order, lru, inOrder) && 0 <= r < rooms
    requires forall j | 0 <= j < rooms :: !FoundAt(line, entry.key, j)
    requires line[r].valid ==> forall j | 0 <= j < rooms :: line[j].valid && line[r].lru <= line[j].lru
    requires entry.valid && RoomOk(st, sets, k, entry) && (inOrder ==> entry.lru > lru)
    ensures var line' := line[r := entry];
      && SetFits(st, sets, k, rooms, line', order', entry.lru, inOrder)
      && (inOrder ==> Keys(line', order') == Touched(Keys(line, order), entry.key, rooms))
  {
    hide Known, Uncached, Ordered, RoomOk;
    var line' := line[r := entry];
    forall j | 0 <= j < rooms && line[j].valid ensures line[j].key != entry.key {
      assert !FoundAt(line, entry.key, j);
    }
    assert Coherent(st, sets, k, line');
    order' := order;
    if inOrder {
      if line[r].valid {
        Oldest(line, order, lru, r);
      }
      Miss(line, order, lru, r, entry);
      order' := (if line[r].valid then order[1..] else order) + [r];
    }
  }

  lemma Later(st: Store, sets: int, k: int, rooms: int, line: seq<Line>, order: seq<int>, lru: int, stamp: int,
              was: bool, inOrder: bool)
    requires SetFits(st, sets, k, rooms, line, order, lru, was) && (inOrder ==> was && stamp >= lru)
    ensures SetFits(st, sets, k, rooms, line, order, stamp, inOrder)
  {
    if inOrder {
      forall i | 0 <= i < |order| ensures RoomAt(line, order, stamp, i) {
        assert RoomAt(line, order, lru, i);
      }
    }
  }

  ghost predicate AllFit(st: Store, rooms: int, lines: seq<seq<Line>>, orders: seq<seq<int>>, lru: int, inOrder: bool) {
    && 0 < |lines| == |orders|
    && forall k {:trigger lines[k]} | 0 <= k < |lines| ::
         SetFits(st, |lines|, k, rooms, lines[k], orders[k], lru, inOrder)
  }

  ghost function KeysOf(st: Store, rooms: int, lines: seq<seq<Line>>, orders: seq<seq<int>>, lru: int, k: int): seq<Key>
    requires AllFit(st, rooms, lines, orders, lru, true) && 0 <= k < |lines|
  {
    assert SetFits(st, |lines|, k, rooms, lines[k], orders[k], lru, true);
    Keys(lines[k], orders[k])
  }

  /** One set changes, and time goes on for the others. */
  lemma Replaced(st: Store, rooms: int, lines: seq<seq<Line>>, orders: seq<seq<int>>, lru: int, stamp: int,
                 was: bool, inOrder: bool, k: int, line: seq<Line>, order: seq<int>)
    requires AllFit(st, rooms, lines, orders, lru, was) && (inOrder ==> was && stamp >= lru) && 0 <= k < |lines|
    requires SetFits(st, |lines|, k, rooms, line, order, stamp, inOrder)
    ensures AllFit(st, rooms, lines[k := line], orders[k := order], stamp, inOrder)
    ensures inOrder ==> forall j | 0 <= j < |lines| && j != k ::
      KeysOf(st, rooms, lines[k := line], orders[k := order], stamp, j) == KeysOf(st, rooms, lines, orders, lru, j)
    ensures inOrder ==> KeysOf(st, rooms, lines[k := line], orders[k := order], stamp, k) == Keys(line, order)
  {
    hide SetFits, Keys;
    var lines', orders' := lines[k := line], orders[k := order];
    forall j | 0 <= j < |lines'| ensures SetFits(st, |lines'|, j, rooms, lines'[j], orders'[j], stamp, inOrder) {
      if j != k {
        assert SetFits(st, |lines|, j, rooms, lines[j], orders[j], lru, was);
        Later(st, |lines|, j, rooms, lines[j], orders[j], lru, stamp, was, inOrder);
      }
    }
    FitRooms(st, |lines|, k, rooms, line, order, stamp, inOrder);
  }

  lemma FitRooms(st: Store, sets: int, k: int, rooms: int, line: seq<Line>, order: seq<int>, lru: int, inOrder: bool)
    requires SetFits(st, sets, k, rooms, line, order, lru, inOrder)
    ensures |line| == rooms && (inOrder ==> forall i | 0 <= i < |order| :: 0 <= order[i] < |line|)
  {
  }

  class Cache {
    const store: Store
    const cache: array<seq<Line>>
    const rooms: int
    var lru: int
    ghost var calls: int
    ghost var orders: seq<seq<int>>

    ghost predicate Valid()
      reads this, cache
    {
      && 0 <= calls && lru == calls % STAMPS && 0 < rooms
      && AllFit(store, rooms, cache[..], orders, lru, calls < STAMPS)
    }

    /** The keys in set k, least recently used first. */
    ghost function Recent(k: int): seq<Key>
      reads this, cache
      requires Valid() && 0 <= k < cache.Length && calls < STAMPS
    {
      KeysOf(store, rooms, cache[..], orders, lru, k)
    }

    constructor (store: Store, cache: array<seq<Line>>, rooms: int)
      requires 0 < rooms && 0 < cache.Length
      modifies cache
      ensures Valid() && calls == 0 && this.cache == cache && this.rooms == rooms && this.store == store
      ensures forall k | 0 <= k < cache.Length :: Recent(k) == []
    {
      this.store, this.cache, this.rooms := store, cache, rooms;
      lru, calls := 0, 0;
      orders := seq(cache.Length, _ => []);
      new;
      for k := 0 to cache.Length
        modifies cache
        invariant forall j | 0 <= j < k :: cache[j] == seq(rooms, _ => Line(false, Key(0, 0), 0, []))
      {
        cache[k] := seq(rooms, _ => Line(false, Key(0, 0), 0, []));
      }
      assert AllFit(store, rooms, cache[..], orders, lru, true) by {
        forall k | 0 <= k < cache.Length ensures SetFits(store, cache.Length, k, rooms, cache[k], orders[k], lru, true) {
        }
      }
    }

    /** The search in `get`: the room with the key, or none. */
    method Search(line: seq<Line>, key: Key) returns (i: int)
      requires |line| == rooms
      ensures 0 <= i <= rooms && (i < rooms ==> FoundAt(line, key, i))
      ensures i == rooms ==> forall j | 0 <= j < rooms :: !FoundAt(line, key, j)
    {
      i := 0;
      while i < rooms
        invariant 0 <= i <= rooms && forall j | 0 <= j < i :: !FoundAt(line, key, j)
      {
        if line[i].valid && line[i].key == key {
          return;
        }
        i := i + 1;
      }
    }

    /** The choice in `miss`: the first free room, or the first with the lowest stamp. */
    method Victim(line: seq<Line>) returns (r: int)
      requires |line| == rooms > 0
      ensures 0 <= r < rooms
      ensures line[r].valid ==> forall j | 0 <= j < rooms :: line[j].valid && line[r].lru <= line[j].lru
    {
      var i := 0;
      while i < rooms
        invariant 0 <= i <= rooms && forall j | 0 <= j < i :: line[j].valid
      {
        if !line[i].valid {
          return i;
        }
        i := i + 1;
      }
      r := 0;
      i := 1;
      while i < rooms
        invariant 1 <= i <= rooms && 0 <= r < i && forall j | 0 <= j < i :: line[r].lru <= line[j].lru
      {
        if line[i].lru < line[r].lru {
          r := i;
        }
        i := i + 1;
      }
    }

    /** `miss`: the block is read, and a room gives way to it. */
    method Take(line: seq<Line>, key: Key, caller: Inode, k: int, ghost order: seq<int>, ghost was: int, ghost inOrder: bool)
      returns (line': seq<Line>, buffer: array<byte>, ghost order': seq<int>)
      requires SetFits(store, cache.Length, k, rooms, line, order, was, inOrder) && 0 < rooms
      requires Known(store, key) && caller == store.nodes[key.number] && k == Within(key.block, cache.Length)
      requires forall j | 0 <= j < rooms :: !FoundAt(line, key, j)
      requires inOrder ==> lru > was
      ensures fresh(buffer) && buffer[..] == Uncached(store, key)
      ensures SetFits(store, cache.Length, k, rooms, line', order', lru, inOrder)
      ensures inOrder ==> Keys(line', order') == Touched(Keys(line, order), key, rooms)
    {
      hide SetFits, Touched, Keys, RoomOk, Uncached, Reachable, Within, FileBlock, Coherent, DoubleLimit, BlockList;
      KnownMeans(store, key);
      FitRooms(store, cache.Length, k, rooms, line, order, was, inOrder);
      buffer := new byte[store.blockSize];
      ReadBlock(store.disk, store.blockSize, caller, key.block, buffer);
      ReadIs(store, cache.Length, key, buffer[..], lru);
      var r := Victim(line);
      var entry := Line(true, key, lru, buffer[..]);
      order' := MissFits(store, cache.Length, k, rooms, line, order, was, inOrder, r, entry);
      line' := line[r := entry];
    }

    /** The search of `get`, and what follows from it for the set. */
    method Use(line: seq<Line>, key: Key, caller: Inode, k: int, ghost order: seq<int>, ghost was: int, ghost inOrder: bool)
      returns (line': seq<Line>, buffer: array<byte>, ghost order': seq<int>)
      requires SetFits(store, cache.Length, k, rooms, line, order, was, inOrder) && 0 < rooms
      requires Known(store, key) && caller == store.nodes[key.number] && k == Within(key.block, cache.Length)
      requires inOrder ==> lru > was
      ensures fresh(buffer) && buffer[..] == Uncached(store, key)
      ensures SetFits(store, cache.Length, k, rooms, line', order', lru, inOrder)
      ensures inOrder ==> Keys(line', order') == Touched(Keys(line, order), key, rooms)
    {
      hide SetFits, Touched, Keys, RoomOk, Uncached, Reachable, Within, FileBlock, Known;
      FitRooms(store, cache.Length, k, rooms, line, order, was, inOrder);
      var i := Search(line, key);
      if i < rooms {
        order' := HitFits(store, cache.Length, k, rooms, line, order, was, inOrder, i, key, lru);
        buffer := new byte[|line[i].data|](j requires 0 <= j < |line[i].data| => line[i].data[j]);
        assert buffer[..] == line[i].data;
        line' := line[i := line[i].(lru := lru)];
      } else {
        line', buffer, order' := Take(line, key, caller, k, order, was, inOrder);
      }
    }

    /** `get`: always what is on the disk; and up to the 65535th call the set is exactly what a set that
        throws out the least recently used block would be. */
    method Get(number: int, block: int, caller: Inode) returns (buffer: array<byte>)
      requires Valid() && Known(store, Key(number, block)) && caller == store.nodes[number]
      modifies `lru, `calls, `orders, cache
      ensures Valid() && calls == old(calls) + 1
      ensures buffer[..] == Uncached(store, Key(number, block))
      ensures calls < STAMPS ==> forall k | 0 <= k < cache.Length ::
        Recent(k) == if k == Within(block, cache.Length) then Touched(old(Recent(k)), Key(number, block), rooms)
                     else old(Recent(k))
    {
      hide SetFits, Touched, Keys, Uncached, Reachable, Within, AllFit, KeysOf, Known;
      var key := Key(number, block);
      ghost var lines, was, before := cache[..], lru, calls < STAMPS;
      lru := (lru + 1) % STAMPS;
      calls := calls + 1;
      ghost var inOrder := calls < STAMPS;
      FitAt(store, rooms, lines, orders, was, before, inOrder);
      KnownMeans(store, key);
      var k := Within(block, cache.Length);
      var line;
      ghost var order;
      line, buffer, order := Use(cache[k], key, caller, k, orders[k], was, inOrder);
      Replaced(store, rooms, lines, orders, was, lru, before, inOrder, k, line, order);
      cache[k] := line;
      orders := orders[k := order];
      assert cache[..] == lines[k := line];
    }
  }

  lemma FitAt(st: Store, rooms: int, lines: seq<seq<Line>>, orders: seq<seq<int>>, lru: int, was: bool, inOrder: bool)
    requires AllFit(st, rooms, lines, orders, lru, was) && (inOrder ==> was)
    ensures 0 < |lines| == |orders|
    ensures forall k {:trigger lines[k]} | 0 <= k < |lines| ::
      SetFits(st, |lines|, k, rooms, lines[k], orders[k], lru, inOrder)
    ensures inOrder ==> forall k | 0 <= k < |lines| ::
      KeysOf(st, rooms, lines, orders, lru, k) == Keys(lines[k], orders[k])
  {
    hide SetFits, Keys;
    forall k | 0 <= k < |lines| ensures SetFits(st, |lines|, k, rooms, lines[k], orders[k], lru, inOrder) {
      Later(st, |lines|, k, rooms, lines[k], orders[k], lru, lru, was, inOrder);
    }
  }

  lemma KnownMeans(st: Store, key: Key)
    requires Known(st, key)
    ensures 0 < st.blockSize && 0 <= key.block
  {
  }

  lemma ReadIs(st: Store, sets: int, key: Key, data: seq<byte>, stamp: int)
    requires Known(st, key) && 0 < sets
    requires var list := BlockList(st.disk, st.blockSize, st.nodes[key.number]);
      && 0 <= key.block < |list|
      && data == DiskBlock(st.disk, st.blockSize, list[key.block])
    ensures data == Uncached(st, key)
    ensures RoomOk(st, sets, Within(key.block, sets), Line(true, key, stamp, data))
  {
    hide DiskBlock, BlockList, Reachable, Within;
  }
}
