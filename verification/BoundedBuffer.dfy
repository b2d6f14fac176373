/** The bounded buffer of kernel/bb.h: the ring by itself, as a class, and then any number of producers
    and consumers that interleave at every access to shared data. */
module BoundedBuffer {
  import opened Common

  // ---- the ring ----

  /** Where the i-th item from `head` lies in a ring of size places. */
  function Spot(size: int, head: int, i: int): int {
    if head + i < size then head + i else head + i - size
  }

  ghost predicate Holds<T>(data: seq<T>, head: int, items: seq<T>) {
    && 0 <= head < |data| && |items| <= |data|
    && forall i {:trigger items[i]} | 0 <= i < |items| :: data[Spot(|data|, head, i)] == items[i]
  }

  /** `%` as the code uses it: a remainder that wraps at most once. */
  lemma Wraps(a: int, size: int)
    requires 0 <= a < 2 * size
    ensures a % size == if a < size then a else a - size
  {
    var q := a / size;
    assert a == q * size + a % size && 0 <= a % size < size;
    if q >= 2 {
      AtLeast(q, 2, size);
    } else if q < 0 {
      AtLeast(-q, 1, size);
    }
  }

  lemma AtLeast(q: int, k: int, size: int)
    requires q >= k && size > 0
    ensures q * size >= k * size
  {
  }

  /** Writing behind the last item adds one. */
  lemma PutHolds<T>(data: seq<T>, head: int, items: seq<T>, x: T)
    requires Holds(data, head, items) && |items| < |data|
    ensures 0 <= Spot(|data|, head, |items|) < |data|
    ensures Holds(data[Spot(|data|, head, |items|) := x], head, items + [x])
    ensures Holds(data[Spot(|data|, head, |items|) := x], head, items)
  {
    var size := |data|;
    forall i | 0 <= i < |items| ensures Spot(size, head, i) != Spot(size, head, |items|) {
    }
  }

  lemma HeadIn<T>(data: seq<T>, head: int, items: seq<T>)
    requires Holds(data, head, items)
    ensures 0 <= head < |data|
  {
  }

  /** Moving the head over the first item removes it. */
  lemma GetHolds<T>(data: seq<T>, head: int, items: seq<T>)
    requires Holds(data, head, items) && items != []
    ensures data[head] == items[0] && Holds(data, Spot(|data|, head, 1), items[1..])
  {
    assert Spot(|data|, head, 0) == head;
    var rest := items[1..];
    forall i | 0 <= i < |rest| ensures data[Spot(|data|, Spot(|data|, head, 1), i)] == rest[i] {
      assert Spot(|data|, Spot(|data|, head, 1), i) == Spot(|data|, head, i + 1);
      assert rest[i] == items[i + 1];
    }
  }

  const TWO32 := 0x1_0000_0000

  /** Sums of two `uint32_t`. */
  function Sum32(a: int, b: int): int {
    (a + b) % TWO32
  }

  /** The place that `put` computes is the right one in every state exactly if the size is at most 2^31. */
  lemma SizeThatFits(size: int)
    requires 0 < size < TWO32
    ensures (forall head, n | 0 <= head < size && 0 <= n < size :: Sum32(head, n) % size == Spot(size, head, n))
       <==> size <= 0x8000_0000
  {
    if size <= 0x8000_0000 {
      forall head, n | 0 <= head < size && 0 <= n < size ensures Sum32(head, n) % size == Spot(size, head, n) {
        PlaceIs(head, n, size);
      }
    } else {
      var head, n := size - 1, TWO32 - (size - 1);
      assert Sum32(head, n) == 0 && Spot(size, head, n) == TWO32 - size;
      Wraps(0, size);
      assert 0 <= head < size && 0 <= n < size && Sum32(head, n) % size != Spot(size, head, n);
    }
  }

  lemma PlaceIs(head: int, n: int, size: int)
    requires 0 <= head < size <= 0x8000_0000 && 0 <= n < size
    ensures Sum32(head, n) % size == Spot(size, head, n)
  {
    Wraps(head + n, size);
  }

  /** The buffer's own fields, and what `put` and `get` do to them while they hold the lock. */
  class Ring<T> {
    const data: array<T>
    var head: int
    var n: int
    ghost var items: seq<T>

    ghost predicate Valid()
      reads this, data
    {
      Holds(data[..], head, items) && n == |items| && data.Length <= 0x8000_0000
    }

    constructor (data: array<T>)
      requires 0 < data.Length <= 0x8000_0000
      ensures Valid() && items == [] && this.data == data
    {
      this.data, head, n, items := data, 0, 0, [];
    }

    method Put(t: T)
      requires Valid() && n < data.Length
      modifies data, `n, `items
      ensures Valid() && items == old(items) + [t]
    {
      PutHolds(data[..], head, items, t);
      PlaceIs(head, n, data.Length);
      ghost var was := data[..];
      data[Sum32(head, n) % data.Length] := t;
      assert data[..] == was[Spot(data.Length, head, n) := t];
      n := n + 1;
      items := items + [t];
    }

    method Get() returns (out: T)
      requires Valid() && n > 0
      modifies `head, `n, `items
      ensures Valid() && out == old(items)[0] && items == old(items)[1..]
    {
      GetHolds(data[..], head, items);
      Wraps(head + 1, data.Length);
      out := data[head];
      head := (head + 1) % data.Length;
      n := n - 1;
      items := items[1..];
    }
  }
}
