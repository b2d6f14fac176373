/** The circle of kernel/vga.cc: an integer decision variable in place of a square root. */
module Circle {

  /** y is the integer nearest to the circle of radius r at x: (y - 1/2)^2 <= r^2 - x^2 < (y + 1/2)^2. */
  predicate Nearest(r: int, x: int, y: int) {
    (2 * y - 1) * (2 * y - 1) <= 4 * (r * r - x * x) < (2 * y + 1) * (2 * y + 1)
  }

  function Decision(r: int, x: int, y: int): int {
    4 * (x + 1) * (x + 1) + (2 * y - 1) * (2 * y - 1) - 4 * r * r
  }

  predicate Int32(v: int) {
    -0x8000_0000 <= v < 0x8000_0000
  }

  /** No row above y is nearest. */
  ghost predicate Highest(r: int, x: int, y: int) {
    forall v | v >= 0 && Nearest(r, x, v) :: v <= y
  }

  lemma Expanded(r: int, x: int, y: int)
    ensures Nearest(r, x, y) <==> 4 * (y * y) - 4 * y + 1 <= 4 * (r * r) - 4 * (x * x) < 4 * (y * y) + 4 * y + 1
    ensures Decision(r, x, y) == 4 * (x * x) + 8 * x + 5 + 4 * (y * y) - 4 * y - 4 * (r * r)
  {
    assert (2 * y - 1) * (2 * y - 1) == 4 * (y * y) - 4 * y + 1;
    assert (2 * y + 1) * (2 * y + 1) == 4 * (y * y) + 4 * y + 1;
    assert 4 * (x + 1) * (x + 1) == 4 * (x * x) + 8 * x + 4;
    assert 4 * r * r == 4 * (r * r);
  }

  lemma Next(x: int)
    ensures (x + 1) * (x + 1) == x * x + 2 * x + 1
  {
  }

  lemma NoneHigher(r: int, x: int, y: int)
    requires y >= 0 && 4 * (r * r) - 4 * (x * x) < 4 * (y * y) + 4 * y + 1
    ensures Highest(r, x, y)
  {
    hide Nearest, Decision;
    forall v | v >= 0 && Nearest(r, x, v) ensures v <= y {
      Expanded(r, x, v);
      if v > y {
        Rows(y, v);
      }
    }
  }

  lemma Rows(y: int, v: int)
    requires 0 <= y < v
    ensures y * y + y <= v * v - v
  {
    assert v * v - v == v * (v - 1);
    assert y * y + y == y * (y + 1);
    assert v * (v - 1) >= (y + 1) * (v - 1) >= (y + 1) * y;
  }

  lemma NearestIsOne(r: int, x: int, y: int, v: int)
    requires y >= 0 && v >= 0 && Nearest(r, x, y) && Nearest(r, x, v)
    ensures y == v
  {
    Expanded(r, x, y);
    Expanded(r, x, v);
    NoneHigher(r, x, y);
    NoneHigher(r, x, v);
  }

  /** With a negative decision variable the row stays nearest one column on. */
  lemma StepEast(r: int, x: int, y: int)
    ensures Nearest(r, x, y) && Decision(r, x, y) < 0 && 0 <= x && 0 <= y ==>
      Nearest(r, x + 1, y) && Highest(r, x + 1, y)
    ensures Decision(r, x + 1, y) == Decision(r, x, y) + 8 * x + 12
  {
    hide Nearest, Decision, Highest;
    Expanded(r, x, y);
    Expanded(r, x + 1, y);
    Next(x);
    if Nearest(r, x, y) && Decision(r, x, y) < 0 && 0 <= x && 0 <= y {
      NoneHigher(r, x + 1, y);
    }
  }

  /** Otherwise the row below is nearest, as long as it is in the same octant; and no higher row is.  That
      the bound is strict rests on the parity of the two sides. */
  lemma StepDown(r: int, x: int, y: int)
    ensures Nearest(r, x, y) && Decision(r, x, y) >= 0 && 0 <= x <= y && 1 <= y ==>
      && (x + 1 <= y - 1 ==> Nearest(r, x + 1, y - 1))
      && Highest(r, x + 1, y - 1)
    ensures Decision(r, x + 1, y - 1) == Decision(r, x, y) + 8 * (x - y) + 20
  {
    hide Nearest, Decision, Highest;
    Expanded(r, x, y);
    Expanded(r, x + 1, y - 1);
    Next(x);
    Next(y - 1);
    if Nearest(r, x, y) && Decision(r, x, y) >= 0 && 0 <= x <= y && 1 <= y {
      NoneHigher(r, x + 1, y - 1);
    }
  }

  /** The decision variable stays within 8r + 5 of zero. */
  lemma DecisionBound(r: int, x: int, y: int)
    requires Nearest(r, x, y) && 0 <= x <= y <= r
    ensures -8 * r <= Decision(r, x, y) <= 8 * r + 4
  {
    hide Nearest, Decision;
    Expanded(r, x, y);
  }

  /** The eight points that one point of the octant stands for. */
  function Mirrored(cx: int, cy: int, x: int, y: int): seq<(int, int)> {
    [(cx + x, cy + y), (cx + y, cy + x), (cx - x, cy + y), (cx - y, cy + x),
     (cx + x, cy - y), (cx + y, cy - x), (cx - x, cy - y), (cx - y, cy - x)]
  }

  function AllMirrored(cx: int, cy: int, rows: seq<int>): seq<(int, int)> {
    if rows == [] then []
    else AllMirrored(cx, cy, rows[..|rows| - 1]) + Mirrored(cx, cy, |rows| - 1, rows[|rows| - 1])
  }

  predicate Off(d: int, n: int) {
    d == n || d == -n
  }

  /** Pixel p lies x to one side of the centre and y above or below it, or the other way round. */
  predicate Around(cx: int, cy: int, x: int, y: int, p: (int, int)) {
    (Off(p.0 - cx, x) && Off(p.1 - cy, y)) || (Off(p.0 - cx, y) && Off(p.1 - cy, x))
  }

  lemma EightAround(cx: int, cy: int, x: int, y: int, p: (int, int))
    ensures p in Mirrored(cx, cy, x, y) <==> Around(cx, cy, x, y, p)
  {
    var s := Mirrored(cx, cy, x, y);
    assert s[0] == (cx + x, cy + y) && s[1] == (cx + y, cy + x) && s[2] == (cx - x, cy + y) && s[3] == (cx - y, cy + x);
    assert s[4] == (cx + x, cy - y) && s[5] == (cx + y, cy - x) && s[6] == (cx - x, cy - y) && s[7] == (cx - y, cy - x);
  }

  /** The pixels are those around the centre at the points of the octant, all eight of each. */
  ghost predicate Drawn(cx: int, cy: int, rows: seq<int>, p: (int, int)) {
    exists x :: 0 <= x < |rows| && Around(cx, cy, x, rows[x], p)
  }

  lemma {:induction false} AllAround(cx: int, cy: int, rows: seq<int>, p: (int, int))
    ensures p in AllMirrored(cx, cy, rows) <==> Drawn(cx, cy, rows, p)
    decreases |rows|
  {
    hide Mirrored, Around;
    if rows != [] {
      var n := |rows| - 1;
      AllAround(cx, cy, rows[..n], p);
      EightAround(cx, cy, n, rows[n], p);
      if Drawn(cx, cy, rows, p) {
        var x :| 0 <= x < |rows| && Around(cx, cy, x, rows[x], p);
        assert x < n ==> Around(cx, cy, x, rows[..n][x], p);
      }
      if Drawn(cx, cy, rows[..n], p) {
        var x :| 0 <= x < n && Around(cx, cy, x, rows[..n][x], p);
        assert Around(cx, cy, x, rows[x], p);
      }
    }
  }

  lemma Begin(r: int)
    ensures Decision(r, 0, r) == 5 - 4 * r
    ensures r >= 1 ==> Nearest(r, 0, r) && Highest(r, 0, r)
  {
    hide Nearest, Decision, Highest;
    Expanded(r, 0, r);
    if r >= 1 {
      NoneHigher(r, 0, r);
    }
  }

  /** `drawCircle`: one row for each column of the octant from 0 on, always the nearest, and none is left
      out: in the next column the nearest row is outside the octant. */
  method DrawCircle(cx: int, cy: int, radius: int) returns (pixels: seq<(int, int)>)
    ensures exists rows :: IsOctant(radius, rows) && forall p :: p in pixels <==> Drawn(cx, cy, rows, p)
  {
    hide Nearest, Decision, Mirrored, AllMirrored, Drawn;
    var x, y, d := 0, radius, 5 - 4 * radius;
    pixels := [];
    ghost var rows := [];
    Begin(radius);
    NothingMirrored(cx, cy);
    while x <= y
      invariant 0 <= x == |rows| && pixels == AllMirrored(cx, cy, rows)
      invariant radius < 0 ==> y == radius && rows == []
      invariant radius == 0 ==> (x == 0 && y == 0 && d == 5) || (x == 1 && y == -1 && rows == [0])
      invariant radius >= 1 ==> InStep(radius, x, y, d) && AllNearest(radius, rows)
      decreases y - x
    {
      OneMore(cx, cy, rows, y);
      pixels, rows := pixels + Mirrored(cx, cy, x, y), rows + [y];
      if radius >= 1 {
        Step(radius, x, y, d);
      }
      if d < 0 {
        d := d + (8 * x + 12);
      } else {
        d := d + (8 * (x - y) + 20);
        y := y - 1;
      }
      x := x + 1;
    }
    forall p ensures p in pixels <==> Drawn(cx, cy, rows, p) {
      AllAround(cx, cy, rows, p);
    }
    assert IsOctant(radius, rows);
  }

  ghost predicate AllNearest(r: int, rows: seq<int>) {
    forall x | 0 <= x < |rows| :: x <= rows[x] && Nearest(r, x, rows[x])
  }

  /** The rows of one octant, column by column.  A radius of 0 has the centre alone, and a negative one
      nothing. */
  ghost predicate IsOctant(r: int, rows: seq<int>) {
    && (r >= 1 ==> AllNearest(r, rows) && forall v | v >= 0 && Nearest(r, |rows|, v) :: v < |rows|)
    && (r == 0 ==> rows == [0])
    && (r < 0 ==> rows == [])
  }

  /** What the loop keeps.  For a radius below 2^28 the decision variable fits its 32 bits. */
  ghost predicate InStep(r: int, x: int, y: int, d: int) {
    && 0 <= x && 0 <= y <= r && d == Decision(r, x, y) && Highest(r, x, y)
    && (x <= y ==> Nearest(r, x, y) && 1 <= y && (r < 0x1000_0000 ==> Int32(d)))
  }

  lemma Step(r: int, x: int, y: int, d: int)
    ensures r >= 1 && InStep(r, x, y, d) && x <= y ==>
      if d < 0 then InStep(r, x + 1, y, d + (8 * x + 12)) else InStep(r, x + 1, y - 1, d + (8 * (x - y) + 20))
  {
    hide Nearest, Decision, Highest;
    if r < 1 || x > y || !InStep(r, x, y, d) {
    } else if d < 0 {
      StepEast(r, x, y);
      if x + 1 <= y {
        DecisionBound(r, x + 1, y);
      }
    } else {
      StepDown(r, x, y);
      if x + 1 <= y - 1 {
        DecisionBound(r, x + 1, y - 1);
      }
    }
  }

  lemma NothingMirrored(cx: int, cy: int)
    ensures AllMirrored(cx, cy, []) == []
  {
  }

  lemma OneMore(cx: int, cy: int, rows: seq<int>, y: int)
    ensures AllMirrored(cx, cy, rows + [y]) == AllMirrored(cx, cy, rows) + Mirrored(cx, cy, |rows|, y)
  {
    assert (rows + [y])[..|rows|] == rows;
  }
}
