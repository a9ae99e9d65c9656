/** The Hilbert space-filling curve of `texture/hilbert.rs`.

    `D2xy` is the low-to-high bit loop of the source over 32-bit words.  `Curve` is the
    textbook high-to-low definition, one case per quadrant.  The loop computes the curve,
    and the curve is a bijection onto the grid whose consecutive cells touch.  Every word the
    loop assigns is proved to stay inside 32 bits. */
module Hilbert {
  import opened Bytes

  datatype Cell = Cell(x: int, y: int)

  function Pow2(k: nat): (r: nat)
    ensures r >= 1
  {
    if k == 0 then 1 else 2 * Pow2(k - 1)
  }

  /** The number of cells of a grid of side `Pow2(k)`. */
  function Area(k: nat): (r: nat)
    ensures r >= 1
  {
    if k == 0 then 1 else 4 * Area(k - 1)
  }

  predicate InGrid(k: nat, c: Cell) {
    0 <= c.x < Pow2(k) && 0 <= c.y < Pow2(k)
  }

  /** Which quarter of a curve of `4 * m` cells distance `d` falls in. */
  function QuarterOf(m: int, d: int): int {
    if d < m then 0 else if d < 2 * m then 1 else if d < 3 * m then 2 else 3
  }

  /** The distance at which quarter `q` starts. */
  function QuarterStart(m: int, q: int): int {
    match q
    case 0 => 0
    case 1 => m
    case 2 => 2 * m
    case _ => 3 * m
  }

  /** Where quarter `q` of a curve of side `2 * s` puts cell `c` of its sub-curve:
      transposed at the origin, upright on the two far quadrants, anti-transposed on the
      last one. */
  function Place(s: int, q: int, c: Cell): Cell {
    match q
    case 0 => Cell(c.y, c.x)
    case 1 => Cell(c.x, c.y + s)
    case 2 => Cell(c.x + s, c.y + s)
    case _ => Cell(2 * s - 1 - c.y, s - 1 - c.x)
  }

  /** The cell at distance `d` along the curve of side `Pow2(k)`. */
  function Curve(k: nat, d: int): Cell
    requires 0 <= d < Area(k)
  {
    if k == 0 then Cell(0, 0)
    else
      var m := Area(k - 1);
      var q := QuarterOf(m, d);
      Place(Pow2(k - 1), q, Curve(k - 1, d - QuarterStart(m, q)))
  }

  /** The quarter whose quadrant holds cell `c`, and the sub-curve cell that `Place` sends
      to `c`. */
  function QuadrantOf(s: int, c: Cell): int {
    if c.x < s then (if c.y < s then 0 else 1) else (if c.y < s then 3 else 2)
  }

  function Unplace(s: int, c: Cell): Cell {
    match QuadrantOf(s, c)
    case 0 => Cell(c.y, c.x)
    case 1 => Cell(c.x, c.y - s)
    case 2 => Cell(c.x - s, c.y - s)
    case _ => Cell(s - 1 - c.y, 2 * s - 1 - c.x)
  }

  /** The inverse of the curve: the distance at which it visits `c`. */
  function Distance(k: nat, c: Cell): (d: int)
    requires InGrid(k, c)
    ensures 0 <= d < Area(k)
  {
    if k == 0 then 0
    else
      var s := Pow2(k - 1);
      QuarterStart(Area(k - 1), QuadrantOf(s, c)) + Distance(k - 1, Unplace(s, c))
  }

  /** One level of the curve, read from the quarter and the remainder. */
  lemma CurveLevel(k: nat, q: int, r: int)
    requires 0 <= q <= 3 && 0 <= r < Area(k)
    ensures 0 <= QuarterStart(Area(k), q) + r < Area(k + 1)
    ensures Curve(k + 1, QuarterStart(Area(k), q) + r) == Place(Pow2(k), q, Curve(k, r))
  {
    assert QuarterOf(Area(k), QuarterStart(Area(k), q) + r) == q;
  }

  lemma {:induction false} CurveInGrid(k: nat, d: int)
    requires 0 <= d < Area(k)
    ensures InGrid(k, Curve(k, d))
  {
    if k > 0 {
      var m := Area(k - 1);
      CurveInGrid(k - 1, d - QuarterStart(m, QuarterOf(m, d)));
    }
  }

  lemma UnplacePlaced(s: int, q: int, c: Cell)
    requires 0 <= q <= 3 && 0 <= c.x < s && 0 <= c.y < s
    ensures QuadrantOf(s, Place(s, q, c)) == q && Unplace(s, Place(s, q, c)) == c
  {
  }

  lemma PlacedInside(k: nat, q: int, c: Cell)
    requires 0 <= q <= 3 && InGrid(k, c)
    ensures InGrid(k + 1, Place(Pow2(k), q, c))
    ensures Distance(k + 1, Place(Pow2(k), q, c)) == QuarterStart(Area(k), q) + Distance(k, c)
  {
    UnplacePlaced(Pow2(k), q, c);
    hide Place, Unplace, QuadrantOf;
    assert Pow2(k + 1) == 2 * Pow2(k);
    PlaceInGrid(k, q, c);
  }

  lemma PlaceInGrid(k: nat, q: int, c: Cell)
    requires 0 <= q <= 3 && InGrid(k, c)
    ensures InGrid(k + 1, Place(Pow2(k), q, c))
  {
  }

  lemma OneCell()
    ensures Curve(0, 0) == Cell(0, 0) && InGrid(0, Cell(0, 0)) && Distance(0, Cell(0, 0)) == 0
  {
  }

  /** No two distances share a cell: the cell determines the distance. */
  lemma {:induction false} DistanceOfCurve(k: nat, d: int)
    requires 0 <= d < Area(k)
    ensures InGrid(k, Curve(k, d)) && Distance(k, Curve(k, d)) == d
  {
    hide Curve, Distance, Place, InGrid;
    if k == 0 {
      OneCell();
    } else {
      var m := Area(k - 1);
      var q := QuarterOf(m, d);
      var r := d - QuarterStart(m, q);
      DistanceOfCurve(k - 1, r);
      CurveLevel(k - 1, q, r);
      PlacedInside(k - 1, q, Curve(k - 1, r));
    }
  }

  lemma PlaceUnplaced(s: int, c: Cell)
    requires 0 <= c.x < 2 * s && 0 <= c.y < 2 * s
    ensures 0 <= QuadrantOf(s, c) <= 3 && Place(s, QuadrantOf(s, c), Unplace(s, c)) == c
  {
  }

  lemma UnplacedInside(k: nat, c: Cell)
    requires InGrid(k + 1, c)
    ensures InGrid(k, Unplace(Pow2(k), c))
  {
  }

  /** No cell is missed: every cell of the grid is visited at its distance. */
  lemma {:induction false} CurveOfDistance(k: nat, c: Cell)
    requires InGrid(k, c)
    ensures Curve(k, Distance(k, c)) == c
  {
    hide Curve, Place, Unplace, QuadrantOf;
    if k == 0 {
      OneCell();
    } else {
      var s := Pow2(k - 1);
      PlaceUnplaced(s, c);
      UnplacedInside(k - 1, c);
      CurveOfDistance(k - 1, Unplace(s, c));
      CurveLevel(k - 1, QuadrantOf(s, c), Distance(k - 1, Unplace(s, c)));
    }
  }

  /** The curve enters at the origin and leaves at the far end of the first row. */
  lemma {:induction false} CurveEnds(k: nat)
    ensures Curve(k, 0) == Cell(0, 0)
    ensures Curve(k, Area(k) - 1) == Cell(Pow2(k) - 1, 0)
  {
    if k > 0 {
      CurveEnds(k - 1);
    }
  }

  function Abs(a: int): int { if a < 0 then -a else a }

  predicate Touch(a: Cell, b: Cell) {
    Abs(a.x - b.x) + Abs(a.y - b.y) == 1
  }

  /** A sub-curve is placed by an isometry. */
  lemma PlaceKeepsTouch(s: int, q: int, a: Cell, b: Cell)
    requires Touch(a, b)
    ensures Touch(Place(s, q, a), Place(s, q, b))
  {
  }

  /** Each quarter ends beside the start of the next. */
  lemma QuartersMeet(s: int, q: int)
    requires s >= 1 && 0 <= q < 3
    ensures Touch(Place(s, q, Cell(s - 1, 0)), Place(s, q + 1, Cell(0, 0)))
  {
  }

  lemma CrossQuarter(k: nat, q: int)
    requires 0 <= q < 3
    ensures 0 <= QuarterStart(Area(k), q) + Area(k) - 1 < Area(k + 1) - 1
    ensures Touch(Curve(k + 1, QuarterStart(Area(k), q) + Area(k) - 1),
                  Curve(k + 1, QuarterStart(Area(k), q) + Area(k)))
  {
    hide Curve, Place;
    CurveLevel(k, q, Area(k) - 1);
    CurveLevel(k, q + 1, 0);
    CurveEnds(k);
    QuartersMeet(Pow2(k), q);
  }

  /** Consecutive distances always land on edge-sharing cells. */
  lemma {:induction false} CurveIsContinuous(k: nat, d: int)
    requires 0 <= d && d + 1 < Area(k)
    ensures Touch(Curve(k, d), Curve(k, d + 1))
  {
    hide Curve, Place;
    var m := Area(k - 1);
    var q := QuarterOf(m, d);
    var r := d - QuarterStart(m, q);
    if r + 1 < m {
      CurveLevel(k - 1, q, r);
      CurveLevel(k - 1, q, r + 1);
      CurveIsContinuous(k - 1, r);
      PlaceKeepsTouch(Pow2(k - 1), q, Curve(k - 1, r), Curve(k - 1, r + 1));
    } else {
      CrossQuarter(k - 1, q);
    }
  }

  lemma {:induction false} BelowSide(j: nat, k: nat)
    requires j <= k
    ensures if j < k then 2 * Pow2(j) <= Pow2(k) else Pow2(j) == Pow2(k)
    decreases k
  {
    if j < k - 1 {
      BelowSide(j, k - 1);
    }
  }

  /** The loop of `d2xy` after `j` turns: `t` holds the base-4 digits of `d` not yet used,
      and `c` is the curve at the distance `low` spelt by the digits already used. */
  ghost predicate AtLevel(j: nat, d: int, low: int, t: int, s: int, c: Cell) {
    s == Pow2(j) && t >= 0 && 0 <= low < Area(j) && d == Area(j) * t + low && c == Curve(j, low)
  }

  /** The cell after one more turn, as the source computes it from the bits `rx` and `ry`. */
  ghost function Turned(s: int, rx: int, ry: int, c: Cell): Cell {
    var flipped := if ry == 0 && rx == 1 then Cell(s - 1 - c.x, s - 1 - c.y) else c;
    var swapped := if ry == 0 then Cell(flipped.y, flipped.x) else flipped;
    Cell(swapped.x + s * rx, swapped.y + s * ry)
  }

  lemma BitsChooseQuarter(s: int, t: int, rx: int, ry: int, c: Cell)
    requires t >= 0 && rx == (t / 2) % 2 && ry == (t % 2 + rx) % 2
    ensures Turned(s, rx, ry, c) == Place(s, t % 4, c)
    ensures s * rx == (if rx == 1 then s else 0) && s * ry == (if ry == 1 then s else 0)
  {
    assert t % 4 == 2 * rx + t % 2;
    assert rx == 0 || rx == 1;
    assert ry == 0 || ry == 1;
  }

  lemma ShiftDigit(m: int, t: int)
    requires t >= 0
    ensures m * t == (4 * m) * (t / 4) + QuarterStart(m, t % 4)
  {
    var high, digit := t / 4, t % 4;
    assert t == 4 * high + digit;
    assert m * (4 * high + digit) == (4 * m) * high + m * digit;
  }

  /** One turn of the loop climbs one level of the curve, and stays inside its grid. */
  lemma Turn(j: nat, d: int, low: int, t: int, s: int, rx: int, ry: int, c: Cell)
    requires AtLevel(j, d, low, t, s, c)
    requires rx == (t / 2) % 2 && ry == (t % 2 + rx) % 2
    ensures InGrid(j, c) && InGrid(j + 1, Turned(s, rx, ry, c))
    ensures s * rx == (if rx == 1 then s else 0) && s * ry == (if ry == 1 then s else 0)
    ensures AtLevel(j + 1, d, QuarterStart(Area(j), t % 4) + low, t / 4, 2 * s, Turned(s, rx, ry, c))
  {
    hide Curve, Place, Turned;
    ShiftDigit(Area(j), t);
    CurveLevel(j, t % 4, low);
    BitsChooseQuarter(s, t, rx, ry, c);
    CurveInGrid(j, low);
    CurveInGrid(j + 1, QuarterStart(Area(j), t % 4) + low);
  }

  /** The digits run out exactly when the level reaches the side of the grid. */
  lemma NoDigitsLeft(m: int, t: int, low: int)
    requires m >= 1 && t >= 0 && low >= 0 && m * t + low < m
    ensures t == 0
  {
    assert m * t == m * (t - 1) + m;
    assert t >= 1 ==> m * (t - 1) >= 0;
  }

  /** `d2xy`: distance to cell, working from the lowest bits up.  `d` must lie below the
      area of the grid, as the source asks of its callers; no word ever wraps. */
  method D2xy(side: u32, d: u32, ghost k: nat) returns (x: u32, y: u32)
    requires side as int == Pow2(k) && d as int < Area(k)
    ensures Cell(x as int, y as int) == Curve(k, d as int)
    ensures InGrid(k, Cell(x as int, y as int))
  {
    x, y := 0, 0;
    var t, s := d, 1 as u32;
    ghost var j, low := 0, 0;
    while s < side
      invariant j <= k && s <= side
      invariant AtLevel(j, d as int, low, t as int, s as int, Cell(x as int, y as int))
      decreases side as int - s as int
    {
      hide Curve, Area, QuarterStart;
      BelowSide(j, k);
      var rx := (t / 2) % 2;
      var ry := (t % 2 + rx) % 2;  // the low bit of `t ^ rx`
      ghost var next := Turned(s as int, rx as int, ry as int, Cell(x as int, y as int));
      Turn(j, d as int, low, t as int, s as int, rx as int, ry as int, Cell(x as int, y as int));
      low := QuarterStart(Area(j), t as int % 4) + low;
      if ry == 0 {
        if rx == 1 {
          x := s - 1 - x;
          y := s - 1 - y;
        }
        x, y := y, x;
      }
      x := x + s * rx;
      y := y + s * ry;
      assert next == Cell(x as int, y as int);
      t := t / 4;
      s := s * 2;
      j := j + 1;
    }
    BelowSide(j, k);
    NoDigitsLeft(Area(k), t as int, low);
    CurveInGrid(k, low);
  }
}
