/** The square texture (`texture/mod.rs`): one pixel per entity along the Hilbert curve. */
module Texture {
  import opened Atlas
  import opened Bytes
  import opened Hilbert

  /** A word of the source's distance argument: larger distances wrap around. */
  const WORD := 0x1_0000_0000

  /** The largest code list whose buffer of `4 * side * side` bytes the source can allocate. */
  const MOST_CODES := 0x1000_0000_0000_0000

  const TRANSPARENT: seq<Byte> := [0, 0, 0, 0]

  function Rgba(code: Code): (c: seq<Byte>)
    ensures |c| == 4 && c != TRANSPARENT
  {
    match code
    case Green => [0x0c, 0xa3, 0x0c, 0xff]
    case Yellow => [0xfa, 0xb2, 0x19, 0xff]
    case Red => [0xd0, 0x3b, 0x3b, 0xff]
    case Unknown => [0x6b, 0x6b, 0x6b, 0xff]
  }

  lemma ColoursDiffer(a: Code, b: Code)
    requires Rgba(a) == Rgba(b)
    ensures a == b
  {
    assert Rgba(a)[0] == Rgba(b)[0];
  }

  // ---- The side of the square ----

  /** The exponent of the next power of two. */
  function NextPower(s: nat): (k: nat)
    ensures Pow2(k) >= s
    ensures k > 0 ==> Pow2(k - 1) < s
  {
    if s <= 1 then 0 else NextPower((s + 1) / 2) + 1
  }

  lemma {:induction false} AreaIsSquare(k: nat)
    ensures Area(k) == Pow2(k) * Pow2(k)
  {
    if k > 0 {
      AreaIsSquare(k - 1);
    }
  }

  lemma SquareGrows(a: int, b: int)
    requires 0 <= a <= b
    ensures a * a <= b * b
  {
    assert b * b == a * a + (b - a) * (b + a);
  }

  lemma {:induction false} PowersGrow(j: nat, k: nat)
    requires j <= k
    ensures Pow2(j) <= Pow2(k) && Area(j) <= Area(k)
  {
    if j < k {
      PowersGrow(j, k - 1);
    }
  }

  /** `square_side`: the smallest power of two whose square holds `n` codes. */
  method SquareSide(n: nat) returns (side: u32, ghost k: nat)
    requires n <= MOST_CODES
    ensures side as int == Pow2(k) && k <= 30
    ensures n <= Area(k)
    ensures k > 0 ==> Area(k - 1) < n
  {
    if n <= 1 {
      return 1, 0;
    }
    var s := 0;
    while s * s < n
      invariant 0 <= s <= 0x4000_0000
      invariant s > 0 ==> (s - 1) * (s - 1) < n
      decreases 0x4000_0000 - s
    {
      assert s != 0x4000_0000;
      s := s + 1;
    }
    k := NextPower(s);
    AreaIsSquare(k);
    SquareGrows(s, Pow2(k));
    if k > 0 {
      AreaIsSquare(k - 1);
      SquareGrows(Pow2(k - 1), s - 1);
    }
    ThirtyIsEnough(k, s);
    side := Pow2(NextPower(s)) as u32;
  }

  lemma ThirtyIsEnough(k: nat, s: nat)
    requires s <= 0x4000_0000 && (k > 0 ==> Pow2(k - 1) < s)
    ensures k <= 30 && Pow2(k) <= 0x4000_0000
  {
    Pow2Of30();
    if k > 30 {
      PowersGrow(30, k - 1);
    } else {
      PowersGrow(k, 30);
    }
  }

  lemma Pow2Of30()
    ensures Pow2(30) == 0x4000_0000
  {
    assert Pow2(10) == 1024;
    assert Pow2(20) == 1024 * 1024 by {
      assert Pow2(15) == 32768;
    }
    assert Pow2(25) == 32 * 1024 * 1024;
  }

  // ---- The buffer ----

  /** Where the four bytes of cell `c` start in a buffer of rows of `side` cells. */
  function Offset(side: int, c: Cell): int {
    (c.y * side + c.x) * 4
  }

  function BufferSize(side: int): int {
    side * side * 4
  }

  lemma OffsetInside(side: int, c: Cell)
    requires 0 <= c.x < side && 0 <= c.y < side
    ensures 0 <= Offset(side, c) && Offset(side, c) + 4 <= BufferSize(side)
  {
    RowsApart(side, c.x, c.y, 0, side);
    if c.y > 0 {
      RowsApart(side, 0, 0, c.x, c.y);
    }
  }

  lemma OffsetsApart(side: int, a: Cell, b: Cell)
    requires 0 <= a.x < side && 0 <= a.y < side && 0 <= b.x < side && 0 <= b.y < side && a != b
    ensures Offset(side, a) + 4 <= Offset(side, b) || Offset(side, b) + 4 <= Offset(side, a)
  {
    if a.y < b.y {
      RowsApart(side, a.x, a.y, b.x, b.y);
    } else if b.y < a.y {
      RowsApart(side, b.x, b.y, a.x, a.y);
    }
  }

  lemma RowsApart(side: int, x: int, y: int, u: int, v: int)
    requires 0 <= x < side && 0 <= u && y < v
    ensures y * side + x < v * side + u
  {
    assert v * side == (y + 1) * side + (v - y - 1) * side;
    assert (v - y - 1) * side >= 0;
  }

  ghost predicate Fits(rgba: seq<Byte>, k: nat) {
    |rgba| == BufferSize(Pow2(k))
  }

  /** The pixel at cell `c`. */
  function Pixel(rgba: seq<Byte>, k: nat, c: Cell): seq<Byte>
    requires Fits(rgba, k) && InGrid(k, c)
  {
    OffsetInside(Pow2(k), c);
    rgba[Offset(Pow2(k), c)..Offset(Pow2(k), c) + 4]
  }

  /** The cell that code `d` is painted at: the source casts `d` to a 32-bit word first. */
  function CellOf(k: nat, d: nat): Cell
    requires d < Area(k)
  {
    Curve(k, Wrapped(d))
  }

  /** `d as u32`. */
  function Wrapped(d: int): (w: int)
    requires 0 <= d
    ensures 0 <= w <= d && w < WORD && (d < WORD ==> w == d)
  {
    d % WORD
  }

  /** The colour of the last of the first `n` codes painted at `c`, if any. */
  function Wanted(codes: seq<Code>, k: nat, n: nat, c: Cell): seq<Byte>
    requires n <= |codes| <= Area(k)
  {
    if n == 0 then TRANSPARENT
    else if CellOf(k, n - 1) == c then Rgba(codes[n - 1])
    else Wanted(codes, k, n - 1, c)
  }

  /** `rgba` shows the first `n` codes. */
  ghost predicate Shows(rgba: seq<Byte>, codes: seq<Code>, k: nat, n: nat)
    requires n <= |codes| <= Area(k)
  {
    Fits(rgba, k) && forall c: Cell :: InGrid(k, c) ==> Pixel(rgba, k, c) == Wanted(codes, k, n, c)
  }

  function Written(rgba: seq<Byte>, at: int, colour: seq<Byte>): seq<Byte>
    requires 0 <= at && at + |colour| <= |rgba|
  {
    rgba[..at] + colour + rgba[at + |colour|..]
  }

  lemma PaintOne(rgba: seq<Byte>, codes: seq<Code>, k: nat, n: nat, c: Cell)
    requires n < |codes| <= Area(k) && Shows(rgba, codes, k, n)
    requires c == CellOf(k, n) && InGrid(k, c)
    ensures 0 <= Offset(Pow2(k), c) && Offset(Pow2(k), c) + 4 <= |rgba|
    ensures Shows(Written(rgba, Offset(Pow2(k), c), Rgba(codes[n])), codes, k, n + 1)
  {
    OffsetInside(Pow2(k), c);
    var at := Offset(Pow2(k), c);
    var now := Written(rgba, at, Rgba(codes[n]));
    forall b: Cell | InGrid(k, b) ensures Pixel(now, k, b) == Wanted(codes, k, n + 1, b) {
      if b == c {
        assert now[at..at + 4] == Rgba(codes[n]);
      } else {
        OffsetsApart(Pow2(k), b, c);
        OffsetInside(Pow2(k), b);
        assert Pixel(now, k, b) == Pixel(rgba, k, b);
      }
    }
  }

  lemma StartsBlank(rgba: seq<Byte>, codes: seq<Code>, k: nat)
    requires |codes| <= Area(k) && Fits(rgba, k) && forall i :: 0 <= i < |rgba| ==> rgba[i] == 0
    ensures Shows(rgba, codes, k, 0)
  {
    forall c: Cell | InGrid(k, c) ensures Pixel(rgba, k, c) == TRANSPARENT {
      OffsetInside(Pow2(k), c);
    }
  }

  /** Copies `colour` into the buffer at `at`. */
  method CopyInto(rgba: array<Byte>, at: int, colour: seq<Byte>)
    requires 0 <= at && at + |colour| <= rgba.Length
    modifies rgba
    ensures rgba[..] == Written(old(rgba[..]), at, colour)
  {
    for i := 0 to |colour|
      invariant forall j :: 0 <= j < i ==> rgba[at + j] == colour[j]
      invariant forall j :: 0 <= j < rgba.Length && !(at <= j < at + i) ==> rgba[j] == old(rgba[j])
    {
      rgba[at + i] := colour[i];
    }
    ghost var w := Written(old(rgba[..]), at, colour);
    forall j | 0 <= j < rgba.Length ensures rgba[j] == w[j] {
      if at <= j < at + |colour| {
        assert w[j] == colour[j - at] && rgba[at + (j - at)] == colour[j - at];
      }
    }
  }

  /** `render_square`: every write stays inside the buffer, and the buffer shows the codes. */
  method RenderSquare(codes: seq<Code>) returns (rgba: array<Byte>, side: u32, ghost k: nat)
    requires |codes| <= MOST_CODES
    ensures fresh(rgba)
    ensures side as int == Pow2(k) && |codes| <= Area(k) && (k > 0 ==> Area(k - 1) < |codes|)
    ensures Shows(rgba[..], codes, k, |codes|)
  {
    side, k := SquareSide(|codes|);
    var n := side as int;
    SquareGrows(0, n);
    rgba := new Byte[BufferSize(n)](i => 0);
    assert forall i :: 0 <= i < rgba.Length ==> rgba[i] == 0;
    StartsBlank(rgba[..], codes, k);
    hide Shows, Pow2, Area, Curve, Wanted, Rgba, Written, InGrid, Offset, BufferSize, Wrapped;
    for d := 0 to |codes|
      invariant Shows(rgba[..], codes, k, d)
    {
      var x, y := D2xy(side, Wrapped(d) as u32, k);
      var c := Cell(x as int, y as int);
      PaintOne(rgba[..], codes, k, d, c);
      CopyInto(rgba, Offset(n, c), Rgba(codes[d]));
    }
  }

  // ---- What the picture means ----

  lemma CellDistance(k: nat, d: nat)
    requires d < Area(k)
    ensures InGrid(k, CellOf(k, d)) && Distance(k, CellOf(k, d)) <= d && Distance(k, CellOf(k, d)) < WORD
    ensures d < WORD ==> Distance(k, CellOf(k, d)) == d && CellOf(k, d) == Curve(k, d)
  {
    hide Curve, Distance, InGrid, Wrapped;
    DistanceOfCurve(k, Wrapped(d));
  }

  lemma {:induction false} NothingLater(codes: seq<Code>, k: nat, n: nat, d: nat)
    requires d < n <= |codes| <= Area(k) && n <= WORD
    ensures Wanted(codes, k, n, CellOf(k, d)) == Rgba(codes[d])
    decreases n
  {
    hide Curve, Distance, CellOf, Rgba, InGrid, Wanted;
    LastWanted(codes, k, n, CellOf(k, d));
    if d < n - 1 {
      CellDistance(k, d);
      CellDistance(k, n - 1);
      NothingLater(codes, k, n - 1, d);
    }
  }

  lemma LastWanted(codes: seq<Code>, k: nat, n: nat, c: Cell)
    requires 0 < n <= |codes| <= Area(k)
    ensures Wanted(codes, k, n, c) == if CellOf(k, n - 1) == c then Rgba(codes[n - 1]) else Wanted(codes, k, n - 1, c)
  {
  }

  lemma {:induction false} NotVisited(codes: seq<Code>, k: nat, n: nat, c: Cell)
    requires n <= |codes| <= Area(k) && InGrid(k, c)
    requires n <= Distance(k, c) || WORD <= Distance(k, c)
    ensures Wanted(codes, k, n, c) == TRANSPARENT
  {
    hide Curve, Distance, CellOf, Rgba, InGrid;
    if n > 0 {
      LastWanted(codes, k, n, c);
      CellDistance(k, n - 1);
      NotVisited(codes, k, n - 1, c);
    }
  }

  /** Up to 2^32 codes, code `d` is the pixel at its Hilbert cell and every other cell of the
      grid is transparent. */
  lemma EachCodeHasItsCell(rgba: seq<Byte>, codes: seq<Code>, k: nat)
    requires |codes| <= Area(k) && |codes| <= WORD && Shows(rgba, codes, k, |codes|)
    ensures forall d :: 0 <= d < |codes| ==> InGrid(k, Curve(k, d)) && Pixel(rgba, k, Curve(k, d)) == Rgba(codes[d])
    ensures forall c: Cell :: InGrid(k, c) && Distance(k, c) >= |codes| ==> Pixel(rgba, k, c) == TRANSPARENT
  {
    forall d | 0 <= d < |codes|
      ensures InGrid(k, Curve(k, d)) && Pixel(rgba, k, Curve(k, d)) == Rgba(codes[d])
    {
      CellDistance(k, d);
      NothingLater(codes, k, |codes|, d);
    }
    forall c: Cell | InGrid(k, c) && Distance(k, c) >= |codes| ensures Pixel(rgba, k, c) == TRANSPARENT {
      NotVisited(codes, k, |codes|, c);
    }
  }

  /** Each code's own cell bears its colour. */
  ghost predicate Legible(rgba: seq<Byte>, codes: seq<Code>, k: nat)
    requires |codes| <= Area(k) && Fits(rgba, k)
  {
    forall d :: 0 <= d < |codes| ==> InGrid(k, Curve(k, d)) && Pixel(rgba, k, Curve(k, d)) == Rgba(codes[d])
  }

  /** The exact limit of the projection: beyond 2^32 codes the distances wrap around, the first
      cells are painted over and the last ones never. */
  lemma LegibleIff(rgba: seq<Byte>, codes: seq<Code>, k: nat)
    requires |codes| <= Area(k) && Shows(rgba, codes, k, |codes|)
    ensures Legible(rgba, codes, k) <==> |codes| <= WORD
  {
    if |codes| <= WORD {
      EachCodeHasItsCell(rgba, codes, k);
    } else {
      DistanceOfCurve(k, WORD);
      NotVisited(codes, k, |codes|, Curve(k, WORD));
      assert Pixel(rgba, k, Curve(k, WORD)) == TRANSPARENT;
      assert Rgba(codes[WORD]) != TRANSPARENT;
    }
  }

  /** The codes can be read back: two lists of one length that paint one picture are equal. */
  lemma PictureDeterminesCodes(rgba: seq<Byte>, a: seq<Code>, b: seq<Code>, k: nat)
    requires |a| == |b| && |a| <= Area(k) && |a| <= WORD
    requires Shows(rgba, a, k, |a|) && Shows(rgba, b, k, |b|)
    ensures a == b
  {
    LegibleIff(rgba, a, k);
    LegibleIff(rgba, b, k);
    forall d | 0 <= d < |a| ensures a[d] == b[d] {
      ColoursDiffer(a[d], b[d]);
    }
  }
}
