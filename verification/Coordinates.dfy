/**
`scaleCoordinate` of `internal/input/actions.go`: pixels of a captured frame become
positions in the pointer's 0..32767 space. The product is computed in 64 bits.
*/
module Coordinates {
  import opened Basics
  import opened HidProtocol

  const TWO63 := 0x8000_0000_0000_0000
  const TWO64 := 0x1_0000_0000_0000_0000

  /** A 64-bit signed result, wrapped. */
  function Wrap64(v: int): (w: int)
    ensures -TWO63 <= w < TWO63
    ensures -TWO63 <= v < TWO63 ==> w == v
  {
    (v + TWO63) % TWO64 - TWO63
  }

  /** Go's integer division: toward zero. */
  function Quotient(a: int, b: int): int
    requires b > 0
  {
    if a >= 0 then a / b else -((-a) / b)
  }

  function ScaleCoordinate(value: int, extent: int): int
    requires extent >= 1
  {
    if extent == 1 then 0
    else Quotient(Wrap64(Wrap64(value * COORDINATE) + (extent - 1) / 2), extent - 1)
  }

  /** Whether the scaled product of a pixel stays inside 64 bits. */
  predicate Fits(value: int, extent: int) { value * COORDINATE + (extent - 1) / 2 < TWO63 }

  /** `s` is a position nearest to pixel `value` of `extent`, in exact arithmetic; a tie goes up. */
  predicate Nearest(value: int, extent: int, s: int) {
    if extent == 1 then s == 0
    else 2 * value * COORDINATE - (extent - 1) < 2 * s * (extent - 1) <= 2 * value * COORDINATE + (extent - 1)
  }

  lemma DivisionBounds(a: int, d: int)
    requires d > 0
    ensures a / d * d <= a < a / d * d + d
  {
  }

  lemma Multiples(p: int, q: int, d: int)
    requires d > 0
    ensures p <= q ==> p * d <= q * d
  {
  }

  lemma ScaleWhenFits(value: int, extent: int)
    requires 0 <= value < extent && extent > 1 && Fits(value, extent)
    ensures ScaleCoordinate(value, extent) == (value * COORDINATE + (extent - 1) / 2) / (extent - 1)
  {
  }

  /** Pixels of frames up to 2^48 wide are scaled without wrapping. */
  lemma ScreensFit(value: int, extent: int)
    requires 0 <= value < extent <= 0x1_0000_0000_0000
    ensures Fits(value, extent)
  {
    assert value * COORDINATE <= 0x1_0000_0000_0000 * COORDINATE;
  }

  /** Exactly without wrapping, the result is the nearest position, and then it is a pointer coordinate. */
  lemma ScaledIsNearestIffFits(value: int, extent: int)
    requires 0 <= value < extent < TWO63
    ensures Nearest(value, extent, ScaleCoordinate(value, extent)) <==> extent == 1 || Fits(value, extent)
    ensures extent == 1 || Fits(value, extent) ==> 0 <= ScaleCoordinate(value, extent) <= COORDINATE
  {
    if extent > 1 {
      var d := extent - 1;
      var exact := value * COORDINATE + d / 2;
      DivisionBounds(exact, d);
      if Fits(value, extent) {
        ScaleWhenFits(value, extent);
        RoundedIsNearest(value, d);
        RoundedInRange(value, d);
      } else {
        WrappedIsFar(value, extent);
      }
    }
  }

  lemma RoundedIsNearest(value: int, d: int)
    requires 0 <= value <= d && d >= 1
    ensures Nearest(value, d + 1, (value * COORDINATE + d / 2) / d)
  {
    var exact := value * COORDINATE + d / 2;
    var q := exact / d;
    DivisionBounds(exact, d);
    assert 2 * q * d == 2 * (q * d);
    assert 2 * value * COORDINATE == 2 * (value * COORDINATE);
  }

  lemma RoundedInRange(value: int, d: int)
    requires 0 <= value <= d && d >= 1
    ensures 0 <= (value * COORDINATE + d / 2) / d <= COORDINATE
  {
    QuotientBetween(value * COORDINATE + d / 2, d, COORDINATE);
  }

  lemma QuotientBetween(a: int, d: int, m: int)
    requires d > 0 && 0 <= a < m * d + d
    ensures 0 <= a / d <= m
  {
    var q := a / d;
    DivisionBounds(a, d);
    Multiples(m + 1, q, d);
    Multiples(q + 1, 0, d);
    assert (m + 1) * d == m * d + d && (q + 1) * d == q * d + d;
  }

  lemma QuotientReaches(w: int, d: int)
    requires d > 0
    ensures Quotient(w, d) * d <= if w >= 0 then w else 0
  {
    if w >= 0 {
      DivisionBounds(w, d);
    } else {
      DivisionBounds(-w, d);
      Multiples(0, -w / d, d);
      assert (-(-w / d)) * d == -(-w / d * d);
    }
  }

  /** A wrapped product misses by more than one position. */
  lemma WrappedIsFar(value: int, extent: int)
    requires 0 <= value < extent && 1 < extent < TWO63 && !Fits(value, extent)
    ensures !Nearest(value, extent, ScaleCoordinate(value, extent))
  {
    hide Wrap64, Quotient;
    var d := extent - 1;
    var product := value * COORDINATE;
    WrappedDiffers(product + d / 2, product, d / 2);
    QuotientReaches(Wrap64(Wrap64(product) + d / 2), d);
    FarIsNotNearest(value, d, ScaleCoordinate(value, extent));
  }

  lemma FarIsNotNearest(value: int, d: int, s: int)
    requires 1 <= d < TWO63 && value * COORDINATE + d / 2 >= TWO63
    requires s * d <= 0 || s * d <= value * COORDINATE + d / 2 - TWO64
    ensures !Nearest(value, d + 1, s)
  {
    assert 2 * s * d == 2 * (s * d);
    assert 2 * value * COORDINATE == 2 * (value * COORDINATE);
  }

  lemma WrappedDiffers(exact: int, product: int, half: int)
    requires exact == product + half && exact >= TWO63 && 0 <= half < TWO63 && product >= 0
    ensures
      var w := Wrap64(Wrap64(product) + half);
      w >= 0 ==> w <= exact - TWO64
  {
  }

  // -------------------------------------------------------------- properties

  /** Moving right or down on the screen never moves back in pointer space. */
  lemma ScaleIsMonotone(a: int, b: int, extent: int)
    requires 0 <= a <= b < extent <= 0x1_0000_0000_0000
    ensures ScaleCoordinate(a, extent) <= ScaleCoordinate(b, extent)
  {
    if extent > 1 {
      ScreensFit(a, extent);
      ScreensFit(b, extent);
      ScaleWhenFits(a, extent);
      ScaleWhenFits(b, extent);
      DivisionMonotone(a * COORDINATE + (extent - 1) / 2, b * COORDINATE + (extent - 1) / 2, extent - 1);
    }
  }

  lemma DivisionMonotone(a: int, b: int, d: int)
    requires a <= b && d > 0
    ensures a / d <= b / d
  {
    DivisionBounds(a, d);
    DivisionBounds(b, d);
    Multiples(b / d + 1, a / d, d);
    assert (b / d + 1) * d == b / d * d + d;
  }

  lemma DivisionUnique(a: int, d: int, q: int)
    requires d > 0 && q * d <= a < q * d + d
    ensures a / d == q
  {
    DivisionBounds(a, d);
    Between(a / d, q, a, d);
  }

  lemma Between(p: int, q: int, a: int, d: int)
    requires d > 0 && p * d <= a < p * d + d && q * d <= a < q * d + d
    ensures p == q
  {
    Multiples(p + 1, q, d);
    Multiples(q + 1, p, d);
    assert (p + 1) * d == p * d + d && (q + 1) * d == q * d + d;
  }

  /** The first pixel is 0, the last is 32767. */
  lemma EndpointsMeet(extent: int)
    requires 1 < extent <= 0x1_0000_0000_0000
    ensures ScaleCoordinate(0, extent) == 0 && ScaleCoordinate(extent - 1, extent) == COORDINATE
  {
    var d := extent - 1;
    ScreensFit(0, extent);
    ScreensFit(d, extent);
    ScaleWhenFits(0, extent);
    ScaleWhenFits(d, extent);
    DivisionUnique(d / 2, d, 0);
    DivisionUnique(d * COORDINATE + d / 2, d, COORDINATE);
  }

  /** The pixel a pointer position stands for. */
  function PixelOf(s: int, extent: int): int { (s * (extent - 1) + COORDINATE / 2) / COORDINATE }

  /** Up to 32768 pixels, every pixel is recovered from its position, also from the report that carried it. */
  lemma PixelRecovered(x: int, y: int, width: int, height: int, buttons: Byte)
    requires 0 <= x < width <= 32768 && 0 <= y < height <= 32768 && buttons <= MAX_BUTTONS
    ensures PixelOf(ScaleCoordinate(x, width), width) == x
    ensures
      var r := PointerReport(ScaleCoordinate(x, width), ScaleCoordinate(y, height), buttons);
      && r.Some? && Read(r.value).Pointer?
      && PixelOf(Read(r.value).x, width) == x && PixelOf(Read(r.value).y, height) == y
  {
    PixelBack(x, width);
    PixelBack(y, height);
    ScreensFit(x, width);
    ScreensFit(y, height);
    ScaledIsNearestIffFits(x, width);
    ScaledIsNearestIffFits(y, height);
    PointerRoundTrip(ScaleCoordinate(x, width), ScaleCoordinate(y, height), buttons);
  }

  lemma PixelBack(value: int, extent: int)
    requires 0 <= value < extent <= 32768
    ensures PixelOf(ScaleCoordinate(value, extent), extent) == value
  {
    ScreensFit(value, extent);
    ScaledIsNearestIffFits(value, extent);
    if extent > 1 {
      var s, d := ScaleCoordinate(value, extent), extent - 1;
      assert 2 * s * d == 2 * (s * d);
      var back := s * d + COORDINATE / 2;
      assert value * COORDINATE <= back < value * COORDINATE + COORDINATE;
      DivisionBounds(back, COORDINATE);
    }
  }

  /** Beyond that, some two neighbouring pixels share a position, so no inverse exists. */
  lemma PixelsCollide(extent: int) returns (v: int)
    requires 32768 < extent <= 0x1_0000_0000_0000
    ensures 0 <= v < extent - 1 && ScaleCoordinate(v, extent) == ScaleCoordinate(v + 1, extent)
  {
    v := 0;
    EndpointsMeet(extent);
    while v < extent - 1 && ScaleCoordinate(v, extent) != ScaleCoordinate(v + 1, extent)
      invariant 0 <= v <= extent - 1
      invariant v <= ScaleCoordinate(v, extent)
    {
      ScaleIsMonotone(v, v + 1, extent);
      v := v + 1;
    }
  }
}
