/** Device pixels and the 0..999 grid of the model: both directions, exactly when they are
    inverse, and nested user-interface bounds. Floats are exact reals. */
module Coordinates {
  import opened RealArithmetic
  import opened Rounding

  const GRID_MAX := 999

  function Clamp(value: int, high: int): int {
    var capped := if value <= high then value else high;
    if capped >= 0 then capped else 0
  }

  /** A value on a scale from 0 to m, on a scale from 0 to n. */
  function Scaled(value: real, m: int, n: int): real
    requires m != 0
  {
    value / m as real * n as real
  }

  function ResolveCoordinate(value: real, extent: int, relative: bool): int {
    var pixel := if relative then RoundHalfEven(Scaled(value, GRID_MAX, extent - 1)) else RoundHalfEven(value);
    Clamp(pixel, extent - 1)
  }

  function ToRelative(value: int, extent: int): int {
    if extent <= 1 then 0 else Clamp(RoundHalfEven(Scaled(value as real, extent - 1, GRID_MAX)), GRID_MAX)
  }

  /** A point i of 0..m carried to the nearest point of 0..n. */
  function Carry(i: int, m: int, n: int): int
    requires m != 0
  {
    RoundHalfEven(Scaled(i as real, m, n))
  }

  // ----- carrying between two grids -------------------------------------------------------

  lemma CarriedExactly(i: int, m: int, n: int) returns (x: real)
    requires m > 0
    ensures x == Scaled(i as real, m, n) && m as real * x == (i * n) as real
  {
    var q := Quotient(i as real, m as real);
    x := q * n as real;
    assert m as real * x == (m as real * q) * n as real;
  }

  lemma ScaledMonotone(u: real, v: real, m: int, n: int)
    requires m > 0 && n >= 0 && u <= v
    ensures Scaled(u, m, n) <= Scaled(v, m, n)
  {
    var p := Quotient(u, m as real);
    var q := Quotient(v, m as real);
    var a, b := Scale(m as real, p, q);
    if n > 0 {
      a, b := Scale(n as real, p, q);
    }
  }

  /** Carrying is monotone, and keeps points of the grid on the grid. */
  lemma CarryMonotone(i: int, j: int, m: int, n: int)
    requires m > 0 && n >= 0 && i <= j
    ensures Carry(i, m, n) <= Carry(j, m, n)
  {
    ScaledMonotone(i as real, j as real, m, n);
    RoundMonotone(Scaled(i as real, m, n), Scaled(j as real, m, n));
  }

  lemma CarryOfEnds(m: int, n: int)
    requires m > 0
    ensures Carry(0, m, n) == 0 && Carry(m, m, n) == n
  {
    var x := CarriedExactly(0, m, n);
    var y := CarriedExactly(m, m, n);
    var a, b := Scale(m as real, x, 0.0);
    a, b := Scale(m as real, y, n as real);
    RoundsTo(x, 0);
    RoundsTo(y, n);
  }

  lemma CarryStaysOnGrid(i: int, m: int, n: int)
    requires m > 0 && n >= 0 && 0 <= i <= m
    ensures 0 <= Carry(i, m, n) <= n
  {
    CarryMonotone(0, i, m, n);
    CarryMonotone(i, m, m, n);
    CarryOfEnds(m, n);
  }

  /** A product that is kept whole. */
  function Times(k: real, x: real): real { k * x }

  lemma TimesKeepsOrder(k: real, x: real, y: real)
    requires k > 0.0
    ensures x <= y <==> Times(k, x) <= Times(k, y)
  {
    var a, b := Scale(k, x, y);
  }

  lemma TimesAdds(k: real, x: real, y: real)
    ensures Times(k, x) + Times(k, y) == Times(k, x + y)
  {
  }

  lemma TimesHalf(k: real)
    ensures Times(k, 0.5) == k / 2.0 && Times(k, -0.5) == -k / 2.0 && Times(k, 1.0) == k && Times(k, -1.0) == -k
  {
  }

  lemma TimesOfInts(k: int, x: int)
    ensures Times(k as real, x as real) == (k * x) as real
  {
  }

  /** Both sides are twice the difference of the two named products. */
  lemma SameDifference(n: real, y: real, i: real, m: real, c: real, x: real)
    requires n * y == c * m && m * x == i * n
    ensures Times(2.0 * n, y - i) == Times(m, 2.0 * (c - x))
  {
  }

  /** What is carried there and back, before the last rounding, is off by at most m / 2n. */
  lemma BackIsNear(i: int, m: int, n: int) returns (y: real)
    requires m > 0 && n > 0
    ensures y == Scaled(Carry(i, m, n) as real, n, m)
    ensures -(m as real) <= Times(2.0 * n as real, y - i as real) <= m as real
  {
    var x := CarriedExactly(i, m, n);
    var c := Carry(i, m, n);
    y := CarriedExactly(c, n, m);
    assert (c * m) as real == c as real * m as real && (i * n) as real == i as real * n as real;
    SameDifference(n as real, y, i as real, m as real, c as real, x);
    TimesKeepsOrder(m as real, 2.0 * (c as real - x), 1.0);
    TimesKeepsOrder(m as real, -1.0, 2.0 * (c as real - x));
    TimesHalf(m as real);
  }

  /** To a grid that is at least as fine, and back, is the identity. */
  lemma FinerAndBack(i: int, m: int, n: int)
    requires 0 < m <= n
    ensures Carry(Carry(i, m, n), n, m) == i
  {
    if m == n {
      CarryToSame(i, m);
      CarryToSame(i, n);
    } else {
      var y := BackIsNear(i, m, n);
      TimesKeepsOrder(2.0 * n as real, 0.5, y - i as real);
      TimesKeepsOrder(2.0 * n as real, y - i as real, -0.5);
      TimesHalf(2.0 * n as real);
      RoundsTo(y, i);
    }
  }

  lemma CarryToSame(i: int, m: int)
    requires m > 0
    ensures Carry(i, m, m) == i
  {
    var x := CarriedExactly(i, m, m);
    var a, b := Scale(m as real, x, i as real);
    RoundsTo(x, i);
  }

  /** To any grid and back is off by at most m / 2n + 1 / 2. */
  lemma BackIsBounded(i: int, m: int, n: int)
    requires m > 0 && n > 0
    ensures var back := Carry(Carry(i, m, n), n, m);
            -(m + n) <= 2 * n * (back - i) <= m + n
  {
    var y := BackIsNear(i, m, n);
    var back := Carry(Carry(i, m, n), n, m);
    TimesKeepsOrder(2.0 * n as real, back as real - y, 0.5);
    TimesKeepsOrder(2.0 * n as real, -0.5, back as real - y);
    TimesHalf(2.0 * n as real);
    TimesAdds(2.0 * n as real, back as real - y, y - i as real);
    TimesOfInts(2 * n, back - i);
  }

  function ThereAndBack(i: int, m: int, n: int): int
    requires m != 0 && n != 0
  {
    Carry(Carry(i, m, n), n, m)
  }

  ghost predicate AllComeBack(m: int, n: int)
    requires m != 0 && n != 0
  {
    forall i: nat | i <= m :: ThereAndBack(i, m, n) == i
  }

  lemma CarriedApart(i: nat, j: nat, m: int, n: int)
    requires m != 0 && n != 0 && i < j <= m && AllComeBack(m, n)
    ensures Carry(i, m, n) != Carry(j, m, n)
  {
    assert ThereAndBack(i, m, n) == i && ThereAndBack(j, m, n) == j;
  }

  /** A monotone map with a left inverse climbs by at least one a step. */
  lemma {:induction false} InvertibleClimbs(i: nat, m: int, n: int)
    requires m > 0 && n > 0 && i <= m
    requires AllComeBack(m, n)
    ensures Carry(i, m, n) >= i
  {
    if i == 0 {
      CarryOfEnds(m, n);
    } else {
      InvertibleClimbs(i - 1, m, n);
      CarryMonotone(i - 1, i, m, n);
      CarriedApart(i - 1, i, m, n);
    }
  }

  /** There and back is the identity on the whole of 0..m exactly when the other grid is at
      least as fine. */
  lemma BackIsIdentityIff(m: int, n: int)
    requires m > 0 && n > 0
    ensures AllComeBack(m, n) <==> m <= n
  {
    if m <= n {
      forall i: nat | i <= m ensures ThereAndBack(i, m, n) == i {
        FinerAndBack(i, m, n);
      }
    }
    if AllComeBack(m, n) {
      InvertibleClimbs(m, m, n);
      CarryOfEnds(m, n);
    }
  }

  // ----- the program's two directions -------------------------------------------------------

  lemma ResolveIsCarry(grid: int, extent: int)
    requires 0 <= grid <= GRID_MAX && extent >= 2
    ensures ResolveCoordinate(grid as real, extent, true) == Carry(grid, GRID_MAX, extent - 1)
    ensures 0 <= ResolveCoordinate(grid as real, extent, true) < extent
  {
    CarryStaysOnGrid(grid, GRID_MAX, extent - 1);
  }

  lemma ToRelativeIsCarry(pixel: int, extent: int)
    requires 0 <= pixel < extent && extent >= 2
    ensures ToRelative(pixel, extent) == Carry(pixel, extent - 1, GRID_MAX)
    ensures 0 <= ToRelative(pixel, extent) <= GRID_MAX
  {
    CarryStaysOnGrid(pixel, extent - 1, GRID_MAX);
  }

  /** A pixel after a trip to the grid, and a grid value after one to the screen. */
  function PixelTrip(pixel: int, extent: int): int {
    ResolveCoordinate(ToRelative(pixel, extent) as real, extent, true)
  }

  function GridTrip(grid: int, extent: int): int {
    ToRelative(ResolveCoordinate(grid as real, extent, true), extent)
  }

  lemma PixelTripIsCarry(pixel: int, extent: int)
    requires 0 <= pixel < extent && extent >= 2
    ensures PixelTrip(pixel, extent) == ThereAndBack(pixel, extent - 1, GRID_MAX)
  {
    ToRelativeIsCarry(pixel, extent);
    ResolveIsCarry(ToRelative(pixel, extent), extent);
  }

  lemma GridTripIsCarry(grid: int, extent: int)
    requires 0 <= grid <= GRID_MAX && extent >= 2
    ensures GridTrip(grid, extent) == ThereAndBack(grid, GRID_MAX, extent - 1)
  {
    ResolveIsCarry(grid, extent);
    ToRelativeIsCarry(ResolveCoordinate(grid as real, extent, true), extent);
  }

  ghost predicate PixelsComeBack(extent: int) {
    forall p: nat | p < extent :: PixelTrip(p, extent) == p
  }

  ghost predicate GridComesBack(extent: int) {
    forall g: nat | g <= GRID_MAX :: GridTrip(g, extent) == g
  }

  lemma PixelsComeBackIff(extent: int, m: int)
    requires extent >= 2 && m == extent - 1
    ensures PixelsComeBack(extent) <==> AllComeBack(m, GRID_MAX)
  {
    forall p: nat | p <= m
      ensures PixelTrip(p, extent) == ThereAndBack(p, m, GRID_MAX)
    {
      PixelTripIsCarry(p, extent);
    }
  }

  lemma GridComesBackIff(extent: int, n: int)
    requires extent >= 2 && n == extent - 1
    ensures GridComesBack(extent) <==> AllComeBack(GRID_MAX, n)
  {
    forall g: nat | g <= GRID_MAX
      ensures GridTrip(g, extent) == ThereAndBack(g, GRID_MAX, n)
    {
      GridTripIsCarry(g, extent);
    }
  }

  /** Pixel to grid and back is the identity on a screen side exactly when it has at most 1000
      pixels. */
  lemma PixelRoundTripIff(extent: int)
    requires extent >= 1
    ensures PixelsComeBack(extent) <==> extent <= 1000
  {
    if extent >= 2 {
      BackIsIdentityIff(extent - 1, GRID_MAX);
      PixelsComeBackIff(extent, extent - 1);
    } else {
      assert PixelTrip(0, 1) == 0;
    }
  }

  /** Grid to pixel and back is the identity exactly when the side has at least 1000 pixels. */
  lemma GridRoundTripIff(extent: int)
    requires extent >= 1
    ensures GridComesBack(extent) <==> extent >= 1000
  {
    if extent >= 2 {
      BackIsIdentityIff(GRID_MAX, extent - 1);
      GridComesBackIff(extent, extent - 1);
    } else {
      assert GridTrip(1, extent) == 0;
    }
  }

  /** On any side a pixel comes back within (extent - 1) / 1998 + 1 / 2. */
  lemma PixelErrorIsBounded(pixel: int, extent: int)
    requires 0 <= pixel < extent && extent >= 2
    ensures var error := PixelTrip(pixel, extent) - pixel;
            -(extent + 998) <= 1998 * error <= extent + 998
  {
    PixelTripIsCarry(pixel, extent);
    BackIsBounded(pixel, extent - 1, GRID_MAX);
  }

  /** Every value, in either unit and off the screen too, resolves to a pixel of the side, and
      larger values never to smaller pixels. */
  lemma ResolveIsMonotone(x: real, y: real, extent: int, relative: bool)
    requires extent >= 1 && x <= y
    ensures 0 <= ResolveCoordinate(x, extent, relative) <= ResolveCoordinate(y, extent, relative) < extent
  {
    if relative {
      ScaledMonotone(x, y, GRID_MAX, extent - 1);
      RoundMonotone(Scaled(x, GRID_MAX, extent - 1), Scaled(y, GRID_MAX, extent - 1));
    } else {
      RoundMonotone(x, y);
    }
  }

  lemma ToRelativeIsMonotone(i: int, j: int, extent: int)
    requires i <= j
    ensures 0 <= ToRelative(i, extent) <= ToRelative(j, extent) <= 999
  {
    if extent > 1 {
      CarryMonotone(i, j, extent - 1, GRID_MAX);
    }
  }

  /** The ends of the grid are the ends of the side, and back; what lies off the screen goes to the
      nearer end, and whole pixels on it are left alone. */
  lemma EndsAreEnds(extent: int, pixel: int)
    requires extent >= 1
    ensures ResolveCoordinate(0.0, extent, true) == 0 && ResolveCoordinate(999.0, extent, true) == extent - 1
    ensures ToRelative(0, extent) == 0 && (extent >= 2 ==> ToRelative(extent - 1, extent) == 999)
    ensures pixel < 0 ==> ResolveCoordinate(pixel as real, extent, false) == 0
    ensures 0 <= pixel < extent ==> ResolveCoordinate(pixel as real, extent, false) == pixel
    ensures pixel >= extent ==> ResolveCoordinate(pixel as real, extent, false) == extent - 1
  {
    RoundsTo(pixel as real, pixel);
    var x := CarriedExactly(999, 999, extent - 1);
    var y, z := Scale(999.0, x, (extent - 1) as real);
    RoundsTo(x, extent - 1);
    if extent >= 2 {
      CarryOfEnds(extent - 1, GRID_MAX);
    }
  }

  // ----- bounds of user-interface nodes -------------------------------------------------------

  datatype Bounds = Bounds(x1: int, y1: int, x2: int, y2: int)

  function Min(a: int, b: int): int { if a <= b then a else b }
  function Max(a: int, b: int): int { if a >= b then a else b }

  /** The least bounds that contain all of the given ones. */
  function Root(all: seq<Bounds>): (r: Bounds)
    requires all != []
    ensures forall b | b in all :: Inside(b, r)
  {
    if |all| == 1 then all[0] else
      var rest, b := Root(all[1..]), all[0];
      assert all == [b] + all[1..];
      Bounds(Min(b.x1, rest.x1), Min(b.y1, rest.y1), Max(b.x2, rest.x2), Max(b.y2, rest.y2))
  }

  predicate Inside(inner: Bounds, outer: Bounds) {
    outer.x1 <= inner.x1 && outer.y1 <= inner.y1 && inner.x2 <= outer.x2 && inner.y2 <= outer.y2
  }

  function RelativeTo(b: Bounds, root: Bounds): Bounds {
    var width, height := Max(1, root.x2 - root.x1), Max(1, root.y2 - root.y1);
    Bounds(ToRelative(b.x1 - root.x1, width), ToRelative(b.y1 - root.y1, height),
           ToRelative(b.x2 - root.x1, width), ToRelative(b.y2 - root.y1, height))
  }

  /** The relative bounds shown for a tree's nodes, none of which lack bounds. */
  function RelativeBounds(all: seq<Bounds>): (r: seq<Bounds>)
    ensures |r| == |all|
  {
    seq(|all|, i requires 0 <= i < |all| => RelativeTo(all[i], Root(all)))
  }

  /** Each edge of the root is an edge of some node. */
  lemma {:induction false} RootIsTight(all: seq<Bounds>)
    requires all != []
    ensures exists b :: b in all && b.x1 == Root(all).x1
    ensures exists b :: b in all && b.y1 == Root(all).y1
    ensures exists b :: b in all && b.x2 == Root(all).x2
    ensures exists b :: b in all && b.y2 == Root(all).y2
  {
    if |all| == 1 {
      assert all[0] in all;
    } else {
      RootIsTight(all[1..]);
      assert all == [all[0]] + all[1..];
      assert all[0] in all && forall b | b in all[1..] :: b in all;
    }
  }

  /** A node on the edges of the tree is shown on the ends of the grid. */
  lemma OutermostIsWhole(all: seq<Bounds>, i: nat)
    requires i < |all| && all[i] == Root(all)
    ensures var b, shown := all[i], RelativeBounds(all)[i];
            && shown.x1 == 0 && (b.x2 - b.x1 >= 2 ==> shown.x2 == 999)
            && shown.y1 == 0 && (b.y2 - b.y1 >= 2 ==> shown.y2 == 999)
  {
    var b := all[i];
    WholeSide(b.x2 - b.x1);
    WholeSide(b.y2 - b.y1);
  }

  lemma WholeSide(length: int)
    ensures ToRelative(0, Max(1, length)) == 0
    ensures length >= 2 ==> ToRelative(length, Max(1, length)) == 999
  {
    EndsAreEnds(Max(1, length), 0);
    if length >= 2 {
      ToRelativeIsMonotone(length - 1, length, length);
    }
  }

  /** Nested bounds stay nested, and everything shown is on the grid. */
  lemma NestingIsKept(all: seq<Bounds>, i: nat, j: nat)
    requires i < |all| && j < |all| && Inside(all[i], all[j])
    ensures Inside(RelativeBounds(all)[i], RelativeBounds(all)[j])
    ensures Inside(RelativeBounds(all)[i], Bounds(0, 0, 999, 999))
  {
    RelativeIsMonotone(all[i], all[j], Root(all));
  }

  lemma RelativeIsMonotone(inner: Bounds, outer: Bounds, root: Bounds)
    requires Inside(inner, outer)
    ensures Inside(RelativeTo(inner, root), RelativeTo(outer, root))
    ensures Inside(RelativeTo(inner, root), Bounds(0, 0, 999, 999))
  {
    var width, height := Max(1, root.x2 - root.x1), Max(1, root.y2 - root.y1);
    ToRelativeIsMonotone(outer.x1 - root.x1, inner.x1 - root.x1, width);
    ToRelativeIsMonotone(outer.y1 - root.y1, inner.y1 - root.y1, height);
    ToRelativeIsMonotone(inner.x2 - root.x1, outer.x2 - root.x1, width);
    ToRelativeIsMonotone(inner.y2 - root.y1, outer.y2 - root.y1, height);
  }

  // ----- captured frames ------------------------------------------------------------------------

  /** A screenshot pixel in the input coordinates of the device. */
  function ResolveCapture(value: real, capture: int, input: int): int {
    var pixel := if capture > 1 && capture != input then RoundHalfEven(Scaled(value, capture - 1, input - 1))
                 else RoundHalfEven(value);
    Clamp(pixel, input - 1)
  }

  lemma CaptureIsCarry(pixel: int, capture: int, input: int)
    requires 0 <= pixel < capture && capture >= 2 && input >= 2
    ensures ResolveCapture(pixel as real, capture, input) == Carry(pixel, capture - 1, input - 1)
    ensures 0 <= Carry(pixel, capture - 1, input - 1) < input
  {
    CarryStaysOnGrid(pixel, capture - 1, input - 1);
    if capture == input {
      CarryToSame(pixel, capture - 1);
      RoundsTo(pixel as real, pixel);
    }
  }

  /** Captured pixels land on the device in order, the first and the last on the ends; no two of
      them coincide when the device side is at least as long. */
  lemma CaptureIsFaithful(i: int, j: int, capture: int, input: int)
    requires 0 <= i < j < capture && input >= 2
    ensures 0 <= ResolveCapture(i as real, capture, input) <= ResolveCapture(j as real, capture, input) < input
    ensures ResolveCapture(0 as real, capture, input) == 0
    ensures ResolveCapture((capture - 1) as real, capture, input) == input - 1
    ensures capture <= input ==> ResolveCapture(i as real, capture, input) < ResolveCapture(j as real, capture, input)
  {
    CaptureIsCarry(i, capture, input);
    CaptureIsCarry(j, capture, input);
    CaptureIsCarry(0, capture, input);
    CaptureIsCarry(capture - 1, capture, input);
    CarryOfEnds(capture - 1, input - 1);
    CarryMonotone(i, j, capture - 1, input - 1);
    if capture <= input {
      FinerAndBack(i, capture - 1, input - 1);
      FinerAndBack(j, capture - 1, input - 1);
    }
  }
}
