/** The size to which a screenshot is scaled for the GUI-Owl model: multiples of 28 with a
    bounded number of pixels. Floats are exact reals. */
module ImageSizing {
  import opened RealArithmetic
  import opened Rounding
  import opened Wrappers

  const FACTOR := 28
  const MIN_PIXELS := 3136
  const MAX_PIXELS := 10035200
  const MAX_ASPECT := 200

  /** `math.sqrt`: the positive root of a positive number. */
  ghost predicate IsSqrt(sqrt: real -> real) {
    forall x {:trigger sqrt(x)} | x > 0.0 :: sqrt(x) > 0.0 && sqrt(x) * sqrt(x) == x
  }

  function Max(a: int, b: int): int { if a >= b then a else b }
  function Min(a: int, b: int): int { if a <= b then a else b }

  function RoundToFactor(value: int): int {
    RoundHalfEven(value as real / FACTOR as real) * FACTOR
  }

  function FloorToFactor(side: real): int {
    (side / FACTOR as real).Floor * FACTOR
  }

  function CeilToFactor(side: real): int {
    Ceil(side / FACTOR as real) * FACTOR
  }

  function Rounded(height: int, width: int): (int, int) {
    (Max(FACTOR, RoundToFactor(height)), Max(FACTOR, RoundToFactor(width)))
  }

  function ShrinkFactor(h: real, w: real, sqrt: real -> real): real
  {
    sqrt(h * w / MAX_PIXELS as real)
  }

  function GrowFactor(h: real, w: real, sqrt: real -> real): real
    requires h * w != 0.0
  {
    sqrt(MIN_PIXELS as real / (h * w))
  }

  function FlooredBy(h: real, w: real, beta: real): (int, int)
    requires beta != 0.0
  {
    (FloorToFactor(h / beta), FloorToFactor(w / beta))
  }

  function CeiledBy(h: real, w: real, beta: real): (int, int) {
    (CeilToFactor(h * beta), CeilToFactor(w * beta))
  }

  function Shrunk(height: int, width: int, sqrt: real -> real): (int, int)
    requires height > 0 && width > 0 && IsSqrt(sqrt)
  {
    var h, w := height as real, width as real;
    Factors(h, w, sqrt);
    FlooredBy(h, w, ShrinkFactor(h, w, sqrt))
  }

  function Grown(height: int, width: int, sqrt: real -> real): (int, int)
    requires height > 0 && width > 0 && IsSqrt(sqrt)
  {
    var h, w := height as real, width as real;
    Factors(h, w, sqrt);
    CeiledBy(h, w, GrowFactor(h, w, sqrt))
  }

  /** None is the ValueError of an image with too large an aspect ratio. */
  function SmartResize(height: int, width: int, sqrt: real -> real): Option<(int, int)>
    requires height > 0 && width > 0 && IsSqrt(sqrt)
  {
    if Max(height, width) as real / Min(height, width) as real > MAX_ASPECT as real then None else
      var (rows, columns) := Rounded(height, width);
      var pixels := rows * columns;
      if pixels > MAX_PIXELS then Some(Shrunk(height, width, sqrt))
      else if pixels < MIN_PIXELS then Some(Grown(height, width, sqrt))
      else Some((rows, columns))
  }

  lemma Factors(h: real, w: real, sqrt: real -> real)
    requires h > 0.0 && w > 0.0 && IsSqrt(sqrt)
    ensures h * w > 0.0
    ensures var beta := ShrinkFactor(h, w, sqrt); beta > 0.0 && beta * beta == h * w / MAX_PIXELS as real
    ensures var beta := GrowFactor(h, w, sqrt); beta > 0.0 && beta * beta == MIN_PIXELS as real / (h * w)
  {
    var area := Product(h, w);
    var x, y := DivIff(area, MAX_PIXELS as real, 0.0);
    x, y := DivIff(MIN_PIXELS as real, area, 0.0);
  }

  predicate AspectOk(height: int, width: int) {
    height <= MAX_ASPECT * width && width <= MAX_ASPECT * height
  }

  predicate ValidSize(height: int, width: int) {
    height > 0 && width > 0 && height % FACTOR == 0 && width % FACTOR == 0
    && MIN_PIXELS <= height * width <= MAX_PIXELS
  }

  lemma AspectIff(height: int, width: int)
    requires height > 0 && width > 0
    ensures Max(height, width) as real / Min(height, width) as real > MAX_ASPECT as real <==> !AspectOk(height, width)
  {
    var x, y := DivIff(Max(height, width) as real, Min(height, width) as real, MAX_ASPECT as real);
  }

  // ----- sides of a rectangle with a given area and aspect ---------------------------

  /** Sides a and b with area `area` and aspect at most 200 have squares between area/200 and
      200 * area. */
  lemma SquaresOfSides(a: real, b: real, area: real) returns (aa: real)
    requires a > 0.0 && b > 0.0 && a * b == area && a <= 200.0 * b && b <= 200.0 * a
    ensures aa == a * a && area <= 200.0 * aa && aa <= 200.0 * area
  {
    aa := a * a;
    var x, y := Scale(a, b, 200.0 * a);
    assert x == area && y == 200.0 * aa;
    x, y := Scale(a, a, 200.0 * b);
    assert x == aa && y == 200.0 * area;
  }

  lemma SquaresKeepOrder(a: real, k: real) returns (aa: real, kk: real)
    requires a > 0.0 && k > 0.0
    ensures aa == a * a && kk == k * k
    ensures a <= k <==> aa <= kk
  {
    var ak, ka;
    aa, ak := Scale(a, a, k);
    ka, kk := Scale(k, a, k);
    assert ak == ka;
  }

  // ----- the shrinking and the growing branch ------------------------------------------

  lemma ProductOfSides(r: int, c: int, lowR: real, lowC: real, highR: real, highC: real) returns (low: real, high: real)
    requires 0.0 < lowR <= r as real <= highR && 0.0 < lowC <= c as real <= highC
    ensures low == lowR * lowC && high == highR * highC
    ensures low <= (r * c) as real <= high
  {
    var area := (r * c) as real;
    assert area == r as real * c as real;
    low := ProductGrows(lowR, lowC, r as real, c as real, area);
    high := highR * highC;
    var a := ProductGrows(r as real, c as real, highR, highC, high);
  }

  lemma ProductGrows(a: real, b: real, x: real, y: real, xy: real) returns (ab: real)
    requires 0.0 < a <= x && 0.0 < b <= y && xy == x * y
    ensures ab == a * b && ab <= xy
  {
    var ay, ya, yx;
    ab, ay := Scale(a, b, y);
    ya, yx := Scale(y, a, x);
    assert ay == ya && yx == xy;
  }

  lemma FloorBounds(side: real)
    requires side >= 224.0
    ensures 224 <= FloorToFactor(side) && FloorToFactor(side) as real <= side && FloorToFactor(side) % FACTOR == 0
  {
    var quotient := Quotient(side, FACTOR as real);
    assert quotient >= 8.0;
    assert quotient.Floor as real <= quotient;
  }

  /** Sides of the maximal area: flooring them keeps every bound. */
  lemma FlooredSides(a: real, b: real)
    requires a > 0.0 && b > 0.0 && a * b == MAX_PIXELS as real && a <= 200.0 * b && b <= 200.0 * a
    ensures ValidSize(FloorToFactor(a), FloorToFactor(b))
    ensures 224 <= FloorToFactor(a) <= 44800 && 224 <= FloorToFactor(b) <= 44800
  {
    var aa := SquaresOfSides(a, b, MAX_PIXELS as real);
    var bb := SquaresOfSides(b, a, MAX_PIXELS as real);
    var x, y := SquaresKeepOrder(224.0, a);
    x, y := SquaresKeepOrder(224.0, b);
    x, y := SquaresKeepOrder(a, 44800.0);
    x, y := SquaresKeepOrder(b, 44800.0);
    FloorBounds(a);
    FloorBounds(b);
    var low, high := ProductOfSides(FloorToFactor(a), FloorToFactor(b), 224.0, 224.0, a, b);
  }

  lemma CeilBounds(side: real)
    requires side > 0.0
    ensures IsCeiling(side, CeilToFactor(side))
  {
    var quotient := Quotient(side, FACTOR as real);
    assert quotient > 0.0;
  }

  predicate IsCeiling(side: real, r: int) {
    r > 0 && side <= r as real < side + FACTOR as real && r % FACTOR == 0
  }

  /** Sides of the minimal area: ceiling them keeps every bound. */
  lemma CeiledSides(a: real, b: real)
    requires a > 0.0 && b > 0.0 && a * b == MIN_PIXELS as real && a <= 200.0 * b && b <= 200.0 * a
    ensures ValidSize(CeilToFactor(a), CeilToFactor(b))
    ensures CeilToFactor(a) <= 820 && CeilToFactor(b) <= 820
  {
    var aa := SquaresOfSides(a, b, MIN_PIXELS as real);
    var bb := SquaresOfSides(b, a, MIN_PIXELS as real);
    var x, y := SquaresKeepOrder(a, 792.0);
    x, y := SquaresKeepOrder(b, 792.0);
    CeilBounds(a);
    CeilBounds(b);
    var low, high := ProductOfSides(CeilToFactor(a), CeilToFactor(b), a, b, 820.0, 820.0);
  }

  /** Dividing both sides by the root of their area ratio gives sides of area `area`. */
  lemma ScaledSides(h: real, w: real, area: real, beta: real) returns (a: real, b: real)
    requires h > 0.0 && w > 0.0 && area > 0.0 && beta > 0.0 && beta * beta == h * w / area
    requires h <= 200.0 * w && w <= 200.0 * h
    ensures a == h / beta && b == w / beta
    ensures a > 0.0 && b > 0.0 && a * b == area && a <= 200.0 * b && b <= 200.0 * a
  {
    a := Quotient(h, beta);
    b := Quotient(w, beta);
    var x, y := Scale(beta, 0.0, a);
    x, y := Scale(beta, 0.0, b);
    x, y := Scale(beta, a, 200.0 * b);
    assert y == 200.0 * w;
    x, y := Scale(beta, b, 200.0 * a);
    assert y == 200.0 * h;
    AreaOfScaled(h, w, area, beta, a, b, beta * beta);
  }

  lemma AreaOfScaled(h: real, w: real, area: real, beta: real, a: real, b: real, bb: real)
    requires area > 0.0 && bb > 0.0 && bb == beta * beta && bb == h * w / area
    requires beta * a == h && beta * b == w
    ensures a * b == area
  {
    var q := Quotient(h * w, area);
    assert bb * area == h * w;
    assert bb * (a * b) == (beta * a) * (beta * b);
    var x, y := Scale(bb, a * b, area);
  }

  /** Multiplying both sides by the root of the ratio of `area` to their area does the same. */
  lemma GrownSides(h: real, w: real, area: real, beta: real) returns (a: real, b: real)
    requires h > 0.0 && w > 0.0 && area > 0.0 && beta > 0.0 && h * w > 0.0 && beta * beta == area / (h * w)
    requires h <= 200.0 * w && w <= 200.0 * h
    ensures a == h * beta && b == w * beta
    ensures a > 0.0 && b > 0.0 && a * b == area && a <= 200.0 * b && b <= 200.0 * a
  {
    a := Product(h, beta);
    b := Product(w, beta);
    var x, y := Scale(beta, h, 200.0 * w);
    assert x == a && y == 200.0 * b;
    x, y := Scale(beta, w, 200.0 * h);
    assert x == b && y == 200.0 * a;
    var q := Quotient(area, h * w);
    assert a * b == (h * w) * (beta * beta);
  }

  // ----- the results ---------------------------------------------------------------------

  lemma RoundedSide(value: int)
    requires value > 0
    ensures var r := Max(FACTOR, RoundToFactor(value)); r > 0 && r % FACTOR == 0
  {
  }

  lemma ShrunkIsValid(height: int, width: int, sqrt: real -> real)
    requires height > 0 && width > 0 && IsSqrt(sqrt) && AspectOk(height, width)
    ensures var (r, c) := Shrunk(height, width, sqrt); ValidSize(r, c) && 224 <= r <= 44800 && 224 <= c <= 44800
  {
    var h, w := height as real, width as real;
    Factors(h, w, sqrt);
    var a, b := ScaledSides(h, w, MAX_PIXELS as real, ShrinkFactor(h, w, sqrt));
    FlooredSides(a, b);
  }

  lemma GrownIsValid(height: int, width: int, sqrt: real -> real)
    requires height > 0 && width > 0 && IsSqrt(sqrt) && AspectOk(height, width)
    ensures var (r, c) := Grown(height, width, sqrt); ValidSize(r, c) && r <= 820 && c <= 820
  {
    var h, w := height as real, width as real;
    var beta := GrowthOf(h, w, sqrt);
    CeiledByIsValid(h, w, beta);
  }

  lemma GrowthOf(h: real, w: real, sqrt: real -> real) returns (beta: real)
    requires h > 0.0 && w > 0.0 && IsSqrt(sqrt)
    ensures h * w > 0.0 && beta == GrowFactor(h, w, sqrt)
    ensures beta > 0.0 && beta * beta == MIN_PIXELS as real / (h * w)
  {
    Factors(h, w, sqrt);
    beta := GrowFactor(h, w, sqrt);
  }

  lemma CeiledByIsValid(h: real, w: real, beta: real)
    requires h > 0.0 && w > 0.0 && h <= 200.0 * w && w <= 200.0 * h && h * w > 0.0
    requires beta > 0.0 && beta * beta == MIN_PIXELS as real / (h * w)
    ensures ValidSize(CeiledBy(h, w, beta).0, CeiledBy(h, w, beta).1)
    ensures CeiledBy(h, w, beta).0 <= 820 && CeiledBy(h, w, beta).1 <= 820
  {
    var a, b := GrownSides(h, w, MIN_PIXELS as real, beta);
    CeiledSides(a, b);
  }

  predicate Shrinks(height: int, width: int) {
    Rounded(height, width).0 * Rounded(height, width).1 > MAX_PIXELS
  }

  /** Exactly the images with a sound aspect ratio are sized, each to positive multiples of 28
      with an admissible number of pixels; shrinking leaves every side at least 224. */
  lemma ResizeIsValid(height: int, width: int, sqrt: real -> real)
    requires height > 0 && width > 0 && IsSqrt(sqrt)
    ensures SmartResize(height, width, sqrt).Some? <==> AspectOk(height, width)
    ensures AspectOk(height, width) ==>
      var (r, c) := SmartResize(height, width, sqrt).value;
      ValidSize(r, c) && (Shrinks(height, width) ==> r >= 224 && c >= 224)
  {
    AspectIff(height, width);
    if AspectOk(height, width) {
      ShrunkIsValid(height, width, sqrt);
      GrownIsValid(height, width, sqrt);
      RoundedSide(height);
      RoundedSide(width);
    }
  }

  lemma MultipleIsRounded(value: int)
    requires value > 0 && value % FACTOR == 0
    ensures Max(FACTOR, RoundToFactor(value)) == value
  {
    var k := value / FACTOR;
    var x, y := DivIff(value as real, FACTOR as real, k as real);
    assert y == value as real;
    var z, t := Scale(FACTOR as real, k as real, x);
    RoundsTo(x, k);
  }

  /** Valid sizes with a sound aspect ratio are left alone. */
  lemma ValidSizeIsFixed(height: int, width: int, sqrt: real -> real)
    requires ValidSize(height, width) && AspectOk(height, width) && IsSqrt(sqrt)
    ensures SmartResize(height, width, sqrt) == Some((height, width))
  {
    AspectIff(height, width);
    MultipleIsRounded(height);
    MultipleIsRounded(width);
  }

  /** The image is shrunk, or its sides rounded to multiples of 28 have a sound aspect ratio. */
  predicate KeepsAspect(height: int, width: int) {
    Shrinks(height, width) || AspectOk(Rounded(height, width).0, Rounded(height, width).1)
  }

  lemma MultiplesAtLeast(r: int, c: int)
    requires r > 0 && c > 0 && r % FACTOR == 0 && c % FACTOR == 0
    ensures r >= FACTOR && c >= FACTOR
  {
  }

  /** Small rounded sides are far from too long. */
  lemma SmallIsSound(r: int, c: int)
    requires r >= FACTOR && c >= FACTOR && r * c < MIN_PIXELS
    ensures AspectOk(r, c)
  {
    if c > 112 {
      ProductAtLeast(r, c);
    }
    if r > 112 {
      ProductAtLeast(c, r);
    }
  }

  lemma ProductAtLeast(small: int, large: int)
    requires small >= FACTOR && large > 112
    ensures small * large >= MIN_PIXELS && large * small >= MIN_PIXELS
  {
    assert small * large == (small - FACTOR) * large + FACTOR * large;
  }

  /** An image of sound aspect ratio is resized to one exactly if it is shrunk or its rounded
      sides are sound: neither shrinking nor growing spoils the ratio, rounding can. */
  lemma AspectAfterIff(height: int, width: int, sqrt: real -> real)
    requires height > 0 && width > 0 && IsSqrt(sqrt) && AspectOk(height, width)
    ensures SmartResize(height, width, sqrt).Some?
    ensures var (r, c) := SmartResize(height, width, sqrt).value; AspectOk(r, c) <==> KeepsAspect(height, width)
  {
    AspectIff(height, width);
    RoundedSide(height);
    RoundedSide(width);
    var (rows, columns) := Rounded(height, width);
    MultiplesAtLeast(rows, columns);
    if rows * columns > MAX_PIXELS {
      ShrunkIsValid(height, width, sqrt);
    } else if rows * columns < MIN_PIXELS {
      GrownIsValid(height, width, sqrt);
      MultiplesAtLeast(Grown(height, width, sqrt).0, Grown(height, width, sqrt).1);
      SmallIsSound(rows, columns);
    }
  }

  /** Resizing twice is resizing once exactly for the images that are shrunk or whose rounded sides
      have a sound aspect ratio; the others are refused the second time. */
  lemma ResizeTwiceIff(height: int, width: int, sqrt: real -> real)
    requires height > 0 && width > 0 && IsSqrt(sqrt) && AspectOk(height, width)
    ensures var once := SmartResize(height, width, sqrt);
            && once.Some? && once.value.0 > 0 && once.value.1 > 0
            && SmartResize(once.value.0, once.value.1, sqrt) == if KeepsAspect(height, width) then once else None
  {
    ResizeIsValid(height, width, sqrt);
    AspectAfterIff(height, width, sqrt);
    var (r, c) := SmartResize(height, width, sqrt).value;
    ResizeIsValid(r, c, sqrt);
    if AspectOk(r, c) {
      ValidSizeIsFixed(r, c, sqrt);
    }
  }

  /** Rounding can spoil the aspect ratio: 6000 by 30 becomes 5992 by 28, which is refused. */
  lemma RoundingSpoilsAspect(sqrt: real -> real)
    requires IsSqrt(sqrt)
    ensures SmartResize(6000, 30, sqrt) == Some((5992, 28)) && SmartResize(5992, 28, sqrt) == None
  {
    AspectIff(6000, 30);
    AspectIff(5992, 28);
    RoundsTo(6000 as real / 28.0, 214);
    RoundsTo(30 as real / 28.0, 1);
  }

  // ----- each side comes from its own side ---------------------------------------------------

  predicate Grows(height: int, width: int) {
    Rounded(height, width).0 * Rounded(height, width).1 < MIN_PIXELS
  }

  lemma SameRoot(a: real, b: real)
    requires a > 0.0 && b > 0.0 && a * a == b * b
    ensures a == b
  {
    var aa, bb := SquaresKeepOrder(a, b);
    bb, aa := SquaresKeepOrder(b, a);
  }

  /** r is the largest multiple of 28 that is not above the side. */
  predicate IsFloor(side: real, r: int) {
    r as real <= side < r as real + FACTOR as real && r % FACTOR == 0
  }

  lemma FloorIs(side: real)
    ensures IsFloor(side, FloorToFactor(side))
  {
    var quotient := Quotient(side, FACTOR as real);
    assert quotient.Floor as real <= quotient < quotient.Floor as real + 1.0;
  }

  /** Shrinking divides each side by the root of the ratio of the pixels to the maximal number, and
      cuts it to a multiple of 28. */
  lemma ShrunkSides(height: int, width: int, sqrt: real -> real, beta: real)
    requires height > 0 && width > 0 && IsSqrt(sqrt) && AspectOk(height, width) && Shrinks(height, width)
    requires IsShrink(height as real, width as real, beta)
    ensures SmartResize(height, width, sqrt).Some?
    ensures var (r, c) := SmartResize(height, width, sqrt).value;
            IsFloor(height as real / beta, r) && IsFloor(width as real / beta, c)
  {
    AspectIff(height, width);
    ShrunkIsFloored(height as real, width as real, sqrt, beta);
    assert SmartResize(height, width, sqrt).value == FlooredBy(height as real, width as real, beta);
    FlooredByFloors(height as real, width as real, beta);
  }

  predicate IsShrink(h: real, w: real, beta: real) {
    beta > 0.0 && beta * beta == h * w / MAX_PIXELS as real
  }

  lemma ShrunkIsFloored(h: real, w: real, sqrt: real -> real, beta: real)
    requires h > 0.0 && w > 0.0 && IsSqrt(sqrt) && IsShrink(h, w, beta)
    ensures ShrinkFactor(h, w, sqrt) != 0.0 && FlooredBy(h, w, ShrinkFactor(h, w, sqrt)) == FlooredBy(h, w, beta)
  {
    RootIsShrink(h, w, sqrt, beta);
  }

  lemma RootIsShrink(h: real, w: real, sqrt: real -> real, beta: real)
    requires h > 0.0 && w > 0.0 && IsSqrt(sqrt)
    requires beta > 0.0 && beta * beta == h * w / MAX_PIXELS as real
    ensures beta == ShrinkFactor(h, w, sqrt)
  {
    Factors(h, w, sqrt);
    SameRoot(beta, ShrinkFactor(h, w, sqrt));
  }

  lemma FlooredByFloors(h: real, w: real, beta: real)
    requires beta > 0.0
    ensures IsFloor(h / beta, FlooredBy(h, w, beta).0) && IsFloor(w / beta, FlooredBy(h, w, beta).1)
  {
    FloorIs(h / beta);
    FloorIs(w / beta);
  }

  /** Growing multiplies each side by the root of the ratio of the minimal number to the pixels,
      and fills it up to a multiple of 28. */
  lemma GrownSidesAre(height: int, width: int, sqrt: real -> real, beta: real)
    requires height > 0 && width > 0 && IsSqrt(sqrt) && AspectOk(height, width) && Grows(height, width)
    requires IsGrowth(height as real, width as real, beta)
    ensures SmartResize(height, width, sqrt).Some?
    ensures var (r, c) := SmartResize(height, width, sqrt).value;
            IsCeiling(height as real * beta, r) && IsCeiling(width as real * beta, c)
  {
    AspectIff(height, width);
    GrownIsCeiled(height as real, width as real, sqrt, beta);
    assert SmartResize(height, width, sqrt).value == CeiledBy(height as real, width as real, beta);
    CeiledByCeils(height as real, width as real, beta);
  }

  predicate IsGrowth(h: real, w: real, beta: real) {
    beta > 0.0 && h * w != 0.0 && beta * beta == MIN_PIXELS as real / (h * w)
  }

  lemma GrownIsCeiled(h: real, w: real, sqrt: real -> real, beta: real)
    requires h > 0.0 && w > 0.0 && IsSqrt(sqrt) && IsGrowth(h, w, beta)
    ensures beta > 0.0 && h * w != 0.0 && CeiledBy(h, w, GrowFactor(h, w, sqrt)) == CeiledBy(h, w, beta)
  {
    RootIsGrowth(h, w, sqrt, beta);
  }

  lemma RootIsGrowth(h: real, w: real, sqrt: real -> real, beta: real)
    requires h > 0.0 && w > 0.0 && IsSqrt(sqrt) && h * w != 0.0
    requires beta > 0.0 && beta * beta == MIN_PIXELS as real / (h * w)
    ensures beta == GrowFactor(h, w, sqrt)
  {
    var root := GrowthOf(h, w, sqrt);
    SameRoot(beta, root);
  }

  lemma CeiledByCeils(h: real, w: real, beta: real)
    requires h > 0.0 && w > 0.0 && beta > 0.0
    ensures IsCeiling(h * beta, CeiledBy(h, w, beta).0) && IsCeiling(w * beta, CeiledBy(h, w, beta).1)
  {
    var x := Product(h, beta);
    var y := Product(w, beta);
    CeilBounds(x);
    CeilBounds(y);
  }

  /** r is the multiple of 28 nearest to the side, of two the even one, and never none. */
  predicate IsNearest(side: int, r: int) {
    && r > 0 && r % FACTOR == 0
    && (r == FACTOR || side - 14 <= r)
    && r <= (if side < FACTOR then FACTOR else side + 14)
    && (r == side - 14 || (r == side + 14 && r > FACTOR) ==> r % (2 * FACTOR) == 0)
  }

  lemma RoundedIsNearest(side: int)
    requires side > 0
    ensures IsNearest(side, Max(FACTOR, RoundToFactor(side)))
  {
    var n := RoundHalfEven(side as real / FACTOR as real);
    var x := Quotient(side as real, FACTOR as real);
    assert x - 0.5 <= n as real <= x + 0.5;
    assert side - 14 <= n * FACTOR <= side + 14;
  }

  /** Otherwise each side is rounded to the nearest multiple of 28. */
  lemma RoundedSides(height: int, width: int, sqrt: real -> real)
    requires height > 0 && width > 0 && IsSqrt(sqrt) && AspectOk(height, width)
    requires !Shrinks(height, width) && !Grows(height, width)
    ensures SmartResize(height, width, sqrt).Some?
    ensures var (r, c) := SmartResize(height, width, sqrt).value; IsNearest(height, r) && IsNearest(width, c)
  {
    AspectIff(height, width);
    RoundedIsNearest(height);
    RoundedIsNearest(width);
  }

  lemma RoundedInOrder(small: int, large: int)
    requires 0 < small <= large
    ensures Max(FACTOR, RoundToFactor(small)) <= Max(FACTOR, RoundToFactor(large))
  {
    var x := Quotient(small as real, FACTOR as real);
    var y := Quotient(large as real, FACTOR as real);
    RoundMonotone(x, y);
  }

  lemma FloorsInOrder(x: real, y: real, r: int, c: int)
    requires x <= y && IsFloor(x, r) && IsFloor(y, c)
    ensures r <= c
  {
  }

  lemma CeilingsInOrder(x: real, y: real, r: int, c: int)
    requires x <= y && IsCeiling(x, r) && IsCeiling(y, c)
    ensures r <= c
  {
  }

  lemma ShrunkInOrder(h: real, w: real, beta: real) returns (x: real, y: real)
    requires beta > 0.0
    ensures x == h / beta && y == w / beta && (h <= w ==> x <= y) && (w <= h ==> y <= x)
  {
    x := Quotient(h, beta);
    y := Quotient(w, beta);
    var p, q := Scale(beta, x, y);
    q, p := Scale(beta, y, x);
  }

  lemma GrownInOrder(h: real, w: real, beta: real) returns (x: real, y: real)
    requires beta > 0.0
    ensures x == h * beta && y == w * beta && (h <= w ==> x <= y) && (w <= h ==> y <= x)
  {
    x, y := Scale(beta, h, w);
    var p, q := Scale(beta, w, h);
  }

  /** A landscape image stays one, and so does a portrait. */
  lemma OrientationIsKept(height: int, width: int, sqrt: real -> real)
    requires height > 0 && width > 0 && IsSqrt(sqrt) && AspectOk(height, width)
    ensures SmartResize(height, width, sqrt).Some?
    ensures var (r, c) := SmartResize(height, width, sqrt).value;
            (height <= width ==> r <= c) && (width <= height ==> c <= r)
  {
    AspectIff(height, width);
    var h, w := height as real, width as real;
    if Shrinks(height, width) {
      ShrunkKeepsOrientation(height, width, sqrt);
    } else if Grows(height, width) {
      GrownKeepsOrientation(height, width, sqrt);
    } else if height <= width {
      RoundedInOrder(height, width);
      if width <= height { RoundedInOrder(width, height); }
    } else {
      RoundedInOrder(width, height);
    }
  }

  lemma ShrunkKeepsOrientation(height: int, width: int, sqrt: real -> real)
    requires height > 0 && width > 0 && IsSqrt(sqrt) && AspectOk(height, width) && Shrinks(height, width)
    ensures SmartResize(height, width, sqrt).Some?
    ensures var (r, c) := SmartResize(height, width, sqrt).value;
            (height <= width ==> r <= c) && (width <= height ==> c <= r)
  {
    AspectIff(height, width);
    Factors(height as real, width as real, sqrt);
    FlooredByInOrder(height as real, width as real, ShrinkFactor(height as real, width as real, sqrt));
  }

  lemma FlooredByInOrder(h: real, w: real, beta: real)
    requires beta > 0.0
    ensures var (r, c) := FlooredBy(h, w, beta); (h <= w ==> r <= c) && (w <= h ==> c <= r)
  {
    var (r, c) := FlooredBy(h, w, beta);
    FlooredByFloors(h, w, beta);
    var x, y := ShrunkInOrder(h, w, beta);
    if h <= w { FloorsInOrder(x, y, r, c); }
    if w <= h { FloorsInOrder(y, x, c, r); }
  }

  lemma GrownKeepsOrientation(height: int, width: int, sqrt: real -> real)
    requires height > 0 && width > 0 && IsSqrt(sqrt) && AspectOk(height, width) && Grows(height, width)
    ensures SmartResize(height, width, sqrt).Some?
    ensures var (r, c) := SmartResize(height, width, sqrt).value;
            (height <= width ==> r <= c) && (width <= height ==> c <= r)
  {
    AspectIff(height, width);
    var beta := GrowthOf(height as real, width as real, sqrt);
    CeiledByInOrder(height as real, width as real, beta);
  }

  lemma CeiledByInOrder(h: real, w: real, beta: real)
    requires h > 0.0 && w > 0.0 && beta > 0.0
    ensures var (r, c) := CeiledBy(h, w, beta); (h <= w ==> r <= c) && (w <= h ==> c <= r)
  {
    var (r, c) := CeiledBy(h, w, beta);
    CeiledByCeils(h, w, beta);
    var x, y := GrownInOrder(h, w, beta);
    if h <= w { CeilingsInOrder(x, y, r, c); }
    if w <= h { CeilingsInOrder(y, x, c, r); }
  }

  // ----- scaling before resizing ------------------------------------------------------------

  /** The configured ratio, None when it is missing or not a number. */
  function NormalizeRatio(ratio: Option<real>): (r: real)
    ensures 0.0 < r <= 1.0
  {
    match ratio
    case None => 0.5
    case Some(value) => if value <= 0.0 then 0.5 else if value < 1.0 then value else 1.0
  }

  function ScaledDimensions(height: int, width: int, ratio: Option<real>): (int, int)
    requires height > 0 && width > 0
  {
    var r := NormalizeRatio(ratio);
    (Max(1, (height as real * r).Floor), Max(1, (width as real * r).Floor))
  }

  lemma ScaledSide(side: int, r: real)
    requires side > 0 && 0.0 < r <= 1.0
    ensures 1 <= Max(1, (side as real * r).Floor) <= side
  {
    var x, y := Scale(side as real, r, 1.0);
  }

  lemma ScaledIsSmaller(height: int, width: int, ratio: Option<real>)
    requires height > 0 && width > 0
    ensures var (h, w) := ScaledDimensions(height, width, ratio); 1 <= h <= height && 1 <= w <= width
  {
    ScaledSide(height, NormalizeRatio(ratio));
    ScaledSide(width, NormalizeRatio(ratio));
  }

  /** A ratio between 0 and 1 scales each side, cut to whole pixels and never to none; a larger one
      changes nothing, and halves are taken where there is none. */
  lemma ScaledSidesAre(height: int, width: int, ratio: Option<real>)
    requires height > 0 && width > 0
    ensures var (h, w) := ScaledDimensions(height, width, ratio); IsScaled(height, ratio, h) && IsScaled(width, ratio, w)
  {
    ScaledSideIs(height, ratio);
    ScaledSideIs(width, ratio);
  }

  lemma ScaledSideIs(side: int, ratio: Option<real>)
    requires side > 0
    ensures IsScaled(side, ratio, Max(1, (side as real * NormalizeRatio(ratio)).Floor))
  {
    assert (side as real * 0.5).Floor == side / 2;
  }

  predicate IsScaled(side: int, ratio: Option<real>, scaled: int) {
    match ratio
    case None => scaled == Max(1, side / 2)
    case Some(value) =>
      if value <= 0.0 then scaled == Max(1, side / 2)
      else if value >= 1.0 then scaled == side
      else IsCut(side as real * value, scaled)
  }

  predicate IsCut(exact: real, scaled: int) {
    scaled >= 1 && (scaled > 1 ==> scaled as real <= exact) && exact < scaled as real + 1.0
  }

  /** A scaled screenshot never grows, and is sized whenever its scaled aspect ratio is sound. */
  lemma ScaledResizeIsValid(height: int, width: int, ratio: Option<real>, sqrt: real -> real)
    requires height > 0 && width > 0 && IsSqrt(sqrt)
    ensures var (h, w) := ScaledDimensions(height, width, ratio);
            && 1 <= h <= height && 1 <= w <= width
            && (SmartResize(h, w, sqrt).Some? <==> AspectOk(h, w))
            && (AspectOk(h, w) ==> ValidSize(SmartResize(h, w, sqrt).value.0, SmartResize(h, w, sqrt).value.1))
  {
    ScaledIsSmaller(height, width, ratio);
    var (h, w) := ScaledDimensions(height, width, ratio);
    ResizeIsValid(h, w, sqrt);
  }
}
