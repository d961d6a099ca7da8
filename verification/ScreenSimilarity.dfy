/** Structural similarity of two grayscale screens, and when two screen fingerprints count as
    the same screen. Floats are exact reals. */
module ScreenSimilarity {
  import opened RealArithmetic
  import opened Wrappers

  type Pixel = n: int | 0 <= n < 256

  // ----- the score ---------------------------------------------------------------

  function Total(p: seq<Pixel>): (t: int)
    ensures t >= 0
  {
    if p == [] then 0 else p[0] + Total(p[1..])
  }

  function Mean(p: seq<Pixel>): (m: real)
    requires p != []
    ensures m >= 0.0
  {
    Total(p) as real / |p| as real
  }

  function Deviations(p: seq<Pixel>, mean: real): (d: seq<real>)
    ensures |d| == |p|
  {
    seq(|p|, i requires 0 <= i < |p| => p[i] as real - mean)
  }

  /** Sum of the products of corresponding elements. */
  function Dot(a: seq<real>, b: seq<real>): real
    requires |a| == |b|
  {
    if a == [] then 0.0 else a[0] * b[0] + Dot(a[1..], b[1..])
  }

  /** Around the means m and k. */
  function Covariance(p: seq<Pixel>, q: seq<Pixel>, m: real, k: real): real
    requires |p| == |q| && p != []
  {
    Dot(Deviations(p, m), Deviations(q, k)) / |p| as real
  }

  function Variance(p: seq<Pixel>, m: real): real
    requires p != []
  {
    Covariance(p, p, m, m)
  }

  const C1 := (0.01 * 255.0) * (0.01 * 255.0)
  const C2 := (0.03 * 255.0) * (0.03 * 255.0)

  function Luminance(m: real, n: real): real { 2.0 * m * n + C1 }

  function LuminanceBound(m: real, n: real): real { m * m + n * n + C1 }

  function Structure(p: seq<Pixel>, q: seq<Pixel>, m: real, k: real): real
    requires |p| == |q| && p != []
  {
    2.0 * Covariance(p, q, m, k) + C2
  }

  function StructureBound(p: seq<Pixel>, q: seq<Pixel>, m: real, k: real): real
    requires |p| == |q| && p != []
  {
    Variance(p, m) + Variance(q, k) + C2
  }

  /** Quotient of two products, with the program's value for a zero denominator. */
  function Combine(l: real, d: real, s: real, e: real, sameMean: bool): real {
    var denominator := d * e;
    if denominator == 0.0 then (if sameMean then 1.0 else 0.0) else l * s / denominator
  }

  function SsimScore(p: seq<Pixel>, q: seq<Pixel>): real {
    if |p| != |q| || |p| == 0 then 0.0 else
      var m, k := Mean(p), Mean(q);
      Combine(Luminance(m, k), LuminanceBound(m, k), Structure(p, q, m, k), StructureBound(p, q, m, k), m == k)
  }

  // ----- bounds on the parts --------------------------------------------------------

  lemma {:induction false} DotIsBounded(a: seq<real>, b: seq<real>)
    requires |a| == |b|
    ensures Dot(a, a) >= 0.0 && Dot(b, b) >= 0.0
    ensures -(Dot(a, a) + Dot(b, b)) <= 2.0 * Dot(a, b) <= Dot(a, a) + Dot(b, b)
    ensures 2.0 * Dot(a, b) == Dot(a, a) + Dot(b, b) <==> a == b
  {
    if a != [] {
      DotIsBounded(a[1..], b[1..]);
      var aa, bb, ab := TwoProducts(a[0], b[0]);
      SameParts(a, b);
    }
  }

  lemma SameParts(a: seq<real>, b: seq<real>)
    requires |a| == |b| && a != []
    ensures a == b <==> a[0] == b[0] && a[1..] == b[1..]
  {
    assert a == [a[0]] + a[1..] && b == [b[0]] + b[1..];
  }

  lemma {:induction false} DotIsSymmetric(a: seq<real>, b: seq<real>)
    requires |a| == |b|
    ensures Dot(a, b) == Dot(b, a)
  {
    if a != [] {
      DotIsSymmetric(a[1..], b[1..]);
    }
  }

  lemma EqualDeviations(p: seq<Pixel>, q: seq<Pixel>, mean: real)
    requires Deviations(p, mean) == Deviations(q, mean)
    ensures p == q
  {
    var d, e := Deviations(p, mean), Deviations(q, mean);
    assert |p| == |d| && |q| == |e|;
    forall i | 0 <= i < |p| ensures p[i] == q[i] {
      assert d[i] == p[i] as real - mean && e[i] == q[i] as real - mean;
    }
  }

  lemma LuminanceIsBounded(m: real, n: real)
    requires m >= 0.0 && n >= 0.0
    ensures 0.0 < Luminance(m, n) <= LuminanceBound(m, n)
    ensures Luminance(m, n) == LuminanceBound(m, n) <==> m == n
  {
    var p := Product(m, n);
    var mm, nn, mn := TwoProducts(m, n);
    assert 2.0 * m * n == 2.0 * p;
  }

  lemma StructureIsBounded(p: seq<Pixel>, q: seq<Pixel>, m: real, k: real)
    requires |p| == |q| && p != []
    ensures -StructureBound(p, q, m, k) <= Structure(p, q, m, k) <= StructureBound(p, q, m, k)
    ensures StructureBound(p, q, m, k) > 0.0
  {
    var a, b := Deviations(p, m), Deviations(q, k);
    DotIsBounded(a, b);
    var x, y, z := DivideBounds(Dot(a, b), Dot(a, a), Dot(b, b), |p| as real);
  }

  lemma DivideBounds(c: real, v: real, w: real, k: real) returns (x: real, y: real, z: real)
    requires k > 0.0 && v >= 0.0 && w >= 0.0 && -(v + w) <= 2.0 * c <= v + w
    ensures x == c / k && y == v / k && z == w / k
    ensures y >= 0.0 && z >= 0.0 && -(y + z) <= 2.0 * x <= y + z
    ensures 2.0 * x == y + z <==> 2.0 * c == v + w
  {
    x := Quotient(c, k);
    y := Quotient(v, k);
    z := Quotient(w, k);
    var a, b := Scale(k, 0.0, y);
    a, b := Scale(k, 0.0, z);
    a, b := Scale(k, 2.0 * x, y + z);
    assert a == 2.0 * c && b == v + w;
    a, b := Scale(k, -(y + z), 2.0 * x);
    assert a == -(v + w) && b == 2.0 * c;
  }

  lemma ProductBounds(l: real, d: real, s: real, e: real) returns (ls: real, de: real)
    requires 0.0 < l <= d && -e <= s <= e && e > 0.0
    ensures ls == l * s && de == d * e
    ensures de > 0.0 && -de <= ls <= de
    ensures ls == de <==> l == d && s == e
  {
    de := Product(d, e);
    var le, a, b;
    ls, le := Scale(l, s, e);
    a, b := Scale(l, -e, s);
    assert a == -le;
    a, b := Scale(e, l, d);
    assert a == le && b == de;
  }

  /** A quotient of bounded products is never computed by the zero-denominator branch, lies
      between -1 and 1, and is 1 exactly when both parts are at their bounds. */
  lemma CombineBounds(l: real, d: real, s: real, e: real, sameMean: bool)
    requires 0.0 < l <= d && -e <= s <= e && e > 0.0
    ensures d * e != 0.0
    ensures -1.0 <= Combine(l, d, s, e, sameMean) <= 1.0
    ensures Combine(l, d, s, e, sameMean) == 1.0 <==> l == d && s == e
  {
    var ls, de := ProductBounds(l, d, s, e);
    var x, y := DivIff(ls, de, 1.0);
    x, y := DivIff(ls, de, -1.0);
  }

  // ----- the score itself ---------------------------------------------------------------

  /** Structure is at its bound exactly when, the means being equal, the screens are. */
  lemma StructureAtBound(p: seq<Pixel>, q: seq<Pixel>, m: real)
    requires |p| == |q| && p != []
    ensures Structure(p, q, m, m) == StructureBound(p, q, m, m) <==> p == q
  {
    var a, b := Deviations(p, m), Deviations(q, m);
    DotIsBounded(a, b);
    var x, y, z := DivideBounds(Dot(a, b), Dot(a, a), Dot(b, b), |p| as real);
    if a == b {
      EqualDeviations(p, q, m);
    }
  }

  /** The score lies between -1 and 1, and is 1 exactly for equal screens; the
      zero-denominator branch is never taken. */
  lemma ScoreBounds(p: seq<Pixel>, q: seq<Pixel>)
    requires |p| == |q| && p != []
    ensures LuminanceBound(Mean(p), Mean(q)) * StructureBound(p, q, Mean(p), Mean(q)) != 0.0
    ensures -1.0 <= SsimScore(p, q) <= 1.0
    ensures SsimScore(p, q) == 1.0 <==> p == q
  {
    var m, k := Mean(p), Mean(q);
    LuminanceIsBounded(m, k);
    StructureIsBounded(p, q, m, k);
    CombineBounds(Luminance(m, k), LuminanceBound(m, k), Structure(p, q, m, k), StructureBound(p, q, m, k), m == k);
    if m == k {
      StructureAtBound(p, q, m);
    }
  }

  lemma ScoreIsSymmetric(p: seq<Pixel>, q: seq<Pixel>)
    ensures SsimScore(p, q) == SsimScore(q, p)
    ensures |p| != |q| || p == [] ==> SsimScore(p, q) == 0.0
  {
    if |p| == |q| && p != [] {
      var m, k := Mean(p), Mean(q);
      DotIsSymmetric(Deviations(p, m), Deviations(q, k));
      assert Structure(p, q, m, k) == Structure(q, p, k, m) && StructureBound(p, q, m, k) == StructureBound(q, p, k, m);
      assert Luminance(m, k) == Luminance(k, m);
      assert LuminanceBound(m, k) == LuminanceBound(k, m);
    }
  }

  // ----- the score from sums over the pixels ---------------------------------------------------

  function Sum(p: seq<Pixel>): real {
    if p == [] then 0.0 else p[0] as real + Sum(p[1..])
  }

  /** The sum of the products of corresponding pixels. */
  function Products(p: seq<Pixel>, q: seq<Pixel>): real
    requires |p| == |q|
  {
    if p == [] then 0.0 else p[0] as real * q[0] as real + Products(p[1..], q[1..])
  }

  function Weighted(p: seq<Pixel>, k: real): real {
    if p == [] then 0.0 else k * p[0] as real + Weighted(p[1..], k)
  }

  function Repeated(n: nat, x: real): real {
    if n == 0 then 0.0 else x + Repeated(n - 1, x)
  }

  lemma Distributes(k: real, x: real, y: real)
    ensures k * (x + y) == k * x + k * y
  {
  }

  lemma {:induction false} WeightedIs(p: seq<Pixel>, k: real)
    ensures Weighted(p, k) == k * Sum(p)
  {
    if p != [] {
      WeightedIs(p[1..], k);
      Distributes(k, p[0] as real, Sum(p[1..]));
    }
  }

  lemma {:induction false} RepeatedIs(n: nat, x: real)
    ensures Repeated(n, x) == x * n as real
  {
    if n > 0 {
      RepeatedIs(n - 1, x);
      Distributes(x, 1.0, (n - 1) as real);
    }
  }

  lemma {:induction false} TotalIsSum(p: seq<Pixel>)
    ensures Total(p) as real == Sum(p)
  {
    if p != [] {
      TotalIsSum(p[1..]);
    }
  }

  lemma MeanTimes(p: seq<Pixel>, n: real)
    requires p != [] && n == |p| as real
    ensures n * Mean(p) == Sum(p)
  {
    TotalIsSum(p);
    var m := Quotient(Total(p) as real, n);
  }

  lemma OneProduct(d: real, e: real, x: real, y: real, m: real, k: real, mk: real)
    requires d == x - m && e == y - k && mk == m * k
    ensures d * e == x * y - k * x - m * y + mk
  {
  }

  lemma DotOfBoth(p: seq<Pixel>, q: seq<Pixel>, m: real, k: real, mk: real) returns (first: real)
    requires |p| == |q| && p != [] && mk == m * k
    ensures Dot(Deviations(p, m), Deviations(q, k)) == first + Dot(Deviations(p[1..], m), Deviations(q[1..], k))
    ensures first == p[0] as real * q[0] as real - k * p[0] as real - m * q[0] as real + mk
  {
    first := DotOfFirst(p, q, m, k);
    OneProduct(p[0] as real - m, q[0] as real - k, p[0] as real, q[0] as real, m, k, mk);
  }

  lemma DotOfFirst(p: seq<Pixel>, q: seq<Pixel>, m: real, k: real) returns (first: real)
    requires |p| == |q| && p != []
    ensures Dot(Deviations(p, m), Deviations(q, k)) == first + Dot(Deviations(p[1..], m), Deviations(q[1..], k))
    ensures first == (p[0] as real - m) * (q[0] as real - k)
  {
    var d, e := Deviations(p, m), Deviations(q, k);
    assert d[1..] == Deviations(p[1..], m) && e[1..] == Deviations(q[1..], k);
    first := d[0] * e[0];
  }

  lemma {:induction false} DotOfDeviations(p: seq<Pixel>, q: seq<Pixel>, m: real, k: real, mk: real)
    requires |p| == |q| && mk == m * k
    ensures Dot(Deviations(p, m), Deviations(q, k))
            == Products(p, q) - Weighted(p, k) - Weighted(q, m) + Repeated(|p|, mk)
  {
    if p != [] {
      DotOfDeviations(p[1..], q[1..], m, k, mk);
      var first := DotOfBoth(p, q, m, k, mk);
    }
  }

  lemma SpreadOfMeans(pq: real, a: real, b: real, n: real, m: real, k: real, mk: real, ab: real)
    requires n * m == a && n * k == b && mk == m * k && ab == a * b
    ensures n * (k * a) == ab && n * (m * b) == ab && n * (mk * n) == ab
  {
    assert n * (k * a) == (n * k) * a;
    assert n * (m * b) == (n * m) * b;
    assert n * (mk * n) == (n * m) * (n * k);
  }

  lemma SpreadIs(pq: real, a: real, b: real, n: real, m: real, k: real, mk: real, dot: real)
    requires n * m == a && n * k == b && mk == m * k && dot == pq - k * a - m * b + mk * n
    ensures n * dot == n * pq - a * b
  {
    var ka, mb := k * a, m * b;
    var mkn := mk * n;
    SpreadOfMeans(pq, a, b, n, m, k, mk, a * b);
    Distributes4(n, pq, ka, mb, mkn);
  }

  lemma Distributes4(n: real, pq: real, ka: real, mb: real, mkn: real)
    ensures n * (pq - ka - mb + mkn) == n * pq - n * ka - n * mb + n * mkn
  {
  }

  lemma DotIs(p: seq<Pixel>, q: seq<Pixel>, n: real, m: real, k: real, mk: real, pq: real, a: real, b: real, dot: real)
    requires |p| == |q| && n == |p| as real && mk == m * k
    requires pq == Products(p, q) && a == Sum(p) && b == Sum(q) && dot == Dot(Deviations(p, m), Deviations(q, k))
    ensures dot == pq - k * a - m * b + mk * n
  {
    DotOfDeviations(p, q, m, k, mk);
    WeightedBySum(p, k, a);
    WeightedBySum(q, m, b);
    RepeatedTimes(|p|, n, mk);
  }

  lemma RepeatedTimes(count: nat, n: real, x: real)
    requires n == count as real
    ensures Repeated(count, x) == x * n
  {
    RepeatedIs(count, x);
  }

  lemma WeightedBySum(p: seq<Pixel>, k: real, a: real)
    requires a == Sum(p)
    ensures Weighted(p, k) == k * a
  {
    WeightedIs(p, k);
  }

  lemma Associates(a: real, b: real, c: real)
    ensures a * b * c == a * (b * c)
  {
  }

  lemma CovarianceTimes(p: seq<Pixel>, q: seq<Pixel>, n: real, m: real, k: real, c: real, dot: real)
    requires |p| == |q| && p != [] && n == |p| as real
    requires c == Covariance(p, q, m, k) && dot == Dot(Deviations(p, m), Deviations(q, k))
    ensures n * c == dot
  {
    var x := Quotient(dot, n);
  }

  lemma SpreadTimes(n: real, m: real, k: real, mk: real, c: real, dot: real, pq: real, a: real, b: real)
    requires n * m == a && n * k == b && mk == m * k && n * c == dot && dot == pq - k * a - m * b + mk * n
    ensures n * n * c == n * pq - a * b
  {
    SpreadIs(pq, a, b, n, m, k, mk, dot);
    Associates(n, n, c);
  }

  /** n * n times the covariance is n times the sum of the products, less the product of the sums. */
  lemma CovarianceOfSums(p: seq<Pixel>, q: seq<Pixel>, n: real, m: real, k: real, c: real, pq: real, a: real, b: real)
    requires |p| == |q| && p != [] && n == |p| as real && n * m == a && n * k == b
    requires pq == Products(p, q) && a == Sum(p) && b == Sum(q) && c == Covariance(p, q, m, k)
    ensures n * n * c == n * pq - a * b
  {
    var dot := Dot(Deviations(p, m), Deviations(q, k));
    var mk := m * k;
    DotIs(p, q, n, m, k, mk, pq, a, b, dot);
    CovarianceTimes(p, q, n, m, k, c, dot);
    SpreadTimes(n, m, k, mk, c, dot, pq, a, b);
  }

  lemma ScaledMeans(a: real, b: real, n: real, m: real, k: real)
    requires n * m == a && n * k == b
    ensures n * n * (m * k) == a * b
  {
    assert n * n * (m * k) == (n * m) * (n * k);
  }

  lemma ScaledSums(nn: real, x: real, y: real, c: real)
    ensures nn * (2.0 * x + c) == 2.0 * (nn * x) + c * nn
    ensures nn * (x + y + c) == nn * x + nn * y + c * nn
  {
  }

  lemma LuminanceOfSums(n: real, a: real, b: real, m: real, k: real, l: real, d: real)
    requires n * m == a && n * k == b
    requires l == 2.0 * (a * b) + 6.5025 * (n * n) && d == a * a + b * b + 6.5025 * (n * n)
    ensures l == n * n * Luminance(m, k) && d == n * n * LuminanceBound(m, k)
  {
    ScaledMeans(a, b, n, m, k);
    ScaledMeans(a, a, n, m, m);
    ScaledMeans(b, b, n, k, k);
    ScaledSums(n * n, m * k, 0.0, C1);
    ScaledSums(n * n, m * m, k * k, C1);
    Associates(2.0, m, k);
  }

  lemma StructureOfSums(n: real, c: real, v: real, w: real, cs: real, vs: real, ws: real, s: real, e: real)
    requires n * n * c == cs && n * n * v == vs && n * n * w == ws
    requires s == 2.0 * cs + 58.5225 * (n * n) && e == vs + ws + 58.5225 * (n * n)
    ensures s == n * n * (2.0 * c + C2) && e == n * n * (v + w + C2)
  {
    ScaledSums(n * n, c, 0.0, C2);
    ScaledSums(n * n, v, w, C2);
  }

  lemma ScaledProduct(nn: real, x: real, y: real, xy: real)
    requires xy == x * y
    ensures (nn * x) * (nn * y) == nn * nn * xy
  {
  }

  lemma ScaledQuotient(l: real, d: real, s: real, e: real, nn: real, sameMean: bool)
    requires nn > 0.0 && d > 0.0 && e > 0.0
    ensures (nn * d) * (nn * e) > 0.0
    ensures Combine(l, d, s, e, sameMean) * ((nn * d) * (nn * e)) == (nn * l) * (nn * s)
  {
    var ls := l * s;
    var de := Product(d, e);
    var x := Quotient(ls, de);
    var n4 := Product(nn, nn);
    var y := Product(n4, de);
    ScaledProduct(nn, d, e, de);
    ScaledProduct(nn, l, s, ls);
    assert x * (n4 * de) == n4 * (de * x);
  }

  lemma QuotientOfScaled(l: real, d: real, s: real, e: real, n: real, sameMean: bool,
                         nl: real, nd: real, ns: real, ne: real)
    requires n > 0.0 && d > 0.0 && e > 0.0
    requires nl == n * n * l && nd == n * n * d && ns == n * n * s && ne == n * n * e
    ensures nd * ne > 0.0 && Combine(l, d, s, e, sameMean) * (nd * ne) == nl * ns
  {
    var nn := Product(n, n);
    ScaledQuotient(l, d, s, e, nn, sameMean);
  }

  /** The covariance and the variances around the means. */
  lemma SpreadsOfSums(p: seq<Pixel>, q: seq<Pixel>, n: real, m: real, k: real, a: real, b: real,
                      pq: real, pp: real, qq: real, cs: real, vs: real, ws: real)
    returns (c: real, v: real, w: real)
    requires |p| == |q| && p != [] && n == |p| as real && n * m == a && n * k == b
    requires a == Sum(p) && b == Sum(q) && pq == Products(p, q) && pp == Products(p, p) && qq == Products(q, q)
    requires cs == n * pq - a * b && vs == n * pp - a * a && ws == n * qq - b * b
    ensures c == Covariance(p, q, m, k) && v == Variance(p, m) && w == Variance(q, k)
    ensures n * n * c == cs && n * n * v == vs && n * n * w == ws
  {
    c, v, w := Covariance(p, q, m, k), Variance(p, m), Variance(q, k);
    CovarianceOfSums(p, q, n, m, k, c, pq, a, b);
    CovarianceOfSums(p, p, n, m, m, v, pp, a, a);
    CovarianceOfSums(q, q, n, k, k, w, qq, b, b);
  }

  lemma MeansOf(p: seq<Pixel>, q: seq<Pixel>, n: real, a: real, b: real) returns (m: real, k: real)
    requires |p| == |q| && p != [] && n == |p| as real && a == Sum(p) && b == Sum(q)
    ensures m == Mean(p) >= 0.0 && k == Mean(q) >= 0.0 && n * m == a && n * k == b
  {
    m, k := Mean(p), Mean(q);
    MeanTimes(p, n);
    MeanTimes(q, n);
  }

  lemma ScoreParts(p: seq<Pixel>, q: seq<Pixel>, m: real, k: real, c: real, v: real, w: real)
    requires |p| == |q| && p != [] && m == Mean(p) && k == Mean(q)
    requires c == Covariance(p, q, m, k) && v == Variance(p, m) && w == Variance(q, k)
    ensures SsimScore(p, q)
            == Combine(Luminance(m, k), LuminanceBound(m, k), 2.0 * c + C2, v + w + C2, m == k)
    ensures v + w + C2 > 0.0
  {
    StructureIsBounded(p, q, m, k);
  }

  /** The score is a quotient of polynomials in the sums of the pixels, of their squares and of their
      products: one pass that adds integers is enough, without means and deviations. */
  lemma ScoreFromSums(p: seq<Pixel>, q: seq<Pixel>, n: real, a: real, b: real, pq: real, pp: real, qq: real,
                      l: real, d: real, s: real, e: real)
    requires |p| == |q| && p != [] && n == |p| as real
    requires a == Sum(p) && b == Sum(q) && pq == Products(p, q) && pp == Products(p, p) && qq == Products(q, q)
    requires l == 2.0 * (a * b) + 6.5025 * (n * n) && d == a * a + b * b + 6.5025 * (n * n)
    requires s == 2.0 * (n * pq - a * b) + 58.5225 * (n * n)
    requires e == (n * pp - a * a) + (n * qq - b * b) + 58.5225 * (n * n)
    ensures d * e > 0.0 && SsimScore(p, q) * (d * e) == l * s
  {
    ScoreFromSpreads(p, q, n, a, b, pq, pp, qq, n * pq - a * b, n * pp - a * a, n * qq - b * b, l, d, s, e);
  }

  lemma ScoreFromSpreads(p: seq<Pixel>, q: seq<Pixel>, n: real, a: real, b: real, pq: real, pp: real, qq: real,
                         cs: real, vs: real, ws: real, l: real, d: real, s: real, e: real)
    requires |p| == |q| && p != [] && n == |p| as real
    requires a == Sum(p) && b == Sum(q) && pq == Products(p, q) && pp == Products(p, p) && qq == Products(q, q)
    requires cs == n * pq - a * b && vs == n * pp - a * a && ws == n * qq - b * b
    requires l == 2.0 * (a * b) + 6.5025 * (n * n) && d == a * a + b * b + 6.5025 * (n * n)
    requires s == 2.0 * cs + 58.5225 * (n * n) && e == vs + ws + 58.5225 * (n * n)
    ensures d * e > 0.0 && SsimScore(p, q) * (d * e) == l * s
  {
    var m, k, c, v, w := PartsOf(p, q, n, a, b, pq, pp, qq, cs, vs, ws);
    ScoreAlgebra(n, a, b, m, k, c, v, w, cs, vs, ws, l, d, s, e, m == k);
  }

  /** The means, the covariance and the variances, and the score that is computed from them. */
  lemma PartsOf(p: seq<Pixel>, q: seq<Pixel>, n: real, a: real, b: real, pq: real, pp: real, qq: real,
                cs: real, vs: real, ws: real) returns (m: real, k: real, c: real, v: real, w: real)
    requires |p| == |q| && p != [] && n == |p| as real
    requires a == Sum(p) && b == Sum(q) && pq == Products(p, q) && pp == Products(p, p) && qq == Products(q, q)
    requires cs == n * pq - a * b && vs == n * pp - a * a && ws == n * qq - b * b
    ensures m >= 0.0 && k >= 0.0 && n * m == a && n * k == b && v + w + C2 > 0.0
    ensures n * n * c == cs && n * n * v == vs && n * n * w == ws
    ensures SsimScore(p, q) == Combine(Luminance(m, k), LuminanceBound(m, k), 2.0 * c + C2, v + w + C2, m == k)
  {
    m, k := MeansOf(p, q, n, a, b);
    c, v, w := SpreadsOfSums(p, q, n, m, k, a, b, pq, pp, qq, cs, vs, ws);
    ScoreParts(p, q, m, k, c, v, w);
  }

  lemma ScoreAlgebra(n: real, a: real, b: real, m: real, k: real, c: real, v: real, w: real,
                     cs: real, vs: real, ws: real, l: real, d: real, s: real, e: real, same: bool)
    requires n > 0.0 && m >= 0.0 && k >= 0.0 && n * m == a && n * k == b && v + w + C2 > 0.0
    requires n * n * c == cs && n * n * v == vs && n * n * w == ws
    requires l == 2.0 * (a * b) + 6.5025 * (n * n) && d == a * a + b * b + 6.5025 * (n * n)
    requires s == 2.0 * cs + 58.5225 * (n * n) && e == vs + ws + 58.5225 * (n * n)
    ensures d * e > 0.0
    ensures Combine(Luminance(m, k), LuminanceBound(m, k), 2.0 * c + C2, v + w + C2, same) * (d * e) == l * s
  {
    LuminanceIsBounded(m, k);
    LuminanceOfSums(n, a, b, m, k, l, d);
    StructureOfSums(n, c, v, w, cs, vs, ws, s, e);
    QuotientOfScaled(Luminance(m, k), LuminanceBound(m, k), 2.0 * c + C2, v + w + C2, n, same, l, d, s, e);
  }

  // ----- fingerprints ----------------------------------------------------------------------

  const THRESHOLD := 0.985

  predicate SsimIsSimilar(p: seq<Pixel>, q: seq<Pixel>) {
    |p| == |q| && |p| != 0 && SsimScore(p, q) >= THRESHOLD
  }

  datatype Fingerprint = Fingerprint(app: Option<string>, method_: string, digest: string)

  predicate Named(app: Option<string>) {
    app.Some? && app.value != ""
  }

  /** `decode` is base64 decoding; None is its failure. */
  predicate IsSameScreen(a: Fingerprint, b: Fingerprint, decode: string -> Option<seq<Pixel>>) {
    if Named(a.app) && Named(b.app) && a.app != b.app then false
    else if a.method_ == "ssim" && b.method_ == "ssim" then
      (match (decode(a.digest), decode(b.digest))
       case (Some(p), Some(q)) => SsimIsSimilar(p, q)
       case _ => a.digest == b.digest)
    else a.method_ == b.method_ && a.digest == b.digest
  }

  /** Screens of two apps that are both known differ; else fingerprints of two methods do, hashes and
      pixels that cannot be decoded are compared as texts, and pixels are the same screen exactly
      if there are equally many, at least one, and their score is at least 0.985. */
  lemma SameScreenIff(a: Fingerprint, b: Fingerprint, decode: string -> Option<seq<Pixel>>)
    ensures a.app.Some? && b.app.Some? && a.app != b.app && a.app.value != "" && b.app.value != "" ==>
              !IsSameScreen(a, b, decode)
    ensures a.app == b.app || a.app == None || b.app == None || Some("") == a.app || Some("") == b.app ==>
      && (a.method_ != b.method_ ==> !IsSameScreen(a, b, decode))
      && (a.method_ == b.method_ && (a.method_ != "ssim" || decode(a.digest) == None || decode(b.digest) == None) ==>
            (IsSameScreen(a, b, decode) <==> a.digest == b.digest))
      && (a.method_ == b.method_ == "ssim" && decode(a.digest).Some? && decode(b.digest).Some? ==>
            var p, q := decode(a.digest).value, decode(b.digest).value;
            IsSameScreen(a, b, decode) <==> |p| == |q| && p != [] && SsimScore(p, q) >= 0.985)
  {
  }

  lemma SameScreenIsSymmetric(a: Fingerprint, b: Fingerprint, decode: string -> Option<seq<Pixel>>)
    ensures IsSameScreen(a, b, decode) == IsSameScreen(b, a, decode)
  {
    if decode(a.digest).Some? && decode(b.digest).Some? {
      ScoreIsSymmetric(decode(a.digest).value, decode(b.digest).value);
    }
  }

  /** A screen is the same as itself, unless its similarity digest holds no pixels. */
  lemma SameScreenIsReflexiveIff(a: Fingerprint, decode: string -> Option<seq<Pixel>>)
    ensures IsSameScreen(a, a, decode) <==> !(a.method_ == "ssim" && decode(a.digest) == Some([]))
  {
    if decode(a.digest).Some? && decode(a.digest).value != [] {
      ScoreBounds(decode(a.digest).value, decode(a.digest).value);
    }
  }
}
