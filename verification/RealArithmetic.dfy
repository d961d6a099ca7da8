/** Small facts about products and quotients of reals. Each product is named by an
    out-parameter, so that what follows is linear in it. */
module RealArithmetic {
  lemma Product(a: real, b: real) returns (p: real)
    ensures p == a * b
    ensures a >= 0.0 && b >= 0.0 ==> p >= 0.0
    ensures a > 0.0 && b > 0.0 ==> p > 0.0
  {
    p := a * b;
  }

  lemma Square(x: real) returns (p: real)
    ensures p == x * x && p >= 0.0
    ensures x != 0.0 ==> p > 0.0
  {
    if x >= 0.0 {
      p := Product(x, x);
    } else {
      p := Product(-x, -x);
    }
  }

  /** Scaling by a positive factor keeps the order of two reals. */
  lemma Scale(k: real, x: real, y: real) returns (kx: real, ky: real)
    requires k > 0.0
    ensures kx == k * x && ky == k * y
    ensures x <= y <==> kx <= ky
    ensures x < y <==> kx < ky
  {
    kx, ky := k * x, k * y;
    if x <= y {
      var p := Product(k, y - x);
      assert p == ky - kx;
    } else {
      var p := Product(k, x - y);
      assert p == kx - ky;
    }
  }

  lemma Quotient(a: real, k: real) returns (x: real)
    requires k != 0.0
    ensures x == a / k && k * x == a
  {
    x := a / k;
  }

  lemma DivIff(a: real, k: real, b: real) returns (x: real, kb: real)
    requires k > 0.0
    ensures x == a / k && kb == k * b
    ensures x <= b <==> a <= kb
    ensures x < b <==> a < kb
  {
    x := Quotient(a, k);
    var kx;
    kx, kb := Scale(k, x, b);
  }

  /** Twice a product lies between the negated and the plain sum of the squares, and reaches
      the plain sum exactly for equal factors. */
  lemma TwoProducts(a: real, b: real) returns (aa: real, bb: real, ab: real)
    ensures aa == a * a && bb == b * b && ab == a * b
    ensures aa >= 0.0 && bb >= 0.0
    ensures -(aa + bb) <= 2.0 * ab <= aa + bb
    ensures 2.0 * ab == aa + bb <==> a == b
  {
    aa := Square(a);
    bb := Square(b);
    ab := a * b;
    var dd := Square(a - b);
    var ss := Square(a + b);
    assert dd == aa + bb - 2.0 * ab;
    assert ss == aa + bb + 2.0 * ab;
  }
}
