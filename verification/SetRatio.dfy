/** The Jaccard quotient of two sets: the size of their intersection over that of their union. */
module SetRatio {
  import opened RealArithmetic

  function Ratio(a: set<string>, b: set<string>): real
    requires a != {}
  {
    UnionIsLarger(a, b);
    |a * b| as real / |a + b| as real
  }

  lemma UnionIsLarger(a: set<string>, b: set<string>)
    ensures a != {} ==> |a + b| > 0
    ensures |a * b| <= |a + b|
  {
    if a != {} {
      var x :| x in a;
      assert x in a + b;
    }
    var inside, all := a * b, a + b;
    assert all == inside + (all - inside);
  }

  lemma RatioBounds(a: set<string>, b: set<string>)
    requires a != {} && b != {}
    ensures 0.0 <= Ratio(a, b) <= 1.0 && Ratio(a, b) == Ratio(b, a)
  {
    assert a * b == b * a && a + b == b + a;
    UnionIsLarger(a, b);
    var x, y := DivIff(|a * b| as real, |a + b| as real, 1.0);
    x := Quotient(|a * b| as real, |a + b| as real);
    var z, t := Scale(|a + b| as real, 0.0, x);
  }

  lemma RatioOfSame(a: set<string>)
    requires a != {}
    ensures Ratio(a, a) == 1.0
  {
    assert a * a == a && a + a == a;
    UnionIsLarger(a, a);
    var x := Quotient(|a| as real, |a| as real);
    var y, z := Scale(|a| as real, 1.0, x);
  }
}
