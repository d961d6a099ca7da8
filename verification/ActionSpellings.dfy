/** The ways in which models spell points and paths, and that all of them mean the same. */
module ActionSpellings {
  import opened Wrappers
  import opened Text
  import opened ActionPayload
  import opened ActionTypes
  import opened ActionParsing

  // ----- coordinates ----------------------------------------------------------------------

  /** A payload that says nothing of coordinates. */
  predicate Bare(q: Payload) {
    && X !in q && Y !in q && X2 !in q && Y2 !in q
    && Coordinate !in q && StartCoordinate !in q && Coordinate2 !in q && EndCoordinate !in q
  }

  function WithPoint(q: Payload, a: Json, b: Json): Payload {
    q[X := a][Y := b]
  }

  function WithPath(q: Payload, a: Json, b: Json, c: Json, d: Json): Payload {
    q[X := a][Y := b][X2 := c][Y2 := d]
  }

  lemma NumbersAreNoLists(py: Python, a: Json)
    requires IsNumber(a)
    ensures Coerce(py, a) == None && !Missing(a) && a != Null
  {
  }

  /** Nothing is repaired that is spelled out already. */
  lemma PlainPoint(py: Python, p: Payload)
    requires IsNumber(Get(p, X)) && IsNumber(Get(p, Y))
    requires X2 !in p && Y2 !in p && StartCoordinate !in p && Coordinate2 !in p && EndCoordinate !in p
    requires !HasItems(py, Get(p, Coordinate), 2)
    ensures Normalised(py, p) == p
  {
    NumbersAreNoLists(py, Get(p, X));
    NumbersAreNoLists(py, Get(p, Y));
    assert NamedCoordinates(py, p) == p;
    assert CompactPath(py, p) == p;
    assert Pair(py, p, X, Y) == p;
    assert Pair(py, p, X2, Y2) == p;
  }

  lemma PlainPath(py: Python, p: Payload)
    requires IsNumber(Get(p, X)) && IsNumber(Get(p, Y)) && IsNumber(Get(p, X2)) && IsNumber(Get(p, Y2))
    ensures Pair(py, Pair(py, CompactPath(py, p), X, Y), X2, Y2) == p && EndpointOnly(py, p) == p
  {
    NumbersAreNoLists(py, Get(p, X));
    NumbersAreNoLists(py, Get(p, Y));
    NumbersAreNoLists(py, Get(p, X2));
    NumbersAreNoLists(py, Get(p, Y2));
    assert CompactPath(py, p) == p;
    assert Pair(py, p, X, Y) == p;
    assert Pair(py, p, X2, Y2) == p;
  }

  /** A point as a pair under x, under y, or under "coordinate", is repaired to the point under
      x and y. */
  lemma PointSpellings(py: Python, q: Payload, a: Json, b: Json)
    requires Bare(q) && IsNumber(a) && IsNumber(b)
    ensures Normalised(py, WithPoint(q, a, b)) == WithPoint(q, a, b)
    ensures Normalised(py, q[X := List([a, b])]) == WithPoint(q, a, b)
    ensures !SameValue(a, b) ==> Normalised(py, q[Y := List([a, b])]) == WithPoint(q, a, b)
    ensures Normalised(py, q[Coordinate := List([a, b])]) == WithPoint(q[Coordinate := List([a, b])], a, b)
  {
    PlainPoint(py, WithPoint(q, a, b));
    PairUnderX(py, q, a, b);
    if !SameValue(a, b) {
      PairUnderY(py, q, a, b);
    }
    PairUnderCoordinate(py, q, a, b);
  }

  lemma PairUnderX(py: Python, q: Payload, a: Json, b: Json)
    requires Bare(q) && IsNumber(a) && IsNumber(b)
    ensures Normalised(py, q[X := List([a, b])]) == WithPoint(q, a, b)
  {
    var p := q[X := List([a, b])];
    assert NamedCoordinates(py, p) == p;
    assert CompactPath(py, p) == p;
    assert Pair(py, p, X, Y) == WithPoint(q, a, b);
    assert Pair(py, WithPoint(q, a, b), X2, Y2) == WithPoint(q, a, b);
  }

  lemma PairUnderY(py: Python, q: Payload, a: Json, b: Json)
    requires Bare(q) && IsNumber(a) && IsNumber(b) && !SameValue(a, b)
    ensures Normalised(py, q[Y := List([a, b])]) == WithPoint(q, a, b)
  {
    var p := q[Y := List([a, b])];
    assert NamedCoordinates(py, p) == p;
    assert CompactPath(py, p) == p;
    assert Pair(py, p, X, Y) == WithPoint(q, a, b);
    assert Pair(py, WithPoint(q, a, b), X2, Y2) == WithPoint(q, a, b);
  }

  lemma PairUnderCoordinate(py: Python, q: Payload, a: Json, b: Json)
    requires Bare(q) && IsNumber(a) && IsNumber(b)
    ensures Normalised(py, q[Coordinate := List([a, b])]) == WithPoint(q[Coordinate := List([a, b])], a, b)
  {
    var p := q[Coordinate := List([a, b])];
    var r := WithPoint(p, a, b);
    NumbersAreNoLists(py, a);
    NumbersAreNoLists(py, b);
    assert NamedPair(py, p, Coordinate, X, Y) == r;
    assert NamedCoordinates(py, p) == r;
    assert CompactPath(py, r) == r;
    assert Pair(py, r, X, Y) == r;
    assert Pair(py, r, X2, Y2) == r;
  }

  /** A path as four numbers under x or under "coordinate" is repaired to the path under the four
      names, and such a path is left alone. */
  lemma PathSpellings(py: Python, q: Payload, a: Json, b: Json, c: Json, d: Json)
    requires Bare(q) && IsNumber(a) && IsNumber(b) && IsNumber(c) && IsNumber(d)
    ensures Normalised(py, WithPath(q, a, b, c, d)) == WithPath(q, a, b, c, d)
    ensures Normalised(py, q[X := List([a, b, c, d])]) == WithPath(q, a, b, c, d)
    ensures var p := q[Coordinate := List([a, b, c, d])]; Normalised(py, p) == WithPath(p, a, b, c, d)
  {
    var plain := WithPath(q, a, b, c, d);
    assert NamedCoordinates(py, plain) == plain;
    PlainPath(py, plain);
    PathUnderX(py, q, a, b, c, d);
    PathUnderCoordinate(py, q, a, b, c, d);
  }

  lemma PathUnderX(py: Python, q: Payload, a: Json, b: Json, c: Json, d: Json)
    requires Bare(q) && IsNumber(a) && IsNumber(b) && IsNumber(c) && IsNumber(d)
    ensures Normalised(py, q[X := List([a, b, c, d])]) == WithPath(q, a, b, c, d)
  {
    var p, r := q[X := List([a, b, c, d])], WithPath(q, a, b, c, d);
    assert NamedCoordinates(py, p) == p;
    assert CompactPath(py, p) == r;
    PlainPath(py, r);
    NumbersAreNoLists(py, a);
    assert CompactPath(py, r) == r;
  }

  lemma PathUnderCoordinate(py: Python, q: Payload, a: Json, b: Json, c: Json, d: Json)
    requires Bare(q) && IsNumber(a) && IsNumber(b) && IsNumber(c) && IsNumber(d)
    ensures var p := q[Coordinate := List([a, b, c, d])]; Normalised(py, p) == WithPath(p, a, b, c, d)
  {
    var p := q[Coordinate := List([a, b, c, d])];
    assert NamedPair(py, p, Coordinate, X, Y) == p;
    assert NamedCoordinates(py, p) == WithPath(p, a, b, c, d);
    PlainPath(py, WithPath(p, a, b, c, d));
  }

  /** A list, or a text with a JSON list in brackets. */
  lemma ListIff(py: Python, j: Json, items: seq<Json>)
    ensures Coerce(py, j) == Some(items) <==>
              || j == List(items)
              || (j.Str? && Strip(j.s) != "" && Strip(j.s)[0] == '[' && Strip(j.s)[|Strip(j.s)| - 1] == ']'
                  && py.loads(Strip(j.s)) == Some(List(items)))
  {
  }

  /** Numbers are the same if their values are, and truth values are 0 and 1. */
  lemma NumbersByValue(n: int, m: int, x: real, b: bool, s: string, t: string)
    ensures SameValue(Int(n), Int(m)) <==> n == m
    ensures SameValue(Int(n), Float(x)) <==> n as real == x
    ensures SameValue(Bool(b), Int(n)) <==> n == if b then 1 else 0
    ensures SameValue(Str(s), Str(t)) <==> s == t
  {
  }

  lemma PairIsDone(py: Python, q: Payload, p: Payload, a: Json, b: Json)
    requires Bare(q) && IsNumber(a) && IsNumber(b) && NamedCoordinates(py, p) == p && CompactPath(py, p) == p
    requires Pair(py, p, X, Y) == WithPoint(q, a, b)
    ensures Normalised(py, p) == WithPoint(q, a, b)
  {
    assert Pair(py, WithPoint(q, a, b), X2, Y2) == WithPoint(q, a, b);
  }

  /** Each of x and y as a list of one; y as the same number twice; and x as a pair where y is given,
      which wins. Where x is given, y as a pair of two numbers is left as it is. */
  lemma SingleSpellings(py: Python, q: Payload, a: Json, b: Json, c: Json)
    requires Bare(q) && IsNumber(a) && IsNumber(b) && IsNumber(c)
    ensures Normalised(py, q[X := List([a])][Y := List([b])]) == WithPoint(q, a, b)
    ensures SameValue(b, c) ==> Normalised(py, q[X := a][Y := List([b, c])]) == WithPoint(q, a, b)
    ensures !SameValue(b, c) ==> Normalised(py, q[X := a][Y := List([b, c])]) == q[X := a][Y := List([b, c])]
    ensures Normalised(py, q[X := List([a, b])][Y := c]) == WithPoint(q, a, c)
  {
    BothSingle(py, q, a, b);
    if SameValue(b, c) {
      SameTwice(py, q, a, b, c);
    } else {
      PairIsLeft(py, q, a, b, c);
    }
    PairAndY(py, q, a, b, c);
  }

  lemma BothSingle(py: Python, q: Payload, a: Json, b: Json)
    requires Bare(q) && IsNumber(a) && IsNumber(b)
    ensures Normalised(py, q[X := List([a])][Y := List([b])]) == WithPoint(q, a, b)
  {
    var p := q[X := List([a])][Y := List([b])];
    assert Pair(py, p, X, Y) == WithPoint(q, a, b);
    PairIsDone(py, q, p, a, b);
  }

  lemma SameTwice(py: Python, q: Payload, a: Json, b: Json, c: Json)
    requires Bare(q) && IsNumber(a) && IsNumber(b) && IsNumber(c) && SameValue(b, c)
    ensures Normalised(py, q[X := a][Y := List([b, c])]) == WithPoint(q, a, b)
  {
    var p := q[X := a][Y := List([b, c])];
    NumbersAreNoLists(py, a);
    assert Pair(py, p, X, Y) == WithPoint(q, a, b);
    PairIsDone(py, q, p, a, b);
  }

  lemma PairIsLeft(py: Python, q: Payload, a: Json, b: Json, c: Json)
    requires Bare(q) && IsNumber(a) && IsNumber(b) && IsNumber(c) && !SameValue(b, c)
    ensures Normalised(py, q[X := a][Y := List([b, c])]) == q[X := a][Y := List([b, c])]
  {
    var p := q[X := a][Y := List([b, c])];
    NumbersAreNoLists(py, a);
    assert NamedCoordinates(py, p) == p;
    assert CompactPath(py, p) == p;
    assert Pair(py, p, X, Y) == p;
    assert Pair(py, p, X2, Y2) == p;
  }

  lemma PairAndY(py: Python, q: Payload, a: Json, b: Json, c: Json)
    requires Bare(q) && IsNumber(a) && IsNumber(b) && IsNumber(c)
    ensures Normalised(py, q[X := List([a, b])][Y := c]) == WithPoint(q, a, c)
  {
    var p := q[X := List([a, b])][Y := c];
    NumbersAreNoLists(py, c);
    assert Pair(py, p, X, Y) == WithPoint(q, a, c);
    PairIsDone(py, q, p, a, c);
  }

  /** What is given under x and y is not overwritten by a pair or a path under another name. */
  lemma PlainWins(py: Python, q: Payload, a: Json, b: Json, other: seq<Json>)
    requires Bare(q) && IsNumber(a) && IsNumber(b)
    ensures Normalised(py, WithPoint(q, a, b)[Coordinate := List(other)]) == WithPoint(q, a, b)[Coordinate := List(other)]
    ensures Normalised(py, WithPoint(q, a, b)[StartCoordinate := List(other)])
            == WithPoint(q, a, b)[StartCoordinate := List(other)]
  {
    PlainOverCoordinate(py, q, a, b, other);
    PlainOverStart(py, q, a, b, other);
  }

  lemma PlainOverCoordinate(py: Python, q: Payload, a: Json, b: Json, other: seq<Json>)
    requires Bare(q) && IsNumber(a) && IsNumber(b)
    ensures Normalised(py, WithPoint(q, a, b)[Coordinate := List(other)]) == WithPoint(q, a, b)[Coordinate := List(other)]
  {
    var p := WithPoint(q, a, b)[Coordinate := List(other)];
    NumbersAreNoLists(py, a);
    NumbersAreNoLists(py, b);
    assert NamedPair(py, p, Coordinate, X, Y) == p;
    assert NamedCoordinates(py, p) == p;
    PointIsDone(py, p, a, b);
  }

  lemma PlainOverStart(py: Python, q: Payload, a: Json, b: Json, other: seq<Json>)
    requires Bare(q) && IsNumber(a) && IsNumber(b)
    ensures Normalised(py, WithPoint(q, a, b)[StartCoordinate := List(other)])
            == WithPoint(q, a, b)[StartCoordinate := List(other)]
  {
    var p := WithPoint(q, a, b)[StartCoordinate := List(other)];
    NumbersAreNoLists(py, a);
    NumbersAreNoLists(py, b);
    assert NamedPair(py, p, StartCoordinate, X, Y) == p;
    assert NamedCoordinates(py, p) == p;
    PointIsDone(py, p, a, b);
  }

  /** After the named coordinates nothing is left to do for a point. */
  lemma PointIsDone(py: Python, p: Payload, a: Json, b: Json)
    requires IsNumber(a) && IsNumber(b) && Get(p, X) == a && Get(p, Y) == b && X2 !in p && Y2 !in p
    ensures Pair(py, Pair(py, CompactPath(py, p), X, Y), X2, Y2) == p && EndpointOnly(py, p) == p
  {
    NumbersAreNoLists(py, a);
    NumbersAreNoLists(py, b);
    assert CompactPath(py, p) == p;
    assert Pair(py, p, X, Y) == p;
    assert Pair(py, p, X2, Y2) == p;
  }

  /** A path in one list is not taken where any other coordinate is given. */
  lemma PathYields(py: Python, p: Payload)
    ensures Get(p, X) != Null || Get(p, Y) != Null || Get(p, X2) != Null || Get(p, Y2) != Null ==>
              CompactCoordinate(py, p) == p
    ensures Get(p, Y) != Null || Get(p, X2) != Null || Get(p, Y2) != Null ==> CompactPath(py, p) == p
  {
  }

  /** A path as its two ends: under the names for start and end, or under the two numbered names, or
      plainly with its end as one pair. */
  lemma EndsSpellings(py: Python, q: Payload, a: Json, b: Json, c: Json, d: Json)
    requires Bare(q) && IsNumber(a) && IsNumber(b) && IsNumber(c) && IsNumber(d)
    ensures var p := q[StartCoordinate := List([a, b])][EndCoordinate := List([c, d])];
            Normalised(py, p) == WithPath(p, a, b, c, d)
    ensures var p := q[Coordinate := List([a, b])][Coordinate2 := List([c, d])];
            Normalised(py, p) == WithPath(p, a, b, c, d)
    ensures Normalised(py, WithPoint(q, a, b)[X2 := List([c, d])]) == WithPath(q, a, b, c, d)
  {
    StartAndEnd(py, q, a, b, c, d);
    NumberedEnds(py, q, a, b, c, d);
    EndAsPair(py, q, a, b, c, d);
  }

  lemma StartAndEnd(py: Python, q: Payload, a: Json, b: Json, c: Json, d: Json)
    requires Bare(q) && IsNumber(a) && IsNumber(b) && IsNumber(c) && IsNumber(d)
    ensures var p := q[StartCoordinate := List([a, b])][EndCoordinate := List([c, d])];
            Normalised(py, p) == WithPath(p, a, b, c, d)
  {
    var p := q[StartCoordinate := List([a, b])][EndCoordinate := List([c, d])];
    assert NamedPair(py, p, StartCoordinate, X, Y) == WithPoint(p, a, b);
    assert NamedPair(py, WithPoint(p, a, b), EndCoordinate, X2, Y2) == WithPath(p, a, b, c, d);
    assert NamedCoordinates(py, p) == WithPath(p, a, b, c, d);
    PlainPath(py, WithPath(p, a, b, c, d));
  }

  lemma NumberedEnds(py: Python, q: Payload, a: Json, b: Json, c: Json, d: Json)
    requires Bare(q) && IsNumber(a) && IsNumber(b) && IsNumber(c) && IsNumber(d)
    ensures var p := q[Coordinate := List([a, b])][Coordinate2 := List([c, d])];
            Normalised(py, p) == WithPath(p, a, b, c, d)
  {
    var p := q[Coordinate := List([a, b])][Coordinate2 := List([c, d])];
    assert NamedPair(py, p, Coordinate, X, Y) == WithPoint(p, a, b);
    assert NamedPair(py, WithPoint(p, a, b), Coordinate2, X2, Y2) == WithPath(p, a, b, c, d);
    assert NamedCoordinates(py, p) == WithPath(p, a, b, c, d);
    PlainPath(py, WithPath(p, a, b, c, d));
  }

  lemma EndAsPair(py: Python, q: Payload, a: Json, b: Json, c: Json, d: Json)
    requires Bare(q) && IsNumber(a) && IsNumber(b) && IsNumber(c) && IsNumber(d)
    ensures Normalised(py, WithPoint(q, a, b)[X2 := List([c, d])]) == WithPath(q, a, b, c, d)
  {
    var p := WithPoint(q, a, b)[X2 := List([c, d])];
    NumbersAreNoLists(py, a);
    NumbersAreNoLists(py, b);
    assert NamedCoordinates(py, p) == p;
    assert CompactPath(py, p) == p;
    assert Pair(py, p, X, Y) == p;
    assert Pair(py, p, X2, Y2) == WithPath(q, a, b, c, d);
    PlainPath(py, WithPath(q, a, b, c, d));
  }

  /** The start invented for an end is on the grid, never the end itself, and 250 units away
      from any end on the grid. */
  lemma StartIsApart(end: real)
    ensures 0.0 <= StartFor(end) <= 999.0 && StartFor(end) != end
    ensures 0.0 <= end <= 999.0 ==> StartFor(end) == end - 250.0 || StartFor(end) == end + 250.0
  {
  }

  lemma NumbersAreRead(py: Python, a: Json)
    requires IsNumber(a)
    ensures FloatOf(py, a) == Some(NumberOf(a))
  {
  }

  lemma EndIsPlain(py: Python, q: Payload, p: Payload, c: Json, d: Json)
    requires Bare(q) && IsNumber(c) && IsNumber(d) && p == q[X2 := c][Y2 := d]
    ensures Pair(py, Pair(py, CompactPath(py, NamedCoordinates(py, p)), X, Y), X2, Y2) == p
  {
    NumbersAreNoLists(py, c);
    NumbersAreNoLists(py, d);
    assert NamedCoordinates(py, p) == p;
    assert CompactPath(py, p) == p;
    assert Pair(py, p, X, Y) == p;
    assert Pair(py, p, X2, Y2) == p;
  }

  lemma StartIsAdded(py: Python, p: Payload, c: Json, d: Json)
    requires X !in p && Y !in p && Get(p, X2) == c && Get(p, Y2) == d && IsNumber(c) && IsNumber(d)
    requires KindOfRaw(py, RawType(p)) == Some(Swipe) || KindOfRaw(py, RawType(p)) == Some(Drag)
    ensures EndpointOnly(py, p) == p[X := Float(NumberOf(c))][Y := Float(StartFor(NumberOf(d)))]
  {
    NumbersAreRead(py, c);
    NumbersAreRead(py, d);
    NumbersAreNoLists(py, c);
    NumbersAreNoLists(py, d);
  }

  /** A swipe or drag given by its end alone gets a start apart from it, straight above or
      below. */
  lemma EndpointSpelling(py: Python, q: Payload, c: Json, d: Json)
    requires Bare(q) && IsNumber(c) && IsNumber(d)
    requires KindOfRaw(py, RawType(q)) == Some(Swipe) || KindOfRaw(py, RawType(q)) == Some(Drag)
    ensures var p, start := q[X2 := c][Y2 := d], StartFor(NumberOf(d));
            && Normalised(py, p) == p[X := Float(NumberOf(c))][Y := Float(start)]
            && start != NumberOf(d)
  {
    var p := q[X2 := c][Y2 := d];
    assert RawType(p) == RawType(q);
    StartIsApart(NumberOf(d));
    EndIsPlain(py, q, p, c, d);
    StartIsAdded(py, p, c, d);
  }

  /** Of a start given by half, what is given is kept, and only the other half is filled in. */
  lemma HalfStart(py: Python, q: Payload, a: Json, c: Json, d: Json)
    requires Bare(q) && IsNumber(a) && IsNumber(c) && IsNumber(d)
    requires KindOfRaw(py, RawType(q)) == Some(Swipe) || KindOfRaw(py, RawType(q)) == Some(Drag)
    ensures var p := q[X := a][X2 := c][Y2 := d]; Normalised(py, p) == p[Y := Float(StartFor(NumberOf(d)))]
    ensures var p := q[Y := a][X2 := c][Y2 := d]; Normalised(py, p) == p[X := Float(NumberOf(c))]
  {
    OnlyX(py, q, a, c, d);
    OnlyY(py, q, a, c, d);
  }

  lemma OnlyX(py: Python, q: Payload, a: Json, c: Json, d: Json)
    requires Bare(q) && IsNumber(a) && IsNumber(c) && IsNumber(d)
    requires KindOfRaw(py, RawType(q)) == Some(Swipe) || KindOfRaw(py, RawType(q)) == Some(Drag)
    ensures var p := q[X := a][X2 := c][Y2 := d]; Normalised(py, p) == p[Y := Float(StartFor(NumberOf(d)))]
  {
    var p := q[X := a][X2 := c][Y2 := d];
    assert RawType(p) == RawType(q);
    HalfIsPlain(py, p, c, d);
    HalfIsAdded(py, p, c, d);
  }

  lemma OnlyY(py: Python, q: Payload, a: Json, c: Json, d: Json)
    requires Bare(q) && IsNumber(a) && IsNumber(c) && IsNumber(d)
    requires KindOfRaw(py, RawType(q)) == Some(Swipe) || KindOfRaw(py, RawType(q)) == Some(Drag)
    ensures var p := q[Y := a][X2 := c][Y2 := d]; Normalised(py, p) == p[X := Float(NumberOf(c))]
  {
    var p := q[Y := a][X2 := c][Y2 := d];
    assert RawType(p) == RawType(q);
    HalfIsPlain(py, p, c, d);
    HalfIsAdded(py, p, c, d);
  }

  lemma HalfIsAdded(py: Python, p: Payload, c: Json, d: Json)
    requires Get(p, X2) == c && Get(p, Y2) == d && IsNumber(c) && IsNumber(d)
    requires KindOfRaw(py, RawType(p)) == Some(Swipe) || KindOfRaw(py, RawType(p)) == Some(Drag)
    ensures Get(p, X) != Null && Get(p, Y) == Null ==> EndpointOnly(py, p) == p[Y := Float(StartFor(NumberOf(d)))]
    ensures Get(p, X) == Null && Get(p, Y) != Null ==> EndpointOnly(py, p) == p[X := Float(NumberOf(c))]
  {
    NumbersAreRead(py, c);
    NumbersAreRead(py, d);
  }

  lemma HalfIsPlain(py: Python, p: Payload, c: Json, d: Json)
    requires Get(p, X2) == c && Get(p, Y2) == d && IsNumber(c) && IsNumber(d)
    requires (X !in p || IsNumber(p[X])) && (Y !in p || IsNumber(p[Y]))
    requires Coordinate !in p && StartCoordinate !in p && Coordinate2 !in p && EndCoordinate !in p
    ensures Pair(py, Pair(py, CompactPath(py, NamedCoordinates(py, p)), X, Y), X2, Y2) == p
  {
    NumbersAreNoLists(py, c);
    NumbersAreNoLists(py, d);
    assert NamedCoordinates(py, p) == p;
    assert CompactPath(py, p) == p;
    assert Pair(py, p, X, Y) == p;
    assert Pair(py, p, X2, Y2) == p;
  }

  // ----- lists of points ---------------------------------------------------------------------

  function PairJson(point: Point): Json { List([Float(point.0), Float(point.1)]) }

  function ObjectJson(point: Point): Json { Object([("x", Float(point.0)), ("y", Float(point.1))]) }

  function AsPairs(points: seq<Point>): (items: seq<Json>)
    ensures |items| == |points| && forall i: nat | i < |items| :: items[i].List?
  {
    if points == [] then [] else AsPairs(points[..|points| - 1]) + [PairJson(points[|points| - 1])]
  }

  function AsObjects(points: seq<Point>): (items: seq<Json>)
    ensures |items| == |points| && forall i: nat | i < |items| :: items[i].Object?
  {
    if points == [] then [] else AsObjects(points[..|points| - 1]) + [ObjectJson(points[|points| - 1])]
  }

  function AsNumbers(points: seq<Point>): (items: seq<Json>)
    ensures |items| == 2 * |points|
    ensures forall i: nat | i < |items| :: items[i].Float?
  {
    if points == [] then [] else
      var last := points[|points| - 1];
      AsNumbers(points[..|points| - 1]) + [Float(last.0), Float(last.1)]
  }

  lemma GatherMore(py: Python, items: seq<Json>, item: Json)
    requires Gather(py, items).Ok?
    ensures Gather(py, items + [item]) == GatherOne(py, Gather(py, items).value, item)
  {
    assert (items + [item])[..|items|] == items;
  }

  lemma PairIsRead(py: Python, sofar: Gathered, point: Point)
    ensures GatherOne(py, sofar, PairJson(point)) == Ok(sofar.(points := sofar.points + [point]))
  {
    var items := PairJson(point).items;
    assert PairPoint(py, items) == Ok(point);
  }

  lemma {:induction false} PairsAreGathered(py: Python, points: seq<Point>)
    ensures Gather(py, AsPairs(points)) == Ok(Gathered(points, []))
  {
    if points != [] {
      var front, last := points[..|points| - 1], points[|points| - 1];
      PairsAreGathered(py, front);
      OneMorePair(py, AsPairs(front), front, last);
      assert points == front + [last];
    }
  }

  lemma OneMorePair(py: Python, items: seq<Json>, front: seq<Point>, last: Point)
    requires Gather(py, items) == Ok(Gathered(front, []))
    ensures Gather(py, items + [PairJson(last)]) == Ok(Gathered(front + [last], []))
  {
    GatherMore(py, items, PairJson(last));
    PairIsRead(py, Gathered(front, []), last);
  }

  lemma ObjectIsRead(py: Python, point: Point)
    ensures ObjectPoint(py, ObjectJson(point).fields) == Ok(point)
  {
    var fields := ObjectJson(point).fields;
    assert fields[1..][0].0 == "y" && fields[0].0 == "x";
    assert Lookup(fields, "y") == Lookup(fields[1..], "y");
  }

  lemma {:induction false} ObjectsAreGathered(py: Python, points: seq<Point>)
    ensures Gather(py, AsObjects(points)) == Ok(Gathered(points, []))
  {
    if points != [] {
      var front, last := points[..|points| - 1], points[|points| - 1];
      ObjectsAreGathered(py, front);
      OneMoreObject(py, AsObjects(front), front, last);
      assert points == front + [last];
    }
  }

  lemma OneMoreObject(py: Python, items: seq<Json>, front: seq<Point>, last: Point)
    requires Gather(py, items) == Ok(Gathered(front, []))
    ensures Gather(py, items + [ObjectJson(last)]) == Ok(Gathered(front + [last], []))
  {
    ObjectIsRead(py, last);
    GatherMore(py, items, ObjectJson(last));
  }

  lemma {:induction false} NumbersAreGathered(py: Python, items: seq<Json>)
    requires forall i: nat | i < |items| :: items[i].Float?
    ensures Gather(py, items) == Ok(Gathered([], items))
  {
    if items != [] {
      NumbersAreGathered(py, items[..|items| - 1]);
      assert items == items[..|items| - 1] + [items[|items| - 1]];
    }
  }

  lemma {:induction false} NumbersArePaired(py: Python, points: seq<Point>)
    ensures ScalarPoints(py, AsNumbers(points)) == Ok(points)
  {
    if points != [] {
      var front, last := points[..|points| - 1], points[|points| - 1];
      var numbers := AsNumbers(points);
      NumbersArePaired(py, front);
      assert numbers[..|numbers| - 2] == AsNumbers(front);
      assert points == front + [last];
    }
  }

  /** Pairs, objects with x and y, and one flat list of numbers are read as the same points. */
  lemma ListSpellings(py: Python, points: seq<Point>)
    ensures PointsOf(py, List(AsPairs(points))) == Ok(points)
    ensures PointsOf(py, List(AsObjects(points))) == Ok(points)
    ensures PointsOf(py, List(AsNumbers(points))) == Ok(points)
  {
    PairsAreGathered(py, points);
    GatheredAreRead(py, AsPairs(points), points);
    ObjectsAreGathered(py, points);
    GatheredAreRead(py, AsObjects(points), points);
    FlatIsRead(py, points);
  }

  lemma GatheredAreRead(py: Python, items: seq<Json>, points: seq<Point>)
    requires Gather(py, items) == Ok(Gathered(points, []))
    requires forall i: nat | i < |items| :: items[i].List? || items[i].Object?
    ensures PointsOf(py, List(items)) == Ok(points)
  {
  }

  lemma FlatIsRead(py: Python, points: seq<Point>)
    ensures PointsOf(py, List(AsNumbers(points))) == Ok(points)
  {
    if |points| == 1 {
      assert points == [points[0]];
      OnePairIsRead(py, points[0]);
    } else {
      NumbersAreGathered(py, AsNumbers(points));
      NumbersArePaired(py, points);
      ManyAreRead(py, AsNumbers(points), points);
    }
    ListsAreLists(py, AsNumbers(points));
  }

  lemma ListsAreLists(py: Python, items: seq<Json>)
    ensures PointsOf(py, List(items)) == PointsOfList(py, items)
  {
  }

  lemma ManyAreRead(py: Python, items: seq<Json>, points: seq<Point>)
    requires |items| != 2 && |items| == 2 * |points|
    requires Gather(py, items) == Ok(Gathered([], items)) && ScalarPoints(py, items) == Ok(points)
    ensures PointsOfList(py, items) == Ok(points)
  {
    assert PointsOfGathered(py, Gathered([], items)) == Ok(points);
  }

  lemma OnePairIsRead(py: Python, point: Point)
    ensures PointsOfList(py, AsNumbers([point])) == Ok([point])
  {
    assert [point][..0] == [] && AsNumbers([]) == [];
    var items := [Float(point.0), Float(point.1)];
    assert AsNumbers([point]) == items;
    assert PointOf(py, items[0], items[1]) == Ok(point);
  }
}
