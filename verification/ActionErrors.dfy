/** The one way in which parsing an action raises something else than an ActionError: points with
    values that are not numeric. */
module ActionErrors {
  import opened Wrappers
  import opened Text
  import opened ActionTypes
  import opened ActionPayload
  import opened ActionParsing
  import opened ActionSpellings
  import opened ActionTransport

  // ----- when points escape -----------------------------------------------------------------

  predicate Numeric(py: Python, j: Json) {
    FloatOf(py, j).Some?
  }

  predicate HasXY(fields: seq<(string, Json)>) {
    Lookup(fields, "x").Some? && Lookup(fields, "y").Some?
  }

  predicate BadObject(py: Python, fields: seq<(string, Json)>) {
    HasXY(fields) && !(Numeric(py, Lookup(fields, "x").value) && Numeric(py, Lookup(fields, "y").value))
  }

  predicate BadPair(py: Python, items: seq<Json>) {
    |items| == 2 && !(Numeric(py, items[0]) && Numeric(py, items[1]))
  }

  /** A complete point with a value that is not numeric. */
  predicate BadPoint(py: Python, item: Json) {
    match item
    case Object(fields) => BadObject(py, fields)
    case List(items) => BadPair(py, items)
    case _ => false
  }

  /** An object or a list that is no complete point. */
  predicate Malformed(item: Json) {
    match item
    case Object(fields) => !HasXY(fields)
    case List(items) => |items| != 2
    case _ => false
  }

  predicate Nested(item: Json) {
    item.List? || item.Object?
  }

  /** Some item is a bad point, and nothing before it is bad or malformed. */
  ghost predicate BadPointFirst(py: Python, items: seq<Json>) {
    exists k: nat :: k < |items| && BadPoint(py, items[k]) && SoundUpTo(py, items, k)
  }

  ghost predicate SoundUpTo(py: Python, items: seq<Json>, k: nat) {
    forall j: nat | j < k && j < |items| :: !BadPoint(py, items[j]) && !Malformed(items[j])
  }

  /** A flat list of values, of which some is not numeric. */
  ghost predicate BadScalars(py: Python, items: seq<Json>) {
    |items| % 2 == 0 && NoneNested(items) && SomeNotNumeric(py, items)
  }

  ghost predicate NoneNested(items: seq<Json>) {
    forall i: nat | i < |items| :: !Nested(items[i])
  }

  ghost predicate SomeNotNumeric(py: Python, items: seq<Json>) {
    exists i: nat :: i < |items| && !Numeric(py, items[i])
  }

  ghost predicate BadList(py: Python, items: seq<Json>) {
    if |items| == 2 && !Nested(items[0]) then BadPair(py, items) else BadPointFirst(py, items) || BadScalars(py, items)
  }

  ghost predicate BadPoints(py: Python, raw: Json) {
    match raw
    case Object(fields) => BadObject(py, fields)
    case List(items) => BadList(py, items)
    case Str(s) => BadText(py, Strip(s))
    case _ => false
  }

  /** A text that is a JSON list or object, and bad as such. */
  ghost predicate BadText(py: Python, t: string) {
    t != [] && (t[0] == '[' || t[0] == '{') &&
    match py.loads(t)
    case Some(List(items)) => BadList(py, items)
    case Some(Object(fields)) => BadObject(py, fields)
    case _ => false
  }

  lemma PointEscapes(py: Python, a: Json, b: Json)
    ensures PointOf(py, a, b) == Escaped <==> !(Numeric(py, a) && Numeric(py, b))
    ensures PointOf(py, a, b) != Refused
  {
  }

  lemma ObjectEscapes(py: Python, fields: seq<(string, Json)>)
    ensures ObjectPoint(py, fields) == Escaped <==> BadObject(py, fields)
    ensures ObjectPoint(py, fields) == Refused <==> !HasXY(fields)
  {
    if HasXY(fields) {
      PointEscapes(py, Lookup(fields, "x").value, Lookup(fields, "y").value);
    }
  }

  lemma OneEscapes(py: Python, sofar: Gathered, item: Json)
    ensures GatherOne(py, sofar, item) == Escaped <==> BadPoint(py, item)
    ensures GatherOne(py, sofar, item) == Refused <==> Malformed(item)
  {
    match item
    case Object(fields) => ObjectEscapes(py, fields);
    case List(items) => if |items| == 2 { PointEscapes(py, items[0], items[1]); }
    case _ =>
  }

  /** Gathering fails in the way of the first item that is bad or malformed. */
  lemma {:induction false} GatherEscapesIff(py: Python, items: seq<Json>)
    ensures Gather(py, items) == Escaped <==> BadPointFirst(py, items)
    ensures Gather(py, items).Ok? <==> SoundUpTo(py, items, |items|)
  {
    if items != [] {
      var n := |items| - 1;
      var front := items[..n];
      GatherEscapesIff(py, front);
      if Gather(py, front).Ok? {
        OneEscapes(py, Gather(py, front).value, items[n]);
      }
      FirstInFront(py, items);
    }
  }

  lemma FirstInFront(py: Python, items: seq<Json>)
    requires items != []
    ensures var n := |items| - 1;
            && (BadPointFirst(py, items) <==>
                  BadPointFirst(py, items[..n]) || (SoundUpTo(py, items[..n], n) && BadPoint(py, items[n])))
            && (SoundUpTo(py, items, n + 1) <==>
                  SoundUpTo(py, items[..n], n) && !BadPoint(py, items[n]) && !Malformed(items[n]))
  {
    var n := |items| - 1;
    var front := items[..n];
    forall k: nat | k <= n ensures SoundUpTo(py, items, k) <==> SoundUpTo(py, front, k) {
      SameSoundness(py, items, n, k);
    }
    if k: nat :| k < |items| && BadPoint(py, items[k]) && SoundUpTo(py, items, k) {
      assert k == n || (BadPoint(py, front[k]) && SoundUpTo(py, front, k));
    }
    if k: nat :| k < |front| && BadPoint(py, front[k]) && SoundUpTo(py, front, k) {
      assert BadPoint(py, items[k]) && SoundUpTo(py, items, k);
    }
    if SoundUpTo(py, front, n) && BadPoint(py, items[n]) {
      assert SoundUpTo(py, items, n);
    }
  }

  lemma SameSoundness(py: Python, items: seq<Json>, n: nat, k: nat)
    requires k <= n <= |items|
    ensures SoundUpTo(py, items, k) <==> SoundUpTo(py, items[..n], k)
  {
    forall j: nat | j < k ensures items[..n][j] == items[j] {
    }
  }

  lemma NestedInFront(items: seq<Json>, last: Json)
    ensures NoneNested(items + [last]) <==> NoneNested(items) && !Nested(last)
  {
    if NoneNested(items + [last]) {
      assert (items + [last])[|items|] == last;
      forall i: nat | i < |items| ensures !Nested(items[i]) {
        assert (items + [last])[i] == items[i];
      }
    }
  }

  lemma OneIsGathered(py: Python, sofar: Gathered, item: Json)
    requires GatherOne(py, sofar, item).Ok?
    ensures Nested(item) ==> GatherOne(py, sofar, item).value.points != []
    ensures !Nested(item) ==> GatherOne(py, sofar, item) == Ok(sofar.(scalars := sofar.scalars + [item]))
    ensures sofar.points != [] ==> GatherOne(py, sofar, item).value.points != []
  {
  }

  lemma {:induction false} GatheredShape(py: Python, items: seq<Json>)
    requires Gather(py, items).Ok?
    ensures NoneNested(items) ==> Gather(py, items) == Ok(Gathered([], items))
    ensures !NoneNested(items) ==> Gather(py, items).value.points != []
  {
    if items != [] {
      var front, last := items[..|items| - 1], items[|items| - 1];
      GatheredShape(py, front);
      assert items == front + [last];
      NestedInFront(front, last);
      OneIsGathered(py, Gather(py, front).value, last);
    }
  }

  lemma {:induction false} ScalarsEscapeIff(py: Python, scalars: seq<Json>)
    requires |scalars| % 2 == 0
    ensures ScalarPoints(py, scalars) == Escaped <==> SomeNotNumeric(py, scalars)
    ensures ScalarPoints(py, scalars) != Refused
  {
    if scalars != [] {
      var n := |scalars| - 2;
      ScalarsEscapeIff(py, scalars[..n]);
      PointEscapes(py, scalars[n], scalars[n + 1]);
      NotNumericInFront(py, scalars, n);
    }
  }

  lemma NotNumericInFront(py: Python, scalars: seq<Json>, n: nat)
    requires |scalars| == n + 2
    ensures SomeNotNumeric(py, scalars) <==>
              SomeNotNumeric(py, scalars[..n]) || !Numeric(py, scalars[n]) || !Numeric(py, scalars[n + 1])
  {
    if i: nat :| i < n && !Numeric(py, scalars[..n][i]) {
      assert !Numeric(py, scalars[i]);
    }
    if i: nat :| i < |scalars| && !Numeric(py, scalars[i]) {
      assert i < n ==> !Numeric(py, scalars[..n][i]);
    }
  }

  lemma ListEscapesIff(py: Python, items: seq<Json>)
    ensures PointsOfList(py, items) == Escaped <==> BadList(py, items)
  {
    if IsBarePair(items) {
      PointEscapes(py, items[0], items[1]);
    } else {
      GatherEscapesIff(py, items);
      if Gather(py, items).Ok? {
        GatheredEscapesIff(py, items);
      } else {
        NotFlat(py, items);
      }
    }
  }

  lemma GatheredEscapesIff(py: Python, items: seq<Json>)
    requires Gather(py, items).Ok?
    ensures PointsOfGathered(py, Gather(py, items).value) == Escaped <==> BadScalars(py, items)
  {
    GatheredShape(py, items);
    if NoneNested(items) && |items| % 2 == 0 {
      ScalarsEscapeIff(py, items);
    }
  }

  /** A list whose gathering fails has an object or a list in it. */
  lemma NotFlat(py: Python, items: seq<Json>)
    requires !Gather(py, items).Ok?
    ensures !NoneNested(items)
  {
    GatherEscapesIff(py, items);
    var j: nat :| j < |items| && (BadPoint(py, items[j]) || Malformed(items[j]));
    assert Nested(items[j]);
  }

  /** Reading points raises another exception exactly for bad points: an object or pair with a value
      that is not numeric, in a list the first item that is wrong being such a one, or a flat list
      with such a value; as JSON or as a text that is JSON. */
  lemma PointsEscapeIff(py: Python, raw: Json)
    ensures PointsOf(py, raw) == Escaped <==> BadPoints(py, raw)
  {
    match raw
    case Object(fields) => ObjectEscapes(py, fields);
    case List(items) => ListEscapesIff(py, items);
    case Str(s) => TextEscapesIff(py, s);
    case _ =>
  }

  lemma TextEscapesIff(py: Python, s: string)
    ensures PointsOfText(py, s) == Escaped <==> BadText(py, Strip(s))
  {
    var t := Strip(s);
    if t != [] && (t[0] == '[' || t[0] == '{') {
      match py.loads(t)
      case Some(List(items)) => ListEscapesIff(py, items);
      case Some(Object(fields)) => ObjectEscapes(py, fields);
      case _ =>
    }
  }

  // ----- when parsing escapes -------------------------------------------------------------------

  /** The four coordinates are absent or numeric. */
  predicate CoordinatesAreNumeric(py: Python, p: Payload) {
    && (Get(p, X) == Null || Numeric(py, Get(p, X))) && (Get(p, Y) == Null || Numeric(py, Get(p, Y)))
    && (Get(p, X2) == Null || Numeric(py, Get(p, X2))) && (Get(p, Y2) == Null || Numeric(py, Get(p, Y2)))
  }

  lemma FieldsEscapeIff(py: Python, p: Payload, kind: Kind)
    ensures Fields(py, p, kind) == Escaped <==>
              CoordinatesAreNumeric(py, p) && PointsOf(py, PointsEntry(p)) == Escaped
  {
    OthersNeverEscape(py, p);
  }

  lemma OthersNeverEscape(py: Python, p: Payload)
    ensures KeyOf(Get(p, Key)) != Escaped && CategoriesOf(Get(p, Categories)) != Escaped
    ensures ExtrasOf(py, Get(p, Extras)) != Escaped
    ensures ParamsOf(if Params in p then p[Params] else Get(p, Arguments)) != Escaped
  {
    match Get(p, Extras) {
      case List(items) => ListedExtrasStay(py, items);
      case Object(fields) => KeyedExtrasStay(py, fields);
      case _ =>
    }
    match if Params in p then p[Params] else Get(p, Arguments) {
      case Object(fields) => ParamsStay(fields);
      case _ =>
    }
  }

  lemma {:induction false} ListedExtrasStay(py: Python, items: seq<Json>)
    ensures ExtrasOfList(py, items) != Escaped
  {
    if items != [] {
      ListedExtrasStay(py, items[1..]);
    }
  }

  lemma {:induction false} KeyedExtrasStay(py: Python, fields: seq<(string, Json)>)
    ensures ExtrasOfObject(py, fields) != Escaped
  {
    if fields != [] {
      KeyedExtrasStay(py, fields[1..]);
    }
  }

  lemma {:induction false} ParamsStay(fields: seq<(string, Json)>)
    ensures ParamsOfObject(fields) != Escaped
  {
    if fields != [] {
      ParamsStay(fields[..|fields| - 1]);
    }
  }

  /** Parsing raises an exception other than ActionError exactly if, the payload being repaired, its
      type is known, its coordinates are absent or numeric, and its points are bad. */
  lemma ParseEscapesIff(py: Python, payload: Payload)
    ensures var p := Normalised(py, payload);
            Parse(py, payload) == Escaped <==>
              && Truthy(RawType(p)) && KindOfRaw(py, RawType(p)).Some?
              && CoordinatesAreNumeric(py, p) && BadPoints(py, PointsEntry(p))
  {
    RepairedEscapesIff(py, Normalised(py, payload));
  }

  lemma RepairedEscapesIff(py: Python, p: Payload)
    ensures ParseRepaired(py, p) == Escaped <==>
              && Truthy(RawType(p)) && KindOfRaw(py, RawType(p)).Some?
              && CoordinatesAreNumeric(py, p) && BadPoints(py, PointsEntry(p))
  {
    PointsEscapeIff(py, PointsEntry(p));
    if KindOfRaw(py, RawType(p)).Some? {
      FieldsEscapeIff(py, p, KindOfRaw(py, RawType(p)).value);
    }
  }

  // ----- an input ---------------------------------------------------------------------------------

  /** To wait, with a point whose first value is a word. */
  function WordyPoint(word: string): Payload {
    map[ActionType := Str(Name(Wait)), Points := List([List([Str(word), Int(1)])])]
  }

  lemma NothingToRepairHere(py: Python, p: Payload)
    requires Bare(p) && KindOfRaw(py, RawType(p)) == Some(Wait)
    ensures Normalised(py, p) == p
  {
    assert NamedCoordinates(py, p) == p;
    assert CompactPath(py, p) == p;
    assert Pair(py, p, X, Y) == p;
    assert Pair(py, p, X2, Y2) == p;
  }

  lemma WordyPointIsBad(py: Python, word: string)
    requires py.readFloat(word) == None
    ensures BadPoints(py, List([List([Str(word), Int(1)])]))
  {
    var items := [List([Str(word), Int(1)])];
    assert BadPair(py, [Str(word), Int(1)]);
    assert BadPoint(py, items[0]) && SoundUpTo(py, items, 0);
  }

  /** Such a payload raises what the parser does not promise, though waiting needs no point. */
  lemma WordyPointEscapes(py: Python, word: string)
    requires Lawful(py) && py.readFloat(word) == None
    ensures Parse(py, WordyPoint(word)) == Escaped
  {
    var p := WordyPoint(word);
    NamesAreLowerWords(Wait);
    KindAgain(py, Wait);
    assert RawType(p) == Str(Name(Wait));
    NothingToRepairHere(py, p);
    WordyPointIsBad(py, word);
    ParseEscapesIff(py, p);
  }
}
