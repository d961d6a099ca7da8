/** An action on its way to the worker process: serialised, and parsed again there. */
module ActionTransport {
  import opened Wrappers
  import opened Text
  import opened ActionTypes
  import opened ActionPayload
  import opened ActionParsing
  import opened ActionSpellings

  // ----- serialising -----------------------------------------------------------------------

  const SENT: set<Field> :=
    {ActionType, X, Y, X2, Y2, Field.Text, Key, Pixels, DurationMs, Relative, Status, AutoEnter,
     Component, Package, IntentAction, MimeType, Categories, Extras}

  function FloatJson(x: Option<real>): Json { if x.Some? then Float(x.value) else Null }

  function IntJson(n: Option<int>): Json { if n.Some? then Int(n.value) else Null }

  function TextJson(s: Option<string>): Json { if s.Some? then Str(s.value) else Null }

  function TextsJson(parts: seq<string>): (items: seq<Json>)
    ensures |items| == |parts| && AllText(items)
    ensures forall i: nat | i < |parts| :: items[i] == Str(parts[i])
  {
    seq(|parts|, i requires 0 <= i < |parts| => Str(parts[i]))
  }

  function ExtrasJson(extras: seq<(string, Json)>): (items: seq<Json>)
    ensures |items| == |extras|
    ensures forall i: nat | i < |extras| :: items[i] == List([Str(extras[i].0), extras[i].1])
  {
    seq(|extras|, i requires 0 <= i < |extras| => List([Str(extras[i].0), extras[i].1]))
  }

  function KeyJson(key: Option<seq<string>>): Json {
    if key.Some? then List(TextsJson(key.value)) else Null
  }

  function ValueJson(a: Action, field: Field): Json {
    match field
    case ActionType => Str(Name(a.kind))
    case X => FloatJson(a.x)
    case Y => FloatJson(a.y)
    case X2 => FloatJson(a.x2)
    case Y2 => FloatJson(a.y2)
    case Text => TextJson(a.text)
    case Key => KeyJson(a.key)
    case Pixels => IntJson(a.pixels)
    case DurationMs => IntJson(a.durationMs)
    case Relative => Bool(a.relative)
    case Status => TextJson(a.status)
    case AutoEnter => Bool(a.autoEnter)
    case Component => TextJson(a.component)
    case Package => TextJson(a.package)
    case IntentAction => TextJson(a.intentAction)
    case MimeType => TextJson(a.mimeType)
    case Categories => List(TextsJson(a.categories))
    case Extras => List(ExtrasJson(a.extras))
    case _ => Null
  }

  /** Entries that are left out when there is nothing in them. */
  predicate Dropped(a: Action, field: Field) {
    match field
    case Component => a.component == None
    case Package => a.package == None
    case IntentAction => a.intentAction == None
    case MimeType => a.mimeType == None
    case Categories => a.categories == []
    case Extras => a.extras == []
    case _ => false
  }

  function Serialised(a: Action): Payload {
    map field | field in SENT && !Dropped(a, field) :: ValueJson(a, field)
  }

  // ----- what the parser returns ------------------------------------------------------------

  /** `str.lower` leaves a word of lower-case letters as it is. */
  ghost predicate Lawful(py: Python) {
    forall s | LowerWord(s) :: py.lower(s) == s
  }

  ghost predicate AllStripped(parts: seq<string>) {
    forall i: nat | i < |parts| :: Stripped(parts[i])
  }

  ghost predicate AllSolid(parts: seq<string>) {
    AllStripped(parts) && forall i: nat | i < |parts| :: parts[i] != []
  }

  ghost predicate GoodExtras(extras: seq<(string, Json)>) {
    forall i: nat | i < |extras| :: Stripped(extras[i].0) && extras[i].0 != [] && IsScalar(extras[i].1)
  }

  /** What holds of every parsed action. */
  ghost predicate WellFormed(a: Action) {
    && Valid(a)
    && (a.key.Some? ==> AllStripped(a.key.value))
    && AllSolid(a.categories)
    && GoodExtras(a.extras)
  }

  lemma {:induction false} StripTextsAreStripped(items: seq<Json>)
    requires AllText(items)
    ensures AllStripped(StripTexts(items))
  {
    if items != [] {
      StripTextsAreStripped(items[1..]);
    }
  }

  lemma {:induction false} SolidTextsAreSolid(parts: seq<string>)
    ensures AllSolid(SolidTexts(parts))
  {
    if parts != [] {
      SolidTextsAreSolid(parts[1..]);
    }
  }

  lemma KeysAreStripped(raw: Json)
    ensures KeyOf(raw).Ok? && KeyOf(raw).value.Some? ==> AllStripped(KeyOf(raw).value.value)
  {
    match raw
    case List(items) => if AllText(items) { StripTextsAreStripped(items); }
    case Str(s) =>
      SolidTextsAreSolid(SplitOn(s, '+'));
      SolidTextsAreSolid(SplitOn(s, ' '));
      SolidTextsAreSolid(SplitOn(s, ','));
    case _ =>
  }

  lemma CategoriesAreSolid(raw: Json)
    ensures CategoriesOf(raw).Ok? ==> AllSolid(CategoriesOf(raw).value)
  {
    match raw
    case List(items) => if AllText(items) { SolidTextsAreSolid(TextsOf(items)); }
    case Str(s) => SolidTextsAreSolid([s]);
    case _ =>
  }

  lemma {:induction false} ListedExtrasAreGood(py: Python, items: seq<Json>)
    ensures ExtrasOfList(py, items).Ok? ==> GoodExtras(ExtrasOfList(py, items).value)
  {
    if items != [] {
      ListedExtrasAreGood(py, items[1..]);
    }
  }

  lemma {:induction false} KeyedExtrasAreGood(py: Python, fields: seq<(string, Json)>)
    ensures ExtrasOfObject(py, fields).Ok? ==> GoodExtras(ExtrasOfObject(py, fields).value)
  {
    if fields != [] {
      KeyedExtrasAreGood(py, fields[1..]);
    }
  }

  lemma ExtrasAreGood(py: Python, raw: Json)
    ensures ExtrasOf(py, raw).Ok? ==> GoodExtras(ExtrasOf(py, raw).value)
  {
    match raw
    case List(items) => ListedExtrasAreGood(py, items);
    case Object(fields) => KeyedExtrasAreGood(py, fields);
    case _ =>
  }

  lemma KeyField(py: Python, p: Payload, kind: Kind)
    requires Fields(py, p, kind).Ok?
    ensures KeyOf(Get(p, Key)) == Ok(Fields(py, p, kind).value.key)
  {
  }

  lemma CategoriesField(py: Python, p: Payload, kind: Kind)
    requires Fields(py, p, kind).Ok?
    ensures CategoriesOf(Get(p, Categories)) == Ok(Fields(py, p, kind).value.categories)
  {
  }

  lemma ExtrasField(py: Python, p: Payload, kind: Kind)
    requires Fields(py, p, kind).Ok?
    ensures ExtrasOf(py, Get(p, Extras)) == Ok(Fields(py, p, kind).value.extras)
  {
  }

  lemma RepairedIsWellFormed(py: Python, p: Payload)
    ensures ParseRepaired(py, p).Ok? ==> WellFormed(ParseRepaired(py, p).value)
  {
    if ParseRepaired(py, p).Ok? {
      var kind := KindOfRaw(py, RawType(p)).value;
      KeyField(py, p, kind);
      CategoriesField(py, p, kind);
      ExtrasField(py, p, kind);
      KeysAreStripped(Get(p, Key));
      CategoriesAreSolid(Get(p, Categories));
      ExtrasAreGood(py, Get(p, Extras));
    }
  }

  /** Every action the parser returns obeys all rules of validation; its keys are stripped, its
      categories and the names of its extras are stripped and not empty, and its extras scalar. */
  lemma ParsedIsWellFormed(py: Python, payload: Payload)
    ensures Parse(py, payload).Ok? ==> WellFormed(Parse(py, payload).value)
  {
    RepairedIsWellFormed(py, Normalised(py, payload));
  }

  // ----- what is parsed again -----------------------------------------------------------------

  /** The keys that are not empty. */
  function NotEmpty(parts: seq<string>): seq<string> {
    if parts == [] then [] else if parts[0] == [] then NotEmpty(parts[1..]) else [parts[0]] + NotEmpty(parts[1..])
  }

  lemma {:induction false} NotEmptyIff(parts: seq<string>)
    ensures |NotEmpty(parts)| <= |parts|
    ensures NotEmpty(parts) == parts <==> [] !in parts
  {
    if parts != [] {
      NotEmptyIff(parts[1..]);
      assert parts == [parts[0]] + parts[1..];
    }
  }

  lemma {:induction false} KeyAgain(parts: seq<string>, items: seq<Json>)
    requires |items| == |parts| && AllText(items) && AllStripped(parts)
    requires forall i: nat | i < |parts| :: items[i] == Str(parts[i])
    ensures StripTexts(items) == NotEmpty(parts)
  {
    if parts != [] {
      assert items[0] == Str(parts[0]);
      StripIsIdentity(parts[0]);
      KeyAgain(parts[1..], items[1..]);
    }
  }

  lemma {:induction false} TextsAgain(parts: seq<string>, items: seq<Json>)
    requires |items| == |parts| && AllText(items) && AllSolid(parts)
    requires forall i: nat | i < |parts| :: items[i] == Str(parts[i])
    ensures SolidTexts(TextsOf(items)) == parts
  {
    if parts != [] {
      assert items[0] == Str(parts[0]);
      StripIsIdentity(parts[0]);
      TextsAgain(parts[1..], items[1..]);
    }
  }

  lemma {:induction false} ExtrasAgain(py: Python, extras: seq<(string, Json)>, items: seq<Json>)
    requires |items| == |extras| && GoodExtras(extras)
    requires forall i: nat | i < |extras| :: items[i] == List([Str(extras[i].0), extras[i].1])
    ensures ExtrasOfList(py, items) == Ok(extras)
  {
    if extras != [] {
      assert items[0] == List([Str(extras[0].0), extras[0].1]);
      StripIsIdentity(extras[0].0);
      ExtrasAgain(py, extras[1..], items[1..]);
      assert extras == [extras[0]] + extras[1..];
    }
  }

  lemma KindAgain(py: Python, kind: Kind)
    requires Lawful(py)
    ensures KindOfRaw(py, Str(Name(kind))) == Some(kind)
  {
    NamesAreLowerWords(kind);
    LowerWordsAreStripped(Name(kind));
    NamesAreNamed(kind);
    NamesAreNotAliases(kind);
  }

  lemma DirectionsAreLowerWords(s: string)
    requires IsDirection(s)
    ensures LowerWord(s)
  {
  }

  lemma TypeIsSent(a: Action)
    ensures RawType(Serialised(a)) == Str(Name(a.kind)) && Truthy(RawType(Serialised(a)))
  {
    NamesAreLowerWords(a.kind);
    assert Get(Serialised(a), ActionType) == Str(Name(a.kind));
  }

  lemma CoordinatesAreSent(a: Action)
    ensures var p := Serialised(a);
            && Get(p, X) == FloatJson(a.x) && Get(p, Y) == FloatJson(a.y)
            && Get(p, X2) == FloatJson(a.x2) && Get(p, Y2) == FloatJson(a.y2)
  {
  }

  lemma NamesAreNotSent(a: Action)
    ensures var p := Serialised(a);
            && Get(p, Coordinate) == Get(p, StartCoordinate) == Null
            && Get(p, Coordinate2) == Get(p, EndCoordinate) == Null
  {
    NotSent(a, Coordinate);
    NotSent(a, StartCoordinate);
    NotSent(a, Coordinate2);
    NotSent(a, EndCoordinate);
  }

  /** Nothing is left to repair in a serialised action. */
  lemma NothingToRepair(py: Python, a: Action)
    requires Lawful(py) && Valid(a)
    ensures Normalised(py, Serialised(a)) == Serialised(a)
  {
    var p := Serialised(a);
    CoordinatesAreSent(a);
    NamesAreNotSent(a);
    assert NamedCoordinates(py, p) == p;
    assert CompactPath(py, p) == p;
    assert Pair(py, p, X, Y) == p;
    assert Pair(py, p, X2, Y2) == p;
    TypeIsSent(a);
    KindAgain(py, a.kind);
  }

  /** What the worker parses out of a serialised action. */
  function Received(a: Action): Action {
    a.(points := DefaultPoints(a.kind, a.x, a.y),
       key := if a.key.Some? then Some(NotEmpty(a.key.value)) else None,
       commandId := None,
       params := map[])
  }

  lemma KeyIsReceived(a: Action)
    requires WellFormed(a)
    ensures KeyOf(Get(Serialised(a), Key)) == Ok(Received(a).key)
  {
    assert Get(Serialised(a), Key) == KeyJson(a.key);
    if a.key.Some? {
      KeyAgain(a.key.value, TextsJson(a.key.value));
    }
  }

  lemma CategoriesAreReceived(a: Action)
    requires WellFormed(a)
    ensures CategoriesOf(Get(Serialised(a), Categories)) == Ok(a.categories)
  {
    assert a.categories != [] ==> Get(Serialised(a), Categories) == List(TextsJson(a.categories));
    if a.categories != [] {
      TextsAgain(a.categories, TextsJson(a.categories));
    }
  }

  lemma ExtrasAreReceived(py: Python, a: Action)
    requires WellFormed(a)
    ensures ExtrasOf(py, Get(Serialised(a), Extras)) == Ok(a.extras)
  {
    assert a.extras != [] ==> Get(Serialised(a), Extras) == List(ExtrasJson(a.extras));
    if a.extras != [] {
      ExtrasAgain(py, a.extras, ExtrasJson(a.extras));
    }
  }

  lemma TextIsReceived(py: Python, a: Action)
    requires Lawful(py) && Valid(a)
    ensures TextField(py, Serialised(a), a.kind) == a.text
  {
    var p := Serialised(a);
    assert Get(p, Field.Text) == TextJson(a.text) && Get(p, Direction) == Null;
    if a.kind == Scroll && a.text.Some? {
      DirectionsAreLowerWords(a.text.value);
      LowerWordsAreStripped(a.text.value);
    }
  }

  lemma FloatsAreReceived(py: Python, a: Action)
    ensures var p := Serialised(a);
            && OptionalFloat(py, p, X) == Ok(a.x) && OptionalFloat(py, p, Y) == Ok(a.y)
            && OptionalFloat(py, p, X2) == Ok(a.x2) && OptionalFloat(py, p, Y2) == Ok(a.y2)
  {
    CoordinatesAreSent(a);
  }

  lemma NumbersAreReceived(a: Action)
    ensures var p := Serialised(a);
            OptionalInt(p, Pixels) == Ok(a.pixels) && OptionalInt(p, DurationMs) == Ok(a.durationMs)
  {
    var p := Serialised(a);
    assert Get(p, Pixels) == IntJson(a.pixels) && Get(p, DurationMs) == IntJson(a.durationMs);
  }

  lemma FlagsAreReceived(a: Action)
    ensures var p := Serialised(a);
            FlagOf(p, Relative, false) == a.relative && FlagOf(p, AutoEnter, true) == a.autoEnter
  {
  }

  lemma TargetsAreReceived(py: Python, a: Action)
    ensures OptionalStr(py, Serialised(a), Component) == a.component && OptionalStr(py, Serialised(a), Package) == a.package
  {
    NameIsReceived(py, a, Component, a.component);
    NameIsReceived(py, a, Package, a.package);
  }

  lemma IntentIsReceived(py: Python, a: Action)
    ensures OptionalStr(py, Serialised(a), IntentAction) == a.intentAction
  {
    NameIsReceived(py, a, IntentAction, a.intentAction);
  }

  lemma LabelsAreReceived(py: Python, a: Action)
    ensures OptionalStr(py, Serialised(a), MimeType) == a.mimeType && OptionalStr(py, Serialised(a), Status) == a.status
  {
    NameIsReceived(py, a, MimeType, a.mimeType);
    NameIsReceived(py, a, Status, a.status);
  }

  lemma NameIsReceived(py: Python, a: Action, field: Field, name: Option<string>)
    requires field in SENT && ValueJson(a, field) == TextJson(name) && (Dropped(a, field) ==> name == None)
    ensures OptionalStr(py, Serialised(a), field) == name
  {
    assert Get(Serialised(a), field) == TextJson(name);
  }

  lemma NothingElseIsSent(py: Python, a: Action)
    ensures var p := Serialised(a);
            && PointsEntry(p) == Null
            && OptionalStr(py, p, CommandId) == OptionalStr(py, p, Command) == None
            && Params !in p && Get(p, Arguments) == Null
  {
    var p := Serialised(a);
    NotSent(a, Points);
    NotSent(a, Coordinates);
    NotSent(a, Coordinate);
    NotSent(a, CommandId);
    NotSent(a, Command);
    NotSent(a, Params);
    NotSent(a, Arguments);
  }

  lemma NotSent(a: Action, field: Field)
    requires field !in SENT
    ensures field !in Serialised(a) && Get(Serialised(a), field) == Null
  {
  }

  lemma FieldsAreReceived(py: Python, a: Action)
    requires Lawful(py) && WellFormed(a)
    ensures Fields(py, Serialised(a), a.kind) == Ok(Received(a))
  {
    FloatsAreReceived(py, a);
    NumbersAreReceived(a);
    FlagsAreReceived(a);
    TargetsAreReceived(py, a);
    IntentIsReceived(py, a);
    LabelsAreReceived(py, a);
    NothingElseIsSent(py, a);
    KeyIsReceived(a);
    CategoriesAreReceived(a);
    ExtrasAreReceived(py, a);
    TextIsReceived(py, a);
  }

  lemma WorkerParses(py: Python, a: Action)
    requires Lawful(py) && WellFormed(a)
    ensures Parse(py, Serialised(a)) == if Valid(Received(a)) then Ok(Received(a)) else Refused
  {
    NothingToRepair(py, a);
    TypeIsSent(a);
    KindAgain(py, a.kind);
    FieldsAreReceived(py, a);
  }

  /** The action has nothing that is not sent, or is not read back: points other than those of
      its coordinates, a command id, parameters, or an empty key. */
  predicate Carried(a: Action) {
    && a.points == DefaultPoints(a.kind, a.x, a.y)
    && (a.key.Some? ==> [] !in a.key.value)
    && a.commandId == None
    && a.params == map[]
  }

  /** An action that was parsed, sent to the worker and parsed there is the same action exactly
      if it is carried. */
  lemma TransportIff(py: Python, payload: Payload)
    requires Lawful(py)
    ensures Parse(py, payload).Ok? ==>
              var a := Parse(py, payload).value;
              (Parse(py, Serialised(a)) == Ok(a) <==> Carried(a))
  {
    if Parse(py, payload).Ok? {
      var a := Parse(py, payload).value;
      ParsedIsWellFormed(py, payload);
      WorkerParses(py, a);
      if a.key.Some? {
        NotEmptyIff(a.key.value);
      }
      assert Received(a) == a <==> Carried(a);
    }
  }

  // ----- a parsed action that does not survive ------------------------------------------------

  function TapAt(x: real, y: real, points: seq<Point>): Action {
    Action(Tap, Some(x), Some(y), None, None, points, None, None, None, None, None, None, None, None,
           [], [], None, map[], false, None, true)
  }

  /** A tap whose position is given by a named coordinate. */
  function NamedTap(a: Json, b: Json): Payload {
    map[ActionType := Str(Name(Tap)), Coordinate := List([a, b])]
  }

  /** What the payload says nothing of. */
  predicate SaysNoMore(p: Payload) {
    forall field | field in p :: field == ActionType || field == Coordinate || field == X || field == Y
  }

  lemma NothingMoreIsRead(py: Python, p: Payload, field: Field)
    requires SaysNoMore(p) && field != ActionType && field != Coordinate && field != X && field != Y
    ensures field !in p && OptionalStr(py, p, field) == None && Get(p, field) == Null
    ensures OptionalFloat(py, p, field) == Ok(None) && OptionalInt(p, field) == Ok(None)
  {
  }

  lemma CoordinateIsAPoint(py: Python, p: Payload, a: Json, b: Json)
    requires SaysNoMore(p) && IsNumber(a) && IsNumber(b) && Get(p, Coordinate) == List([a, b])
    ensures PointsOf(py, PointsEntry(p)) == Ok([(NumberOf(a), NumberOf(b))])
  {
    NothingMoreIsRead(py, p, Points);
    NothingMoreIsRead(py, p, Coordinates);
    NumbersAreRead(py, a);
    NumbersAreRead(py, b);
    assert IsBarePair([a, b]) && PointOf(py, a, b) == Ok((NumberOf(a), NumberOf(b)));
  }

  lemma StringsAreAbsent(py: Python, p: Payload)
    requires SaysNoMore(p)
    ensures TextField(py, p, Tap) == None && OptionalStr(py, p, Status) == None
    ensures OptionalStr(py, p, Component) == None && OptionalStr(py, p, Package) == None
    ensures OptionalStr(py, p, IntentAction) == None && OptionalStr(py, p, MimeType) == None
    ensures OptionalStr(py, p, CommandId) == None && OptionalStr(py, p, Command) == None
  {
    NothingMoreIsRead(py, p, Field.Text);
    NothingMoreIsRead(py, p, Status);
    NothingMoreIsRead(py, p, Component);
    NothingMoreIsRead(py, p, Package);
    NothingMoreIsRead(py, p, IntentAction);
    NothingMoreIsRead(py, p, MimeType);
    NothingMoreIsRead(py, p, CommandId);
    NothingMoreIsRead(py, p, Command);
  }

  lemma OthersAreAbsent(py: Python, p: Payload)
    requires SaysNoMore(p)
    ensures OptionalFloat(py, p, X2) == OptionalFloat(py, p, Y2) == Ok(None)
    ensures OptionalInt(p, Pixels) == OptionalInt(p, DurationMs) == Ok(None)
    ensures KeyOf(Get(p, Key)) == Ok(None) && CategoriesOf(Get(p, Categories)) == Ok([])
    ensures ExtrasOf(py, Get(p, Extras)) == Ok([]) && Params !in p && Get(p, Arguments) == Null
    ensures FlagOf(p, Relative, false) == false && FlagOf(p, AutoEnter, true) == true
  {
    NothingMoreIsRead(py, p, X2);
    NothingMoreIsRead(py, p, Y2);
    NothingMoreIsRead(py, p, Pixels);
    NothingMoreIsRead(py, p, DurationMs);
    NothingMoreIsRead(py, p, Key);
    NothingMoreIsRead(py, p, Categories);
    NothingMoreIsRead(py, p, Extras);
    NothingMoreIsRead(py, p, Arguments);
  }

  lemma NamedTapFields(py: Python, p: Payload, a: Json, b: Json)
    requires SaysNoMore(p) && IsNumber(a) && IsNumber(b)
    requires Get(p, Coordinate) == List([a, b]) && Get(p, X) == a && Get(p, Y) == b
    ensures Fields(py, p, Tap) == Ok(TapAt(NumberOf(a), NumberOf(b), [(NumberOf(a), NumberOf(b))]))
  {
    NumbersAreRead(py, a);
    NumbersAreRead(py, b);
    CoordinateIsAPoint(py, p, a, b);
    StringsAreAbsent(py, p);
    OthersAreAbsent(py, p);
  }

  lemma NamedTapIsRepaired(py: Python, a: Json, b: Json)
    requires IsNumber(a) && IsNumber(b)
    ensures Normalised(py, NamedTap(a, b)) == WithPoint(NamedTap(a, b), a, b)
  {
    var q: Payload := map[ActionType := Str(Name(Tap))];
    assert NamedTap(a, b) == q[Coordinate := List([a, b])];
    PairUnderCoordinate(py, q, a, b);
  }

  lemma NamedTapSays(p: Payload, a: Json, b: Json)
    requires p == WithPoint(NamedTap(a, b), a, b)
    ensures SaysNoMore(p) && Get(p, Coordinate) == List([a, b]) && Get(p, X) == a && Get(p, Y) == b
    ensures Get(p, ActionType) == Str(Name(Tap))
  {
  }

  lemma ParsesAsTap(py: Python, p: Payload, tap: Action)
    requires Lawful(py) && Get(p, ActionType) == Str(Name(Tap))
    requires Fields(py, p, Tap) == Ok(tap) && Valid(tap)
    ensures ParseRepaired(py, p) == Ok(tap)
  {
    NamesAreLowerWords(Tap);
    KindAgain(py, Tap);
    ParsesAs(py, p, Tap, tap);
  }

  lemma ParsesAs(py: Python, p: Payload, kind: Kind, a: Action)
    requires Truthy(Get(p, ActionType)) && KindOfRaw(py, Get(p, ActionType)) == Some(kind)
    requires Fields(py, p, kind) == Ok(a) && Valid(a)
    ensures ParseRepaired(py, p) == Ok(a)
  {
  }

  lemma PointParses(py: Python, p: Payload, a: Json, b: Json)
    requires Lawful(py) && IsNumber(a) && IsNumber(b) && p == WithPoint(NamedTap(a, b), a, b)
    ensures ParseRepaired(py, p) == Ok(TapAt(NumberOf(a), NumberOf(b), [(NumberOf(a), NumberOf(b))]))
  {
    NamedTapSays(p, a, b);
    NamedTapFields(py, p, a, b);
    ParsesAsTap(py, p, TapAt(NumberOf(a), NumberOf(b), [(NumberOf(a), NumberOf(b))]));
  }

  lemma NamedTapParses(py: Python, a: Json, b: Json)
    requires Lawful(py) && IsNumber(a) && IsNumber(b)
    ensures Parse(py, NamedTap(a, b)) == Ok(TapAt(NumberOf(a), NumberOf(b), [(NumberOf(a), NumberOf(b))]))
  {
    NamedTapIsRepaired(py, a, b);
    PointParses(py, WithPoint(NamedTap(a, b), a, b), a, b);
  }

  /** Every tap given by a named coordinate parses, and is another action after the trip: its
      point is gone. */
  lemma NamedTapChanges(py: Python, a: Json, b: Json)
    requires Lawful(py) && IsNumber(a) && IsNumber(b)
    ensures Parse(py, NamedTap(a, b)).Ok?
    ensures var sent := Parse(py, NamedTap(a, b)).value;
            !Carried(sent) && Parse(py, Serialised(sent)) == Ok(sent.(points := [])) != Ok(sent)
  {
    NamedTapParses(py, a, b);
    ParsedIsWellFormed(py, NamedTap(a, b));
    WorkerParses(py, Parse(py, NamedTap(a, b)).value);
  }
}
