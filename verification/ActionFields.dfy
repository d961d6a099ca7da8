/** Which entry of a payload each field of an action comes from, and when a payload is an action:
    the parser as a relation between the two. */
module ActionFields {
  import opened Wrappers
  import opened Text
  import opened ActionTypes
  import opened ActionPayload
  import opened ActionParsing

  // ----- the repairs touch coordinates only ----------------------------------------------------

  predicate IsCoordinate(field: Field) {
    field == X || field == Y || field == X2 || field == Y2
  }

  /** All other entries are the same. */
  ghost predicate SameElsewhere(p: Payload, q: Payload) {
    forall field: Field | !IsCoordinate(field) :: (field in p <==> field in q) && Get(p, field) == Get(q, field)
  }

  lemma NamedPairElsewhere(py: Python, p: Payload, source: Field, primary: Field, secondary: Field)
    requires IsCoordinate(primary) && IsCoordinate(secondary)
    ensures SameElsewhere(p, NamedPair(py, p, source, primary, secondary))
  {
    var value := Get(p, source);
    if HasItems(py, value, 2) {
      FillElsewhere(p, primary, Item(py, value, 0));
      FillElsewhere(FillMissing(p, primary, Item(py, value, 0)), secondary, Item(py, value, 1));
    }
  }

  lemma FillElsewhere(p: Payload, field: Field, value: Json)
    requires IsCoordinate(field)
    ensures SameElsewhere(p, FillMissing(p, field, value))
  {
  }

  lemma NamedElsewhere(py: Python, p: Payload)
    ensures SameElsewhere(p, NamedCoordinates(py, p))
  {
    var p1 := NamedPair(py, p, Coordinate, X, Y);
    var p2 := NamedPair(py, p1, StartCoordinate, X, Y);
    var p3 := NamedPair(py, p2, Coordinate2, X2, Y2);
    NamedPairElsewhere(py, p, Coordinate, X, Y);
    NamedPairElsewhere(py, p1, StartCoordinate, X, Y);
    NamedPairElsewhere(py, p2, Coordinate2, X2, Y2);
    NamedPairElsewhere(py, p3, EndCoordinate, X2, Y2);
    CompactElsewhere(py, NamedPair(py, p3, EndCoordinate, X2, Y2));
  }

  lemma CompactElsewhere(py: Python, p: Payload)
    ensures SameElsewhere(p, CompactCoordinate(py, p)) && SameElsewhere(p, CompactPath(py, p))
  {
  }

  lemma PairElsewhere(py: Python, p: Payload, primary: Field, secondary: Field)
    requires IsCoordinate(primary) && IsCoordinate(secondary)
    ensures SameElsewhere(p, Pair(py, p, primary, secondary))
  {
    var first, second := Get(p, primary), Get(p, secondary);
    var q := FromPrimary(p, primary, secondary, Coerce(py, first).GetOr([]));
    PrimaryElsewhere(p, primary, secondary, Coerce(py, first).GetOr([]));
    SecondaryElsewhere(q, primary, secondary, Coerce(py, second).GetOr([]), Missing(first));
  }

  lemma PrimaryElsewhere(p: Payload, primary: Field, secondary: Field, items: seq<Json>)
    requires IsCoordinate(primary) && IsCoordinate(secondary)
    ensures SameElsewhere(p, FromPrimary(p, primary, secondary, items))
  {
  }

  lemma SecondaryElsewhere(p: Payload, primary: Field, secondary: Field, items: seq<Json>, alone: bool)
    requires IsCoordinate(primary) && IsCoordinate(secondary)
    ensures SameElsewhere(p, FromSecondary(p, primary, secondary, items, alone))
  {
  }

  lemma EndpointElsewhere(py: Python, p: Payload)
    ensures SameElsewhere(p, EndpointOnly(py, p))
  {
  }

  /** The repairs change no entry but the four coordinates. */
  lemma RepairsOnlyCoordinates(py: Python, p: Payload)
    ensures SameElsewhere(p, Normalised(py, p))
  {
    var p1 := NamedCoordinates(py, p);
    var p2 := CompactPath(py, p1);
    var p3 := Pair(py, p2, X, Y);
    var p4 := Pair(py, p3, X2, Y2);
    NamedElsewhere(py, p);
    CompactElsewhere(py, p1);
    PairElsewhere(py, p2, X, Y);
    PairElsewhere(py, p3, X2, Y2);
    EndpointElsewhere(py, p4);
  }

  // ----- fields -------------------------------------------------------------------------------

  /** A number that is given and can be read, or none. */
  ghost predicate IsFloatOf(py: Python, x: Option<real>, entry: Json) {
    if entry == Null then x == None else x.Some? && FloatOf(py, entry) == x
  }

  ghost predicate IsIntOf(n: Option<int>, entry: Json) {
    if entry == Null then n == None else n.Some? && IntOf(entry) == n
  }

  /** The text of an entry; null has none. */
  ghost predicate IsTextOf(py: Python, s: Option<string>, entry: Json) {
    if entry == Null then s == None else s == Some(TextOf(py, entry))
  }

  /** A scroll's text is its direction or, if that is missing or empty, its text, stripped and in
      lower case; that of other actions is their text, whatever direction says. */
  ghost predicate TextIsRead(py: Python, a: Action, p: Payload) {
    if a.kind != Scroll then IsTextOf(py, a.text, Get(p, Field.Text))
    else if Truthy(Get(p, Direction)) then a.text == Some(py.lower(Strip(TextOf(py, Get(p, Direction)))))
    else if Get(p, Field.Text) == Null then a.text == None
    else a.text == Some(py.lower(Strip(TextOf(py, Get(p, Field.Text)))))
  }

  ghost predicate PlaceIsRead(py: Python, a: Action, p: Payload) {
    && IsFloatOf(py, a.x, Get(p, X)) && IsFloatOf(py, a.y, Get(p, Y))
    && IsFloatOf(py, a.x2, Get(p, X2)) && IsFloatOf(py, a.y2, Get(p, Y2))
  }

  /** Points come from the first of the three names that is given; where there are none, a click on
      several points or one that types takes its own place. */
  ghost predicate PointsAreRead(py: Python, a: Action, p: Payload) {
    var entry := if Points in p then p[Points] else if Coordinates in p then p[Coordinates] else Get(p, Coordinate);
    match PointsOf(py, entry)
    case Ok(points) =>
      if points != [] then a.points == points
      else if (a.kind == ClickMulti || a.kind == ClickThenType) && a.x.Some? && a.y.Some? then
        a.points == [(a.x.value, a.y.value)]
      else a.points == []
    case _ => false
  }

  ghost predicate NumbersAreRead(a: Action, p: Payload) {
    IsIntOf(a.pixels, Get(p, Pixels)) && IsIntOf(a.durationMs, Get(p, DurationMs))
  }

  ghost predicate NamesAreRead(py: Python, a: Action, p: Payload) {
    && IsTextOf(py, a.component, Get(p, Component)) && IsTextOf(py, a.package, Get(p, Package))
    && IsTextOf(py, a.intentAction, Get(p, IntentAction)) && IsTextOf(py, a.mimeType, Get(p, MimeType))
    && IsTextOf(py, a.status, Get(p, Status))
  }

  /** The command's id or, if that is missing or has no text, the command. */
  ghost predicate CommandIsRead(py: Python, a: Action, p: Payload) {
    var entry := Get(p, CommandId);
    if entry != Null && TextOf(py, entry) != "" then a.commandId == Some(TextOf(py, entry))
    else IsTextOf(py, a.commandId, Get(p, Command))
  }

  /** Coordinates are pixels and text is entered, unless the payload says otherwise. */
  ghost predicate FlagsAreRead(a: Action, p: Payload) {
    && (a.relative <==> Relative in p && Truthy(p[Relative]))
    && (a.autoEnter <==> (AutoEnter in p ==> Truthy(p[AutoEnter])))
  }

  ghost predicate ListsAreRead(py: Python, a: Action, p: Payload) {
    && KeyOf(Get(p, Key)) == Ok(a.key)
    && CategoriesOf(Get(p, Categories)) == Ok(a.categories)
    && ExtrasOf(py, Get(p, Extras)) == Ok(a.extras)
    && ParamsOf(if Params in p then p[Params] else Get(p, Arguments)) == Ok(a.params)
  }

  /** Every field of the action is what the payload says. */
  ghost predicate IsRead(py: Python, a: Action, p: Payload) {
    && TextIsRead(py, a, p) && PlaceIsRead(py, a, p) && PointsAreRead(py, a, p) && NumbersAreRead(a, p)
    && NamesAreRead(py, a, p) && CommandIsRead(py, a, p) && FlagsAreRead(a, p) && ListsAreRead(py, a, p)
  }

  lemma FloatFieldIff(py: Python, p: Payload, field: Field, x: Option<real>)
    ensures OptionalFloat(py, p, field) == Ok(x) <==> IsFloatOf(py, x, Get(p, field))
  {
  }

  lemma IntFieldIff(p: Payload, field: Field, n: Option<int>)
    ensures OptionalInt(p, field) == Ok(n) <==> IsIntOf(n, Get(p, field))
  {
  }

  lemma TextFieldIff(py: Python, p: Payload, field: Field, s: Option<string>)
    ensures OptionalStr(py, p, field) == s <==> IsTextOf(py, s, Get(p, field))
  {
  }

  lemma PlaceIff(py: Python, p: Payload, a: Action)
    ensures PlaceIsRead(py, a, p) <==>
              && OptionalFloat(py, p, X) == Ok(a.x) && OptionalFloat(py, p, Y) == Ok(a.y)
              && OptionalFloat(py, p, X2) == Ok(a.x2) && OptionalFloat(py, p, Y2) == Ok(a.y2)
  {
    FloatFieldIff(py, p, X, a.x);
    FloatFieldIff(py, p, Y, a.y);
    FloatFieldIff(py, p, X2, a.x2);
    FloatFieldIff(py, p, Y2, a.y2);
  }

  lemma PointsIff(py: Python, p: Payload, a: Action)
    ensures PointsAreRead(py, a, p) <==>
              && PointsOf(py, PointsEntry(p)).Ok?
              && a.points == var points := PointsOf(py, PointsEntry(p)).value;
                             if points == [] then DefaultPoints(a.kind, a.x, a.y) else points
  {
  }

  lemma NumbersIff(p: Payload, a: Action)
    ensures NumbersAreRead(a, p) <==>
              OptionalInt(p, Pixels) == Ok(a.pixels) && OptionalInt(p, DurationMs) == Ok(a.durationMs)
  {
    IntFieldIff(p, Pixels, a.pixels);
    IntFieldIff(p, DurationMs, a.durationMs);
  }

  lemma NamesIff(py: Python, p: Payload, a: Action)
    ensures NamesAreRead(py, a, p) <==>
              && a.component == OptionalStr(py, p, Component) && a.package == OptionalStr(py, p, Package)
              && a.intentAction == OptionalStr(py, p, IntentAction) && a.mimeType == OptionalStr(py, p, MimeType)
              && a.status == OptionalStr(py, p, Status)
  {
    TextFieldIff(py, p, Component, a.component);
    TextFieldIff(py, p, Package, a.package);
    TextFieldIff(py, p, IntentAction, a.intentAction);
    TextFieldIff(py, p, MimeType, a.mimeType);
    TextFieldIff(py, p, Status, a.status);
  }

  lemma CommandIff(py: Python, p: Payload, a: Action)
    ensures CommandIsRead(py, a, p) <==>
              a.commandId == if Given(OptionalStr(py, p, CommandId)) then OptionalStr(py, p, CommandId)
                             else OptionalStr(py, p, Command)
  {
    TextFieldIff(py, p, Command, a.commandId);
  }

  lemma TextIff(py: Python, p: Payload, a: Action)
    ensures TextIsRead(py, a, p) <==> a.text == TextField(py, p, a.kind)
  {
    TextFieldIff(py, p, Field.Text, a.text);
  }

  lemma FlagsIff(p: Payload, a: Action)
    ensures FlagsAreRead(a, p) <==> a.relative == FlagOf(p, Relative, false) && a.autoEnter == FlagOf(p, AutoEnter, true)
  {
  }

  lemma FieldsAre(py: Python, p: Payload, a: Action)
    ensures Fields(py, p, a.kind) == Ok(a) <==>
              && OptionalFloat(py, p, X) == Ok(a.x) && OptionalFloat(py, p, Y) == Ok(a.y)
              && OptionalFloat(py, p, X2) == Ok(a.x2) && OptionalFloat(py, p, Y2) == Ok(a.y2)
              && PointsOf(py, PointsEntry(p)).Ok?
              && a.points == (var points := PointsOf(py, PointsEntry(p)).value;
                              if points == [] then DefaultPoints(a.kind, a.x, a.y) else points)
              && a.text == TextField(py, p, a.kind)
              && OptionalInt(p, Pixels) == Ok(a.pixels) && OptionalInt(p, DurationMs) == Ok(a.durationMs)
              && a.component == OptionalStr(py, p, Component) && a.package == OptionalStr(py, p, Package)
              && a.intentAction == OptionalStr(py, p, IntentAction) && a.mimeType == OptionalStr(py, p, MimeType)
              && a.status == OptionalStr(py, p, Status)
              && a.commandId == (if Given(OptionalStr(py, p, CommandId)) then OptionalStr(py, p, CommandId)
                                 else OptionalStr(py, p, Command))
              && a.relative == FlagOf(p, Relative, false) && a.autoEnter == FlagOf(p, AutoEnter, true)
              && ListsAreRead(py, a, p)
  {
  }

  lemma FieldsIff(py: Python, p: Payload, a: Action)
    ensures Fields(py, p, a.kind) == Ok(a) <==> IsRead(py, a, p)
  {
    FieldsAre(py, p, a);
    TextIff(py, p, a);
    PlaceIff(py, p, a);
    PointsIff(py, p, a);
    NumbersIff(p, a);
    NamesIff(py, p, a);
    CommandIff(py, p, a);
    FlagsIff(p, a);
  }

  // ----- what each kind of action needs --------------------------------------------------------

  ghost predicate HasStart(a: Action) {
    a.x.Some? && a.y.Some?
  }

  ghost predicate HasPath(a: Action) {
    HasStart(a) && a.x2.Some? && a.y2.Some? && (a.x != a.x2 || a.y != a.y2)
  }

  ghost predicate HasText(a: Action) {
    a.text.Some? && a.text.value != ""
  }

  /** What an action of its kind must have. */
  ghost predicate Complete(a: Action) {
    match a.kind
    case Tap => HasStart(a)
    case LongPress => HasStart(a)
    case DoubleTap => HasStart(a)
    case Drag => HasPath(a)
    case Swipe => HasPath(a)
    case Scroll =>
      && a.pixels.Some? && (a.x.Some? <==> a.y.Some?)
      && (a.text.Some? ==> a.text.value in ["up", "down", "left", "right"])
    case ClickMulti => |a.points| > 0
    case ClickThenType => |a.points| == 1 && a.text.Some?
    case InputText => a.text.Some?
    case Hotkey => a.key.Some? && a.key.value != []
    case Screenshot => true
    case Wait => true
    case OpenApp => HasText(a)
    case OpenDeeplink => HasText(a)
    case OpenIntent => a.intentAction.Some? && a.intentAction.value != ""
    case AdbCommand => HasText(a) || (a.commandId.Some? && a.commandId.value != "")
    case CloseApp => HasText(a)
    case Back => true
    case Home => true
    case Enter => true
    case AppSwitch => true
    case Finish => true
    case RequestIntervention => a.text.Some? && Strip(a.text.value) != ""
  }

  lemma ValidIff(a: Action)
    ensures Valid(a) <==> Complete(a)
  {
  }

  /** The first of the two entries for the type that is not empty is, stripped and in lower case, a
      word for the kind. */
  ghost predicate TypeIsRead(py: Python, kind: Kind, p: Payload) {
    var entry := if Truthy(Get(p, ActionType)) then Get(p, ActionType) else Get(p, ActionName);
    Truthy(entry) && py.lower(Strip(TextOf(py, entry))) in Words(kind)
  }

  lemma TypeIff(py: Python, kind: Kind, p: Payload)
    ensures TypeIsRead(py, kind, p) <==> Truthy(RawType(p)) && KindOfRaw(py, RawType(p)) == Some(kind)
  {
    KindIff(py, RawType(p), kind);
  }

  /** A payload is an action exactly if the type it has, once repaired, is the action's, all fields are
      what it says, and the action has what its kind must have. */
  lemma ParseIff(py: Python, payload: Payload, a: Action)
    ensures var p := Normalised(py, payload);
            Parse(py, payload) == Ok(a) <==> TypeIsRead(py, a.kind, p) && IsRead(py, a, p) && Complete(a)
  {
    RepairedIff(py, Normalised(py, payload), a);
  }

  lemma RepairedIff(py: Python, p: Payload, a: Action)
    ensures ParseRepaired(py, p) == Ok(a) <==> TypeIsRead(py, a.kind, p) && IsRead(py, a, p) && Complete(a)
  {
    FieldsIff(py, p, a);
    ValidIff(a);
    TypeIff(py, a.kind, p);
    if ParseRepaired(py, p) == Ok(a) {
      KindStays(py, p, KindOfRaw(py, RawType(p)).value);
    }
  }

  lemma KindStays(py: Python, p: Payload, kind: Kind)
    ensures Fields(py, p, kind).Ok? ==> Fields(py, p, kind).value.kind == kind
  {
  }

  lemma ParsedIsRead(py: Python, payload: Payload, a: Action)
    requires Parse(py, payload) == Ok(a)
    ensures IsRead(py, a, Normalised(py, payload)) && Complete(a)
  {
    ParseIff(py, payload, a);
  }

  lemma TextElsewhere(py: Python, a: Action, p: Payload, q: Payload)
    requires SameElsewhere(p, q) && TextIsRead(py, a, q)
    ensures TextIsRead(py, a, p)
  {
    assert Get(p, Direction) == Get(q, Direction) && Get(p, Field.Text) == Get(q, Field.Text);
  }

  /** A payload that parses to a scroll has for its text its direction if that is not empty, whatever
      its text says, and otherwise its text; one that parses to another action has its text. */
  lemma ScrollTakesDirection(py: Python, payload: Payload, a: Action)
    requires Parse(py, payload) == Ok(a)
    ensures TextIsRead(py, a, payload)
  {
    ParsedIsRead(py, payload, a);
    RepairsOnlyCoordinates(py, payload);
    TextElsewhere(py, a, payload, Normalised(py, payload));
  }

  lemma PointsElsewhere(py: Python, a: Action, p: Payload, q: Payload)
    requires SameElsewhere(p, q) && PointsAreRead(py, a, q)
    ensures PointsAreRead(py, a, p)
  {
    assert (Points in p <==> Points in q) && Get(p, Points) == Get(q, Points);
    assert (Coordinates in p <==> Coordinates in q) && Get(p, Coordinates) == Get(q, Coordinates);
    assert Get(p, Coordinate) == Get(q, Coordinate);
  }

  lemma NumbersElsewhere(py: Python, a: Action, p: Payload, q: Payload)
    requires SameElsewhere(p, q) && NumbersAreRead(a, q) && CommandIsRead(py, a, q)
    ensures NumbersAreRead(a, p) && CommandIsRead(py, a, p)
  {
    assert Get(p, Pixels) == Get(q, Pixels) && Get(p, DurationMs) == Get(q, DurationMs);
    assert Get(p, CommandId) == Get(q, CommandId) && Get(p, Command) == Get(q, Command);
  }

  lemma NamesElsewhere(py: Python, a: Action, p: Payload, q: Payload)
    requires SameElsewhere(p, q) && NamesAreRead(py, a, q)
    ensures NamesAreRead(py, a, p)
  {
    assert Get(p, Component) == Get(q, Component) && Get(p, Package) == Get(q, Package);
    assert Get(p, IntentAction) == Get(q, IntentAction) && Get(p, MimeType) == Get(q, MimeType);
    assert Get(p, Status) == Get(q, Status);
  }

  lemma FlagsElsewhere(a: Action, p: Payload, q: Payload)
    requires SameElsewhere(p, q) && FlagsAreRead(a, q)
    ensures FlagsAreRead(a, p)
  {
    assert (Relative in p <==> Relative in q) && Get(p, Relative) == Get(q, Relative);
    assert (AutoEnter in p <==> AutoEnter in q) && Get(p, AutoEnter) == Get(q, AutoEnter);
  }

  lemma ListsElsewhere(py: Python, a: Action, p: Payload, q: Payload)
    requires SameElsewhere(p, q) && ListsAreRead(py, a, q)
    ensures ListsAreRead(py, a, p)
  {
    assert Get(p, Key) == Get(q, Key) && Get(p, Categories) == Get(q, Categories) && Get(p, Extras) == Get(q, Extras);
    assert (Params in p <==> Params in q) && Get(p, Params) == Get(q, Params) && Get(p, Arguments) == Get(q, Arguments);
  }

  /** All fields but the coordinates are those of the payload as it was given. */
  lemma ParsedElsewhere(py: Python, payload: Payload, a: Action)
    requires Parse(py, payload) == Ok(a)
    ensures PointsAreRead(py, a, payload) && NumbersAreRead(a, payload) && NamesAreRead(py, a, payload)
    ensures CommandIsRead(py, a, payload) && FlagsAreRead(a, payload) && ListsAreRead(py, a, payload)
  {
    var p := Normalised(py, payload);
    ParsedIsRead(py, payload, a);
    RepairsOnlyCoordinates(py, payload);
    PointsElsewhere(py, a, payload, p);
    NumbersElsewhere(py, a, payload, p);
    NamesElsewhere(py, a, payload, p);
    FlagsElsewhere(a, payload, p);
    ListsElsewhere(py, a, payload, p);
  }

  // ----- names of types ---------------------------------------------------------------------------

  /** All words for a kind of action. */
  function Words(kind: Kind): set<string> {
    match kind
    case Tap => {"tap", "click"}
    case LongPress => {"long_press", "long_click"}
    case DoubleTap => {"double_tap", "double_click"}
    case Drag => {"drag"}
    case Swipe => {"swipe"}
    case Scroll => {"scroll"}
    case ClickMulti => {"click_multi"}
    case ClickThenType => {"click_then_type"}
    case InputText => {"input_text", "type"}
    case Hotkey => {"hotkey", "key", "press"}
    case Screenshot => {"screenshot"}
    case Wait => {"wait"}
    case OpenApp => {"open_app"}
    case OpenDeeplink => {"open_deeplink"}
    case OpenIntent => {"open_intent"}
    case AdbCommand => {"adb_command"}
    case CloseApp => {"close_app"}
    case Back => {"back", "navigate_back"}
    case Home => {"home", "navigate_home"}
    case Enter => {"enter", "keyboard_enter", "return"}
    case AppSwitch => {"app_switch", "recents", "recent_apps"}
    case Finish => {"done"}
    case RequestIntervention => {"request_intervention"}
  }

  lemma GestureByName(word: string)
    ensures NamedGesture(word).Some? ==> word == Name(NamedGesture(word).value)
  {
  }

  lemma LaunchByName(word: string)
    ensures NamedLaunch(word).Some? ==> word == Name(NamedLaunch(word).value)
  {
  }

  lemma OtherByName(word: string)
    ensures NamedOther(word).Some? ==> word == Name(NamedOther(word).value)
  {
  }

  lemma NamedByName(word: string)
    ensures Named(word).Some? ==> word == Name(Named(word).value)
  {
    GestureByName(word);
    LaunchByName(word);
    OtherByName(word);
  }

  lemma AliasIsWord(word: string)
    ensures Aliased(word).Some? ==> word in Words(Aliased(word).value)
  {
  }

  lemma NameIsWord(kind: Kind)
    ensures Name(kind) in Words(kind) && forall w | w in Words(kind) && w != Name(kind) :: Aliased(w) == Some(kind)
  {
  }

  /** The word, stripped and in lower case, is one for this kind. */
  lemma KindIff(py: Python, raw: Json, kind: Kind)
    ensures KindOfRaw(py, raw) == Some(kind) <==> py.lower(Strip(TextOf(py, raw))) in Words(kind)
  {
    var word := py.lower(Strip(TextOf(py, raw)));
    NamedByName(word);
    NamesAreNamed(kind);
    AliasIsWord(word);
    NameIsWord(kind);
    NamesAreNotAliases(kind);
  }

  /** The repairs leave the type alone. */
  lemma TypeElsewhere(py: Python, kind: Kind, payload: Payload)
    ensures TypeIsRead(py, kind, Normalised(py, payload)) <==> TypeIsRead(py, kind, payload)
  {
    var q := Normalised(py, payload);
    RepairsOnlyCoordinates(py, payload);
    assert Get(payload, ActionType) == Get(q, ActionType) && Get(payload, ActionName) == Get(q, ActionName);
  }

  // ----- values -----------------------------------------------------------------------------------

  /** The values that count as missing or as no. */
  lemma FalsyIff(j: Json)
    ensures !Truthy(j) <==>
              || j == Null || j == Bool(false) || j == Int(0) || j == Float(0.0)
              || j == Str("") || j == List([]) || j == Object([])
  {
  }

  /** Fractions are cut towards zero. */
  lemma IntsAreCut(x: real, n: int, b: bool)
    ensures IntOf(Int(n)) == Some(n) && IntOf(Bool(b)) == Some(if b then 1 else 0)
    ensures IntOf(Float(x)).Some?
    ensures var m := IntOf(Float(x)).value as real;
            && (x >= 0.0 ==> 0.0 <= m <= x < m + 1.0)
            && (x <= 0.0 ==> m - 1.0 < x <= m <= 0.0)
  {
  }

  /** A mapping of extras means the list of its pairs. */
  lemma {:induction false} ExtrasSpellings(py: Python, fields: seq<(string, Json)>)
    ensures ExtrasOf(py, Object(fields)) == ExtrasOf(py, List(AsLists(fields)))
  {
    if fields != [] {
      ExtrasSpellings(py, fields[1..]);
    }
  }

  function AsLists(fields: seq<(string, Json)>): seq<Json> {
    if fields == [] then [] else [List([Str(fields[0].0), fields[0].1])] + AsLists(fields[1..])
  }

  /** Extras are refused exactly if one has a blank name, or a list or object for its value; otherwise
      they are the given ones, with their names stripped. */
  lemma {:induction false} ExtrasAre(py: Python, fields: seq<(string, Json)>)
    ensures ExtrasOf(py, Object(fields)).Ok? <==>
              forall i: nat | i < |fields| ::
                Strip(fields[i].0) != "" && !fields[i].1.List? && !fields[i].1.Object?
    ensures ExtrasOf(py, Object(fields)) != Escaped
    ensures ExtrasOf(py, Object(fields)).Ok? ==>
              var extras := ExtrasOf(py, Object(fields)).value;
              |extras| == |fields| && forall i: nat | i < |fields| :: extras[i] == (Strip(fields[i].0), fields[i].1)
  {
    if fields != [] {
      ExtrasAre(py, fields[1..]);
      assert forall i: nat | i < |fields| :: fields[i] == if i == 0 then fields[0] else fields[1..][i - 1];
      assert forall i: nat | i < |fields[1..]| :: fields[1..][i] == fields[i + 1];
    }
  }

  ghost predicate NoBlankName(fields: seq<(string, Json)>) {
    forall i: nat | i < |fields| :: Strip(fields[i].0) != ""
  }

  lemma {:induction false} ParamsAreTakenIff(fields: seq<(string, Json)>)
    ensures ParamsOfObject(fields).Ok? <==> NoBlankName(fields)
    ensures ParamsOfObject(fields) != Escaped
  {
    if fields != [] {
      var front := fields[..|fields| - 1];
      ParamsAreTakenIff(front);
      assert forall i: nat | i < |front| :: front[i] == fields[i];
      assert fields == front + [fields[|front|]];
    }
  }

  /** The name stands for what was given last under it. */
  ghost predicate IsLastUnder(fields: seq<(string, Json)>, name: string, value: Json) {
    exists i: nat :: i < |fields| && Strip(fields[i].0) == name && fields[i].1 == value && NotAfter(fields, name, i + 1)
  }

  ghost predicate NotAfter(fields: seq<(string, Json)>, name: string, n: nat) {
    forall j: nat | n <= j < |fields| :: Strip(fields[j].0) != name
  }

  lemma LastUnderFront(front: seq<(string, Json)>, last: (string, Json), name: string, value: Json)
    requires Strip(last.0) != name
    ensures IsLastUnder(front, name, value) ==> IsLastUnder(front + [last], name, value)
    ensures IsLastUnder(front + [last], name, value) ==> IsLastUnder(front, name, value)
  {
    var fields := front + [last];
    assert fields[|front|] == last && forall i: nat | i < |front| :: fields[i] == front[i];
    if i: nat :| i < |front| && Strip(front[i].0) == name && front[i].1 == value && NotAfter(front, name, i + 1) {
      assert fields[i] == front[i] && NotAfter(fields, name, i + 1);
    }
    if i: nat :| i < |fields| && Strip(fields[i].0) == name && fields[i].1 == value && NotAfter(fields, name, i + 1) {
      assert i < |front| && front[i] == fields[i] && NotAfter(front, name, i + 1);
    }
  }

  lemma LastUnderLast(front: seq<(string, Json)>, last: (string, Json), name: string, value: Json)
    requires Strip(last.0) == name
    ensures IsLastUnder(front + [last], name, value) <==> last.1 == value
  {
    var fields := front + [last];
    assert fields[|front|] == last && NotAfter(fields, name, |front| + 1);
    if i: nat :| i < |fields| && Strip(fields[i].0) == name && fields[i].1 == value && NotAfter(fields, name, i + 1) {
      assert i == |front|;
    }
  }

  /** Parameters are refused exactly if one has a blank name; otherwise each name, stripped, stands for
      the last value given under it. */
  lemma {:induction false} ParamsAre(fields: seq<(string, Json)>, name: string, value: Json)
    ensures ParamsOf(Object(fields)).Ok? <==> NoBlankName(fields)
    ensures ParamsOf(Object(fields)) != Escaped
    ensures ParamsOf(Object(fields)).Ok? ==>
              (name in ParamsOf(Object(fields)).value && ParamsOf(Object(fields)).value[name] == value
               <==> IsLastUnder(fields, name, value))
  {
    ParamsAreTakenIff(fields);
    if fields != [] {
      var front := fields[..|fields| - 1];
      ParamsAre(front, name, value);
      if Strip(fields[|front|].0) == name {
        LastUnderLast(front, fields[|front|], name, value);
      } else {
        LastUnderFront(front, fields[|front|], name, value);
      }
      assert fields == front + [fields[|front|]];
    }
  }

  /** One category, and a list of it. */
  lemma CategorySpellings(s: string)
    ensures CategoriesOf(Str(s)) == CategoriesOf(List([Str(s)]))
  {
    var items := [Str(s)];
    assert TextsOf(items) == [s];
  }

  // ----- keys -------------------------------------------------------------------------------------

  /** A key's name: no blanks around it, none of the separators in it, and not empty. */
  ghost predicate IsKeyName(s: string) {
    Stripped(s) && s != "" && forall c | c in s :: c !in {'+', ' ', ','}
  }

  ghost predicate AreKeyNames(names: seq<string>) {
    forall i: nat | i < |names| :: IsKeyName(names[i])
  }

  function AsTexts(names: seq<string>): (items: seq<Json>)
    ensures |items| == |names| && AllText(items)
  {
    if names == [] then [] else [Str(names[0])] + AsTexts(names[1..])
  }

  lemma {:induction false} NamesAreSolid(names: seq<string>)
    requires AreKeyNames(names)
    ensures SolidTexts(names) == names && StripTexts(AsTexts(names)) == names
  {
    if names != [] {
      assert IsKeyName(names[0]);
      StripIsIdentity(names[0]);
      NamesAreSolid(names[1..]);
      assert names == [names[0]] + names[1..];
    }
  }

  lemma {:induction false} JoinedHas(names: seq<string>, separator: char, c: char)
    requires AreKeyNames(names) && c in {'+', ' ', ','}
    ensures c in Join([separator], names) <==> |names| > 1 && c == separator
  {
    if names != [] {
      assert IsKeyName(names[0]) && c !in names[0];
      JoinedHas(names[1..], separator, c);
    }
  }

  lemma {:induction false} SplitJoined(names: seq<string>, separator: char)
    requires names != [] && AreKeyNames(names) && separator in {'+', ' ', ','}
    ensures SplitOn(Join([separator], names), separator) == names
  {
    assert IsKeyName(names[0]);
    if |names| == 1 {
      IndexIsLength(names[0], separator);
      assert names == [names[0]];
    } else {
      SplitJoined(names[1..], separator);
      SplitMore(names[0], names[1..], separator);
      assert names == [names[0]] + names[1..];
    }
  }

  lemma SplitMore(first: string, names: seq<string>, separator: char)
    requires names != [] && separator !in first
    ensures SplitOn(Join([separator], [first] + names), separator)
            == [first] + SplitOn(Join([separator], names), separator)
  {
    SplitFirst(first, separator, Join([separator], names));
    assert ([first] + names)[1..] == names;
  }

  lemma IndexIsLength(s: string, c: char)
    requires c !in s
    ensures SplitOn(s, c) == [s]
  {
  }

  lemma SplitFirst(first: string, c: char, rest: string)
    requires c !in first
    ensures SplitOn(first + [c] + rest, c) == [first] + SplitOn(rest, c)
  {
    var s := first + [c] + rest;
    IndexOfFirst(first, c, rest);
    assert s[..|first|] == first && s[|first| + 1..] == rest;
  }

  lemma OneKey(name: string)
    requires IsKeyName(name)
    ensures KeyOf(Str(name)) == Ok(Some([name]))
  {
    StripIsIdentity(name);
  }

  lemma JoinedKeys(names: seq<string>, separator: char)
    requires |names| > 1 && AreKeyNames(names) && separator in {'+', ' ', ','}
    ensures KeyOf(Str(Join([separator], names))) == Ok(Some(names))
  {
    NamesAreSolid(names);
    JoinedHas(names, separator, '+');
    JoinedHas(names, separator, ' ');
    JoinedHas(names, separator, ',');
    SplitJoined(names, separator);
    KeyOfText(Join([separator], names), separator);
  }

  lemma KeyOfText(s: string, separator: char)
    requires separator in {'+', ' ', ','} && separator in s
    requires forall c | c in {'+', ' ', ','} && c in s :: c == separator
    ensures KeyOf(Str(s)) == Ok(Some(SolidTexts(SplitOn(s, separator))))
  {
    assert '+' in {'+', ' ', ','} && ' ' in {'+', ' ', ','};
  }

  /** A list of keys, and the keys joined by plus signs, by blanks or by commas, mean the same. */
  lemma KeySpellings(names: seq<string>, separator: char)
    requires names != [] && AreKeyNames(names) && separator in {'+', ' ', ','}
    ensures KeyOf(List(AsTexts(names))) == Ok(Some(names))
    ensures KeyOf(Str(Join([separator], names))) == Ok(Some(names))
  {
    NamesAreSolid(names);
    if |names| == 1 {
      assert IsKeyName(names[0]) && names == [names[0]];
      OneKey(names[0]);
    } else {
      JoinedKeys(names, separator);
    }
  }

  // ----- points as text ------------------------------------------------------------------------------

  function Flattened(points: seq<Point>): (numbers: seq<real>)
    ensures |numbers| == 2 * |points|
  {
    if points == [] then [] else [points[0].0, points[0].1] + Flattened(points[1..])
  }

  lemma {:induction false} NumbersArePoints(points: seq<Point>)
    ensures PointsOfNumbers(Flattened(points)) == points
  {
    if points != [] {
      NumbersArePoints(points[1..]);
      assert Flattened(points)[2..] == Flattened(points[1..]);
      assert points == [points[0]] + points[1..];
    }
  }

  /** Points in a text: a JSON list or object in it is read as itself, and otherwise the numbers found
      in it are taken in pairs. A blank text has none. */
  lemma PointsInText(py: Python, s: string, points: seq<Point>)
    ensures Strip(s) == "" ==> PointsOf(py, Str(s)) == Ok([])
    ensures Strip(s) != "" && Strip(s)[0] in {'[', '{'} && py.loads(Strip(s)).Some?
            && (py.loads(Strip(s)).value.List? || py.loads(Strip(s)).value.Object?) ==>
              PointsOf(py, Str(s)) == PointsOf(py, py.loads(Strip(s)).value)
    ensures Strip(s) != "" && Strip(s)[0] !in {'[', '{'} && points != [] && py.findNumbers(Strip(s)) == Flattened(points) ==>
              PointsOf(py, Str(s)) == Ok(points)
    ensures Strip(s) != "" && Strip(s)[0] !in {'[', '{'} && |py.findNumbers(Strip(s))| % 2 == 1 ==>
              PointsOf(py, Str(s)) == Refused
  {
    NumbersArePoints(points);
  }
}
