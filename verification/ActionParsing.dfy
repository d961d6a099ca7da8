/** From a payload to a validated action. */
module ActionParsing {
  import opened Wrappers
  import opened Text
  import opened ActionTypes
  import opened ActionPayload

  /** A value, an ActionError, or another exception that the parser does not catch. */
  datatype Parsed<+T> = Ok(value: T) | Refused | Escaped {
    predicate IsFailure() {
      !Ok?
    }

    function PropagateFailure<U>(): Parsed<U>
      requires IsFailure()
    {
      if Refused? then Parsed<U>.Refused else Parsed<U>.Escaped
    }

    function Extract(): T
      requires !IsFailure()
    {
      value
    }
  }

  type Point = (real, real)

  datatype Action = Action(
    kind: Kind, x: Option<real>, y: Option<real>, x2: Option<real>, y2: Option<real>, points: seq<Point>,
    text: Option<string>, key: Option<seq<string>>, pixels: Option<int>, durationMs: Option<int>,
    component: Option<string>, package: Option<string>, intentAction: Option<string>, mimeType: Option<string>,
    categories: seq<string>, extras: seq<(string, Json)>, commandId: Option<string>, params: map<string, Json>,
    relative: bool, status: Option<string>, autoEnter: bool)

  // ----- scalar fields ------------------------------------------------------------------

  function OptionalFloat(py: Python, p: Payload, field: Field): Parsed<Option<real>> {
    if Get(p, field) == Null then Ok(None)
    else match FloatOf(py, Get(p, field))
      case None => Refused
      case Some(x) => Ok(Some(x))
  }

  function Truncate(x: real): int {
    if x >= 0.0 then x.Floor else -(-x).Floor
  }

  function IntOf(j: Json): Option<int> {
    match j
    case Bool(b) => Some(if b then 1 else 0)
    case Int(n) => Some(n)
    case Float(x) => Some(Truncate(x))
    case Str(s) => ReadInt(s)
    case _ => None
  }

  function OptionalInt(p: Payload, field: Field): Parsed<Option<int>> {
    if Get(p, field) == Null then Ok(None)
    else match IntOf(Get(p, field))
      case None => Refused
      case Some(n) => Ok(Some(n))
  }

  function OptionalStr(py: Python, p: Payload, field: Field): Option<string> {
    if Get(p, field) == Null then None else Some(TextOf(py, Get(p, field)))
  }

  /** For a scroll the direction, in lower case. */
  function TextField(py: Python, p: Payload, kind: Kind): Option<string> {
    if kind != Scroll then OptionalStr(py, p, Text) else
      var raw := if Truthy(Get(p, Direction)) then Get(p, Direction) else Get(p, Text);
      if raw == Null then None else Some(py.lower(Strip(TextOf(py, raw))))
  }

  // ----- points -----------------------------------------------------------------------------

  function PointOf(py: Python, a: Json, b: Json): Parsed<Point> {
    match (FloatOf(py, a), FloatOf(py, b))
    case (Some(x), Some(y)) => Ok((x, y))
    case _ => Escaped
  }

  function Lookup(fields: seq<(string, Json)>, name: string): Option<Json> {
    if fields == [] then None
    else if fields[0].0 == name then Some(fields[0].1)
    else Lookup(fields[1..], name)
  }

  function ObjectPoint(py: Python, fields: seq<(string, Json)>): Parsed<Point> {
    match (Lookup(fields, "x"), Lookup(fields, "y"))
    case (Some(x), Some(y)) => PointOf(py, x, y)
    case _ => Refused
  }

  function PairPoint(py: Python, items: seq<Json>): Parsed<Point> {
    if |items| == 2 then PointOf(py, items[0], items[1]) else Refused
  }

  /** The points among some items, and the items that are none. */
  datatype Gathered = Gathered(points: seq<Point>, scalars: seq<Json>)

  function GatherOne(py: Python, sofar: Gathered, item: Json): Parsed<Gathered> {
    match item
    case Object(fields) => var point :- ObjectPoint(py, fields); Ok(sofar.(points := sofar.points + [point]))
    case List(items) => var point :- PairPoint(py, items); Ok(sofar.(points := sofar.points + [point]))
    case _ => Ok(sofar.(scalars := sofar.scalars + [item]))
  }

  function Gather(py: Python, items: seq<Json>): Parsed<Gathered> {
    if items == [] then Ok(Gathered([], [])) else
      var sofar :- Gather(py, items[..|items| - 1]);
      GatherOne(py, sofar, items[|items| - 1])
  }

  function ScalarPoints(py: Python, scalars: seq<Json>): Parsed<seq<Point>>
    requires |scalars| % 2 == 0
  {
    if scalars == [] then Ok([]) else
      var front :- ScalarPoints(py, scalars[..|scalars| - 2]);
      var last :- PointOf(py, scalars[|scalars| - 2], scalars[|scalars| - 1]);
      Ok(front + [last])
  }

  function PointsOfGathered(py: Python, g: Gathered): Parsed<seq<Point>> {
    if g.scalars == [] then Ok(g.points)
    else if g.points != [] || |g.scalars| % 2 != 0 then Refused
    else ScalarPoints(py, g.scalars)
  }

  predicate IsBarePair(items: seq<Json>) {
    |items| == 2 && !items[0].List? && !items[0].Object?
  }

  function PointsOfList(py: Python, items: seq<Json>): Parsed<seq<Point>> {
    if IsBarePair(items) then
      var point :- PointOf(py, items[0], items[1]);
      Ok([point])
    else
      var g :- Gather(py, items);
      PointsOfGathered(py, g)
  }

  function PointsOfNumbers(numbers: seq<real>): seq<Point> {
    if |numbers| < 2 then [] else [(numbers[0], numbers[1])] + PointsOfNumbers(numbers[2..])
  }

  function PointsOfText(py: Python, s: string): Parsed<seq<Point>> {
    var t := Strip(s);
    if t == [] then Ok([])
    else
      match if t[0] == '[' || t[0] == '{' then py.loads(t) else None
      case Some(List(items)) => PointsOfList(py, items)
      case Some(Object(fields)) => var point :- ObjectPoint(py, fields); Ok([point])
      case _ =>
        var numbers := py.findNumbers(t);
        if |numbers| < 2 || |numbers| % 2 != 0 then Refused else Ok(PointsOfNumbers(numbers))
  }

  function PointsOf(py: Python, raw: Json): Parsed<seq<Point>> {
    match raw
    case Null => Ok([])
    case Str(s) => PointsOfText(py, s)
    case Object(fields) => var point :- ObjectPoint(py, fields); Ok([point])
    case List(items) => PointsOfList(py, items)
    case _ => Refused
  }

  method ParsePointList(py: Python, items: seq<Json>) returns (r: Parsed<seq<Point>>)
    ensures r == PointsOfList(py, items)
  {
    if items == [] {
      return Ok([]);
    }
    if |items| == 2 && !items[0].List? && !items[0].Object? {
      var point :- PointOf(py, items[0], items[1]);
      return Ok([point]);
    }
    var g :- GatherPoints(py, items);
    if g.scalars != [] {
      if g.points != [] || |g.scalars| % 2 != 0 {
        return Refused;
      }
      r := PairScalars(py, g.scalars);
    } else {
      r := Ok(g.points);
    }
  }

  method GatherPoints(py: Python, items: seq<Json>) returns (r: Parsed<Gathered>)
    ensures r == Gather(py, items)
  {
    var g := Gathered([], []);
    for i := 0 to |items|
      invariant Gather(py, items[..i]) == Ok(g)
    {
      assert items[..i + 1][..i] == items[..i];
      var next := GatherOne(py, g, items[i]);
      if next.IsFailure() {
        GatherFails(py, items, i + 1);
        return next;
      }
      g := next.value;
    }
    assert items[..|items|] == items;
    r := Ok(g);
  }

  method PairScalars(py: Python, scalars: seq<Json>) returns (r: Parsed<seq<Point>>)
    requires |scalars| % 2 == 0
    ensures r == ScalarPoints(py, scalars)
  {
    var points: seq<Point> := [];
    for k := 0 to |scalars| / 2
      invariant ScalarPoints(py, scalars[..2 * k]) == Ok(points)
    {
      assert scalars[..2 * k + 2][..2 * k] == scalars[..2 * k];
      var point := PointOf(py, scalars[2 * k], scalars[2 * k + 1]);
      if point.IsFailure() {
        ScalarsFail(py, scalars, 2 * k + 2);
        return point.PropagateFailure();
      }
      points := points + [point.value];
    }
    assert scalars[..|scalars|] == scalars;
    r := Ok(points);
  }

  /** What fails on a prefix fails in the same way on the whole. */
  lemma {:induction false} GatherFails(py: Python, items: seq<Json>, n: nat)
    requires n <= |items| && Gather(py, items[..n]).IsFailure()
    ensures Gather(py, items) == Gather(py, items[..n])
    decreases |items| - n
  {
    if n == |items| {
      assert items[..n] == items;
    } else {
      assert items[..n + 1][..n] == items[..n];
      GatherFails(py, items, n + 1);
    }
  }

  lemma {:induction false} ScalarsFail(py: Python, scalars: seq<Json>, n: nat)
    requires |scalars| % 2 == 0 && n % 2 == 0 && n <= |scalars| && ScalarPoints(py, scalars[..n]).IsFailure()
    ensures ScalarPoints(py, scalars) == ScalarPoints(py, scalars[..n])
    decreases |scalars| - n
  {
    if n == |scalars| {
      assert scalars[..n] == scalars;
    } else {
      assert scalars[..n + 2][..n] == scalars[..n];
      ScalarsFail(py, scalars, n + 2);
    }
  }

  // ----- keys, categories, extras and parameters -----------------------------------------------

  predicate AllText(items: seq<Json>) {
    forall i: nat | i < |items| :: items[i].Str?
  }

  /** The texts that are not empty, stripped. */
  function StripTexts(items: seq<Json>): seq<string>
    requires AllText(items)
  {
    if items == [] then []
    else if items[0].s == [] then StripTexts(items[1..])
    else [Strip(items[0].s)] + StripTexts(items[1..])
  }

  /** The texts that are not empty when stripped, stripped. */
  function SolidTexts(parts: seq<string>): seq<string> {
    if parts == [] then []
    else if Strip(parts[0]) == [] then SolidTexts(parts[1..])
    else [Strip(parts[0])] + SolidTexts(parts[1..])
  }

  function TextsOf(items: seq<Json>): seq<string>
    requires AllText(items)
  {
    if items == [] then [] else [items[0].s] + TextsOf(items[1..])
  }

  function KeyOf(raw: Json): Parsed<Option<seq<string>>> {
    match raw
    case Null => Ok(None)
    case List(items) => if AllText(items) then Ok(Some(StripTexts(items))) else Refused
    case Str(s) =>
      Ok(Some(if '+' in s then SolidTexts(SplitOn(s, '+'))
              else if ' ' in s then SolidTexts(SplitOn(s, ' '))
              else if ',' in s then SolidTexts(SplitOn(s, ','))
              else [Strip(s)]))
    case _ => Refused
  }

  function CategoriesOf(raw: Json): Parsed<seq<string>> {
    match raw
    case Null => Ok([])
    case Str(s) => Ok(SolidTexts([s]))
    case List(items) => if AllText(items) then Ok(SolidTexts(TextsOf(items))) else Refused
    case _ => Refused
  }

  predicate IsScalar(j: Json) {
    !j.List? && !j.Object?
  }

  function ExtraOf(py: Python, key: Json, value: Json): Parsed<(string, Json)> {
    var name := Strip(TextOf(py, key));
    if name == [] || !IsScalar(value) then Refused else Ok((name, value))
  }

  function ExtrasOfList(py: Python, items: seq<Json>): Parsed<seq<(string, Json)>> {
    if items == [] then Ok([])
    else if !items[0].List? || |items[0].items| != 2 then Refused
    else
      var first :- ExtraOf(py, items[0].items[0], items[0].items[1]);
      var rest :- ExtrasOfList(py, items[1..]);
      Ok([first] + rest)
  }

  function ExtrasOfObject(py: Python, fields: seq<(string, Json)>): Parsed<seq<(string, Json)>> {
    if fields == [] then Ok([]) else
      var first :- ExtraOf(py, Str(fields[0].0), fields[0].1);
      var rest :- ExtrasOfObject(py, fields[1..]);
      Ok([first] + rest)
  }

  function ExtrasOf(py: Python, raw: Json): Parsed<seq<(string, Json)>> {
    match raw
    case Null => Ok([])
    case Object(fields) => ExtrasOfObject(py, fields)
    case List(items) => ExtrasOfList(py, items)
    case _ => Refused
  }

  function ParamsOfObject(fields: seq<(string, Json)>): Parsed<map<string, Json>> {
    if fields == [] then Ok(map[]) else
      var last := fields[|fields| - 1];
      var front :- ParamsOfObject(fields[..|fields| - 1]);
      if Strip(last.0) == [] then Refused else Ok(front[Strip(last.0) := last.1])
  }

  function ParamsOf(raw: Json): Parsed<map<string, Json>> {
    match raw
    case Null => Ok(map[])
    case Object(fields) => ParamsOfObject(fields)
    case _ => Refused
  }

  // ----- validation and the whole ---------------------------------------------------------------

  predicate NeedsStart(kind: Kind) { kind == Tap || kind == LongPress || kind == DoubleTap || NeedsEnd(kind) }

  predicate NeedsEnd(kind: Kind) { kind == Drag || kind == Swipe }

  predicate TakesPoints(kind: Kind) { kind == ClickMulti || kind == ClickThenType }

  predicate NeedsText(kind: Kind) {
    kind == OpenApp || kind == CloseApp || kind == OpenDeeplink
  }

  predicate IsDirection(s: string) { s == "up" || s == "down" || s == "left" || s == "right" }

  predicate Given(s: Option<string>) { s.Some? && s.value != [] }

  predicate Valid(a: Action) {
    && (NeedsStart(a.kind) ==> a.x.Some? && a.y.Some?)
    && (NeedsEnd(a.kind) ==> a.x2.Some? && a.y2.Some? && !(a.x == a.x2 && a.y == a.y2))
    && (a.kind == Hotkey ==> a.key.Some? && a.key.value != [])
    && (a.kind == InputText ==> a.text.Some?)
    && (a.kind == ClickMulti ==> a.points != [])
    && (a.kind == ClickThenType ==> |a.points| == 1 && a.text.Some?)
    && (a.kind == RequestIntervention ==> a.text.Some? && Strip(a.text.value) != [])
    && (a.kind == Scroll ==>
          && a.pixels.Some? && (a.x.Some? <==> a.y.Some?)
          && (a.text.Some? ==> IsDirection(a.text.value)))
    && (NeedsText(a.kind) ==> Given(a.text))
    && (a.kind == OpenIntent ==> Given(a.intentAction))
    && (a.kind == AdbCommand ==> Given(a.commandId) || Given(a.text))
  }

  function PointsEntry(p: Payload): Json {
    if Points in p then p[Points] else if Coordinates in p then p[Coordinates] else Get(p, Coordinate)
  }

  /** The point of the coordinates, for the actions that work on points and were given none. */
  function DefaultPoints(kind: Kind, x: Option<real>, y: Option<real>): seq<Point> {
    if TakesPoints(kind) && x.Some? && y.Some? then [(x.value, y.value)] else []
  }

  function FlagOf(p: Payload, field: Field, default: bool): bool {
    if field in p then Truthy(p[field]) else default
  }

  function Fields(py: Python, p: Payload, kind: Kind): Parsed<Action> {
    var x :- OptionalFloat(py, p, X);
    var y :- OptionalFloat(py, p, Y);
    var x2 :- OptionalFloat(py, p, X2);
    var y2 :- OptionalFloat(py, p, Y2);
    var points :- PointsOf(py, PointsEntry(p));
    var key :- KeyOf(Get(p, Key));
    var pixels :- OptionalInt(p, Pixels);
    var durationMs :- OptionalInt(p, DurationMs);
    var categories :- CategoriesOf(Get(p, Categories));
    var extras :- ExtrasOf(py, Get(p, Extras));
    var command := OptionalStr(py, p, CommandId);
    var params :- ParamsOf(if Params in p then p[Params] else Get(p, Arguments));
    Ok(Action(
         kind, x, y, x2, y2, if points == [] then DefaultPoints(kind, x, y) else points,
         TextField(py, p, kind), key, pixels, durationMs,
         OptionalStr(py, p, Component), OptionalStr(py, p, Package),
         OptionalStr(py, p, IntentAction), OptionalStr(py, p, MimeType),
         categories, extras, if Given(command) then command else OptionalStr(py, p, Command), params,
         FlagOf(p, Relative, false), OptionalStr(py, p, Status), FlagOf(p, AutoEnter, true)))
  }

  function Parse(py: Python, payload: Payload): Parsed<Action> {
    ParseRepaired(py, Normalised(py, payload))
  }

  function ParseRepaired(py: Python, p: Payload): Parsed<Action> {
    if !Truthy(RawType(p)) then Refused else
      match KindOfRaw(py, RawType(p))
      case None => Refused
      case Some(kind) => var a :- Fields(py, p, kind); if Valid(a) then Ok(a) else Refused
  }

  /** `parse_action`: the repairs in place on a copy, then the fields. */
  method ParseAction(py: Python, payload: Payload) returns (r: Parsed<Action>)
    ensures r == Parse(py, payload)
  {
    var normalized := new Dict(payload);
    normalized.Normalize(py);
    var p := normalized.fields;
    var raw := RawType(p);
    if !Truthy(raw) {
      return Refused;
    }
    var kind := KindOfRaw(py, raw);
    if kind == None {
      return Refused;
    }
    var a :- Fields(py, p, kind.value);
    return if Valid(a) then Ok(a) else Refused;
  }
}
