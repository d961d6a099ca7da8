/** The JSON payload of an action, and the repairs made to its coordinates in place before it is
    parsed. */
module ActionPayload {
  import opened Wrappers
  import opened Text
  import opened ActionTypes

  datatype Json =
    | Null
    | Bool(b: bool)
    | Int(n: int)
    | Float(x: real)
    | Str(s: string)
    | List(items: seq<Json>)
    | Object(fields: seq<(string, Json)>)

  /** The names under which an action's payload is read. */
  datatype Field =
    | ActionType | ActionName | X | Y | X2 | Y2
    | Coordinate | StartCoordinate | Coordinate2 | EndCoordinate | Points | Coordinates
    | Direction | Text | Key | Pixels | DurationMs | Component | Package | IntentAction | MimeType
    | Categories | Extras | CommandId | Command | Params | Arguments | Relative | Status | AutoEnter

  type Payload = map<Field, Json>

  /** What Python's library computes: `str.lower`, `str` of anything but a string, `float` of a
      string, `json.loads`, and the numbers a regular expression finds. None is an exception. */
  datatype Python = Python(lower: string -> string, show: Json -> string, readFloat: string -> Option<real>,
                           loads: string -> Option<Json>, findNumbers: string -> seq<real>)

  function Get(p: Payload, field: Field): Json {
    if field in p then p[field] else Null
  }

  predicate Truthy(j: Json) {
    match j
    case Null => false
    case Bool(b) => b
    case Int(n) => n != 0
    case Float(x) => x != 0.0
    case Str(s) => s != []
    case List(items) => items != []
    case Object(fields) => fields != []
  }

  function TextOf(py: Python, j: Json): string {
    if j.Str? then j.s else py.show(j)
  }

  function FloatOf(py: Python, j: Json): Option<real> {
    match j
    case Bool(b) => Some(if b then 1.0 else 0.0)
    case Int(n) => Some(n as real)
    case Float(x) => Some(x)
    case Str(s) => py.readFloat(s)
    case _ => None
  }

  /** Numbers are equal by value, whatever their types; booleans are numbers. */
  predicate SameValue(a: Json, b: Json) {
    if IsNumber(a) && IsNumber(b) then NumberOf(a) == NumberOf(b) else a == b
  }

  predicate IsNumber(j: Json) {
    j.Bool? || j.Int? || j.Float?
  }

  function NumberOf(j: Json): real
    requires IsNumber(j)
  {
    match j
    case Bool(b) => if b then 1.0 else 0.0
    case Int(n) => n as real
    case Float(x) => x
  }

  function RawType(p: Payload): Json {
    if Truthy(Get(p, ActionType)) then Get(p, ActionType)
    else if Truthy(Get(p, ActionName)) then Get(p, ActionName)
    else Str([])
  }

  function KindOfRaw(py: Python, raw: Json): Option<Kind> {
    KindOf(py.lower(Strip(TextOf(py, raw))))
  }

  // ----- what the repairs do ---------------------------------------------------------

  /** A list, or a text that is one. */
  function Coerce(py: Python, j: Json): Option<seq<Json>> {
    match j
    case List(items) => Some(items)
    case Str(s) =>
      var t := Strip(s);
      if t != [] && t[0] == '[' && t[|t| - 1] == ']' then
        match py.loads(t)
        case Some(List(items)) => Some(items)
        case _ => None
      else None
    case _ => None
  }

  predicate HasItems(py: Python, j: Json, n: nat) {
    Coerce(py, j).Some? && |Coerce(py, j).value| == n
  }

  function Item(py: Python, j: Json, i: nat): Json
    requires Coerce(py, j).Some? && i < |Coerce(py, j).value|
  {
    Coerce(py, j).value[i]
  }

  predicate Missing(j: Json) {
    j == Null || j == List([])
  }

  function FillMissing(p: Payload, field: Field, value: Json): Payload {
    if Missing(Get(p, field)) then p[field := value] else p
  }

  function NamedPair(py: Python, p: Payload, source: Field, primary: Field, secondary: Field): Payload {
    var value := Get(p, source);
    if HasItems(py, value, 2) then
      FillMissing(FillMissing(p, primary, Item(py, value, 0)), secondary, Item(py, value, 1))
    else p
  }

  function SetPath(py: Python, p: Payload, path: Json): Payload
    requires HasItems(py, path, 4)
  {
    p[X := Item(py, path, 0)][Y := Item(py, path, 1)][X2 := Item(py, path, 2)][Y2 := Item(py, path, 3)]
  }

  function NamedCoordinates(py: Python, p: Payload): Payload {
    var p1 := NamedPair(py, p, Coordinate, X, Y);
    var p2 := NamedPair(py, p1, StartCoordinate, X, Y);
    var p3 := NamedPair(py, p2, Coordinate2, X2, Y2);
    CompactCoordinate(py, NamedPair(py, p3, EndCoordinate, X2, Y2))
  }

  function CompactCoordinate(py: Python, p: Payload): Payload {
    var path := Get(p, Coordinate);
    if HasItems(py, path, 4) && Get(p, X) == Get(p, Y) == Get(p, X2) == Get(p, Y2) == Null then SetPath(py, p, path)
    else p
  }

  function CompactPath(py: Python, p: Payload): Payload {
    var path := Get(p, X);
    if HasItems(py, path, 4) && Get(p, Y) == Get(p, X2) == Get(p, Y2) == Null then SetPath(py, p, path) else p
  }

  /** The primary entry was a list of one, or the pair that belongs to both. */
  function FromPrimary(p: Payload, primary: Field, secondary: Field, items: seq<Json>): Payload {
    if |items| == 1 then p[primary := items[0]]
    else if |items| == 2 then FillPair(p, primary, secondary, items[0], items[1], Missing(Get(p, secondary)))
    else p
  }

  function FillPair(p: Payload, primary: Field, secondary: Field, first: Json, second: Json, both: bool): Payload {
    if both then p[primary := first][secondary := second] else p[primary := first]
  }

  /** The secondary entry was a list of one, of the same value twice, or the pair that belongs to
      both, the primary being absent. */
  function FromSecondary(p: Payload, primary: Field, secondary: Field, items: seq<Json>, alone: bool): Payload {
    if |items| == 1 then p[secondary := items[0]]
    else if |items| == 2 then
      if SameValue(items[0], items[1]) then p[secondary := items[0]]
      else if alone then p[primary := items[0]][secondary := items[1]]
      else p
    else p
  }

  function Pair(py: Python, p: Payload, primary: Field, secondary: Field): Payload {
    var first, second := Get(p, primary), Get(p, secondary);
    var q := FromPrimary(p, primary, secondary, Coerce(py, first).GetOr([]));
    FromSecondary(q, primary, secondary, Coerce(py, second).GetOr([]), Missing(first))
  }

  /** The fields of one point. */
  predicate IsPoint(primary: Field, secondary: Field) {
    (primary == X && secondary == Y) || (primary == X2 && secondary == Y2)
  }

  function StartFor(end: real): real {
    var start := if end >= 499.5 then end - 250.0 else end + 250.0;
    if start > 999.0 then 999.0 else if start < 0.0 then 0.0 else start
  }

  /** A path that has only its end is given a start. */
  function EndpointOnly(py: Python, p: Payload): Payload {
    var kind := KindOfRaw(py, RawType(p));
    if kind != Some(Swipe) && kind != Some(Drag) then p
    else if Get(p, X2) == Null || Get(p, Y2) == Null then p
    else if Get(p, X) != Null && Get(p, Y) != Null then p
    else
      match (FloatOf(py, Get(p, X2)), FloatOf(py, Get(p, Y2)))
      case (Some(endX), Some(endY)) =>
        var q := if Get(p, X) == Null then p[X := Float(endX)] else p;
        if Get(p, Y) == Null then q[Y := Float(StartFor(endY))] else q
      case _ => p
  }

  function Normalised(py: Python, p: Payload): Payload {
    EndpointOnly(py, Pair(py, Pair(py, CompactPath(py, NamedCoordinates(py, p)), X, Y), X2, Y2))
  }

  // ----- the repairs, in place ---------------------------------------------------------

  class Dict {
    var fields: Payload

    constructor (p: Payload)
      ensures fields == p
    {
      fields := p;
    }

    method SetDefault(field: Field, value: Json)
      modifies this
      ensures fields == FillMissing(old(fields), field, value)
    {
      if Missing(Get(fields, field)) {
        fields := fields[field := value];
      }
    }

    method NormalizeNamedPair(py: Python, source: Field, primary: Field, secondary: Field)
      modifies this
      ensures fields == NamedPair(py, old(fields), source, primary, secondary)
    {
      var items := Coerce(py, Get(fields, source));
      if items.Some? && |items.value| == 2 {
        SetDefault(primary, items.value[0]);
        SetDefault(secondary, items.value[1]);
      }
    }

    method SetFour(items: seq<Json>)
      requires |items| == 4
      modifies this
      ensures fields == old(fields)[X := items[0]][Y := items[1]][X2 := items[2]][Y2 := items[3]]
    {
      fields := fields[X := items[0]];
      fields := fields[Y := items[1]];
      fields := fields[X2 := items[2]];
      fields := fields[Y2 := items[3]];
    }

    method NormalizeNamedCoordinates(py: Python)
      modifies this
      ensures fields == NamedCoordinates(py, old(fields))
    {
      NormalizeNamedPair(py, Coordinate, X, Y);
      NormalizeNamedPair(py, StartCoordinate, X, Y);
      NormalizeNamedPair(py, Coordinate2, X2, Y2);
      NormalizeNamedPair(py, EndCoordinate, X2, Y2);
      var compact := Coerce(py, Get(fields, Coordinate));
      if compact.Some? && |compact.value| == 4
         && Get(fields, X) == Null && Get(fields, Y) == Null && Get(fields, X2) == Null && Get(fields, Y2) == Null {
        SetFour(compact.value);
      }
    }

    method NormalizeCompactPath(py: Python)
      modifies this
      ensures fields == CompactPath(py, old(fields))
    {
      var items := Coerce(py, Get(fields, X));
      if items.Some? && |items.value| == 4
         && Get(fields, Y) == Null && Get(fields, X2) == Null && Get(fields, Y2) == Null {
        SetFour(items.value);
      }
    }

    method TakePrimary(primary: Field, secondary: Field, items: seq<Json>)
      requires IsPoint(primary, secondary)
      modifies this
      ensures fields == FromPrimary(old(fields), primary, secondary, items)
    {
      var missing := Missing(Get(fields, secondary));
      if |items| == 1 {
        fields := fields[primary := items[0]];
      } else if |items| == 2 {
        fields := fields[primary := items[0]];
        if missing {
          fields := fields[secondary := items[1]];
        }
      }
    }

    method TakeSecondary(primary: Field, secondary: Field, items: seq<Json>, alone: bool)
      requires IsPoint(primary, secondary)
      modifies this
      ensures fields == FromSecondary(old(fields), primary, secondary, items, alone)
    {
      if |items| == 1 {
        fields := fields[secondary := items[0]];
      } else if |items| == 2 {
        if SameValue(items[0], items[1]) {
          fields := fields[secondary := items[0]];
        } else if alone {
          fields := fields[primary := items[0]];
          fields := fields[secondary := items[1]];
        }
      }
    }

    method NormalizePair(py: Python, primary: Field, secondary: Field)
      requires IsPoint(primary, secondary)
      modifies this
      ensures fields == Pair(py, old(fields), primary, secondary)
    {
      var first, second := Get(fields, primary), Get(fields, secondary);
      TakePrimary(primary, secondary, Coerce(py, first).GetOr([]));
      TakeSecondary(primary, secondary, Coerce(py, second).GetOr([]), Missing(first));
    }

    method NormalizeEndpointOnly(py: Python)
      modifies this
      ensures fields == EndpointOnly(py, old(fields))
    {
      var kind := KindOfRaw(py, RawType(fields));
      if kind != Some(Swipe) && kind != Some(Drag) {
        return;
      }
      var x, y := Get(fields, X), Get(fields, Y);
      if Get(fields, X2) == Null || Get(fields, Y2) == Null || (x != Null && y != Null) {
        return;
      }
      var endX, endY := FloatOf(py, Get(fields, X2)), FloatOf(py, Get(fields, Y2));
      if endX == None || endY == None {
        return;
      }
      if x == Null {
        fields := fields[X := Float(endX.value)];
      }
      if y == Null {
        fields := fields[Y := Float(StartFor(endY.value))];
      }
    }

    method Normalize(py: Python)
      modifies this
      ensures fields == Normalised(py, old(fields))
    {
      NormalizeNamedCoordinates(py);
      NormalizeCompactPath(py);
      NormalizePair(py, X, Y);
      NormalizePair(py, X2, Y2);
      NormalizeEndpointOnly(py);
    }
  }
}
