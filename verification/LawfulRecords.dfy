/** The laws that the bank's file asks of its reader can be met: no printed record is the beginning
    of another, so a reader can tell them apart. */
module LawfulRecords {
  import opened JsonRecords
  import opened MemoryRecords
  import opened Text
  import opened Wrappers

  // ----- texts and names are read one after the other --------------------------------------

  lemma CutFront(front: string, a: string, b: string)
    requires front + a == front + b
    ensures a == b
  {
    assert (front + a)[|front|..] == a && (front + b)[|front|..] == b;
  }

  lemma HexDiffers(m: nat, n: nat)
    requires m < 16 && n < 16 && HexDigit(m) == HexDigit(n)
    ensures m == n
  {
  }

  lemma EscapesDiffer(c: char, d: char)
    requires EscapedChar(c) == EscapedChar(d)
    ensures c == d
  {
    var e := EscapedChar(c);
    if |e| == 6 {
      assert e[4] == HexDigit(c as int / 16) == HexDigit(d as int / 16);
      assert e[5] == HexDigit(c as int % 16) == HexDigit(d as int % 16);
      HexDiffers(c as int / 16, d as int / 16);
      HexDiffers(c as int % 16, d as int % 16);
    }
  }

  /** The first two characters say how long an escape is. */
  lemma EscapeLength(c: char)
    ensures var e := EscapedChar(c);
            && |e| >= 1 && (e[0] != '\\' <==> |e| == 1)
            && (|e| > 1 ==> (e[1] == 'u' <==> |e| == 6) && (e[1] != 'u' <==> |e| == 2))
  {
  }

  lemma SameChar(c: char, d: char, a: string, b: string)
    requires EscapedChar(c) + a == EscapedChar(d) + b
    ensures c == d && a == b
  {
    var e, f := EscapedChar(c), EscapedChar(d);
    EscapeLength(c);
    EscapeLength(d);
    assert (e + a)[0] == e[0] && (f + b)[0] == f[0];
    if |e| > 1 {
      assert (e + a)[1] == e[1] && (f + b)[1] == f[1];
    }
    assert e == (e + a)[..|e|] == (f + b)[..|f|] == f;
    CutFront(e, a, b);
    EscapesDiffer(c, d);
  }

  predicate StartsQuoted(s: string) {
    s != "" && s[0] == '"'
  }

  lemma EscapedStarts(s: string, rest: string)
    requires s != ""
    ensures Escaped(s) + rest != "" && (Escaped(s) + rest)[0] != '"'
  {
    EscapeShape(s[0]);
  }

  /** A text ends at the first quote that is not escaped. */
  lemma {:induction false} SameText(s: string, t: string, a: string, b: string)
    requires StartsQuoted(a) && StartsQuoted(b) && Escaped(s) + a == Escaped(t) + b
    ensures s == t && a == b
    decreases |s|
  {
    if s == "" || t == "" {
      if s != "" { EscapedStarts(s, a); }
      if t != "" { EscapedStarts(t, b); }
      assert "" + a == a && "" + b == b;
    } else {
      Associate(EscapedChar(s[0]), Escaped(s[1..]), a);
      Associate(EscapedChar(t[0]), Escaped(t[1..]), b);
      SameChar(s[0], t[0], Escaped(s[1..]) + a, Escaped(t[1..]) + b);
      SameText(s[1..], t[1..], a, b);
      assert s == [s[0]] + s[1..] && t == [t[0]] + t[1..];
    }
  }

  lemma RestIsQuoted(fields: seq<(string, string)>, tail: string)
    requires StartsQuoted(tail)
    ensures StartsQuoted(Rest(fields, tail))
  {
  }

  ghost predicate SameNames(fields: seq<(string, string)>, others: seq<(string, string)>) {
    |fields| == |others| && forall i: nat | i < |fields| :: fields[i].0 == others[i].0
  }

  lemma {:induction false} SameFields(fields: seq<(string, string)>, others: seq<(string, string)>, a: string, b: string)
    requires SameNames(fields, others) && StartsQuoted(a) && StartsQuoted(b)
    requires Rest(fields, a) == Rest(others, b)
    ensures fields == others && a == b
    decreases |fields|
  {
    if fields != [] {
      var text, other := fields[0].1, others[0].1;
      var more, more' := Rest(fields[1..], a), Rest(others[1..], b);
      CutFront(Key(fields[0].0), Escaped(text) + more, Escaped(other) + more');
      RestIsQuoted(fields[1..], a);
      RestIsQuoted(others[1..], b);
      SameText(text, other, more, more');
      SameFields(fields[1..], others[1..], a, b);
      assert fields == [fields[0]] + fields[1..] && others == [others[0]] + others[1..];
    }
  }

  lemma {:induction false} RestGoesOn(fields: seq<(string, string)>, tail: string, later: string)
    ensures Rest(fields, tail) + later == Rest(fields, tail + later)
  {
    if fields != [] {
      RestGoesOn(fields[1..], tail, later);
      Associate(Escaped(fields[0].1), Rest(fields[1..], tail), later);
      Associate(Key(fields[0].0), Escaped(fields[0].1) + Rest(fields[1..], tail), later);
    }
  }

  // ----- a record is read to its end ----------------------------------------------------------

  /** Timestamps print differently, on one line, and without quotes, backslashes and braces. */
  ghost predicate PlainTimes(showTime: int -> string) {
    && (forall s: int, t: int :: showTime(s) == showTime(t) ==> s == t)
    && (forall t: int :: OneLine(showTime(t)) && IsPlain(showTime(t)))
  }

  predicate IsPlain(s: string) {
    forall c | c in s :: c != '"' && c != '\\' && c != '}'
  }

  lemma FirstBrace(u: string, a: string)
    requires IsPlain(u)
    ensures var s := u + (['}'] + a);
            && (forall i: nat | i < |u| :: s[i] != '}')
            && s[|u|] == '}' && s[..|u|] == u && s[|u| + 1..] == a
  {
    assert forall i: nat | i < |u| :: u[i] in u;
  }

  lemma UpToBrace(u: string, v: string, a: string, b: string)
    requires IsPlain(u) && IsPlain(v) && u + (['}'] + a) == v + (['}'] + b)
    ensures u == v && a == b
  {
    FirstBrace(u, a);
    FirstBrace(v, b);
  }

  function FirstFields(x: Item): seq<(string, string)> {
    [("description", x.description), ("content", x.content), ("status", StatusText(x.status))]
  }

  /** What is printed after the status. */
  function Last(x: Item, codec: Codec): string {
    if x.app.Some? then Rest([("app", x.app.value)], Tail(x, codec)) else Tail(x, codec)
  }

  lemma {:induction false} RestOfBoth(a: seq<(string, string)>, b: seq<(string, string)>, tail: string)
    ensures Rest(a + b, tail) == Rest(a, Rest(b, tail))
  {
    if a == [] {
      assert a + b == b;
    } else {
      assert (a + b)[1..] == a[1..] + b;
      RestOfBoth(a[1..], b, tail);
    }
  }

  lemma DumpGoesOn(x: Item, codec: Codec, later: string)
    ensures Dump(x, codec) + later == Start("title") + (Escaped(x.title) + Rest(FirstFields(x), Last(x, codec) + later))
  {
    var rest := Rest(FirstFields(x), Last(x, codec));
    RestOfBoth(FirstFields(x), if x.app.Some? then [("app", x.app.value)] else [], Tail(x, codec));
    assert Rest(OtherFields(x), Tail(x, codec)) == rest;
    RestGoesOn(FirstFields(x), Last(x, codec), later);
    Associate(Escaped(x.title), rest, later);
    Associate(Start("title"), Escaped(x.title) + rest, later);
  }

  lemma TailGoesOn(x: Item, codec: Codec, later: string)
    ensures Tail(x, codec) + later ==
            ['"', ',', ' ', '"'] + (Ending(x) + (codec.showTime(x.createdAt) + (['}'] + later)))
  {
    var time := codec.showTime(x.createdAt);
    Associate(time, ['}'], later);
    Associate(Ending(x), time + ['}'], later);
    Associate(['"', ',', ' ', '"'], Ending(x) + (time + ['}']), later);
  }

  lemma SameTail(x: Item, y: Item, codec: Codec, a: string, b: string)
    requires PlainTimes(codec.showTime) && x.app.Some? == y.app.Some?
    requires Tail(x, codec) + a == Tail(y, codec) + b
    ensures x.createdAt == y.createdAt && a == b
  {
    TailGoesOn(x, codec, a);
    TailGoesOn(y, codec, b);
    var u, v := codec.showTime(x.createdAt), codec.showTime(y.createdAt);
    CutFront(['"', ',', ' ', '"'], Ending(x) + (u + (['}'] + a)), Ending(y) + (v + (['}'] + b)));
    CutFront(Ending(x), u + (['}'] + a), v + (['}'] + b));
    UpToBrace(u, v, a, b);
  }

  lemma RestOfOne(name: string, text: string, tail: string)
    ensures Rest([(name, text)], tail) == Key(name) + (Escaped(text) + tail)
  {
    assert [(name, text)][1..] == [] && Rest([], tail) == tail;
  }

  /** After the names of the two ways to go on, one has a quote and the other a letter. */
  lemma AppOrNull(x: Item, codec: Codec, later: string)
    ensures var s := Last(x, codec) + later;
            StartsQuoted(s) && |s| > 10 && (s[10] == '"' <==> x.app.Some?)
  {
    if x.app.Some? {
      RestOfOne("app", x.app.value, Tail(x, codec));
      assert Last(x, codec) == Key("app") + (Escaped(x.app.value) + Tail(x, codec));
      assert Key("app")[10] == '"';
    } else {
      TailGoesOn(x, codec, later);
      assert Ending(x)[6] == 'n';
    }
  }

  lemma LastGoesOn(x: Item, codec: Codec, later: string)
    requires x.app.Some?
    ensures Last(x, codec) + later == Rest([("app", x.app.value)], Tail(x, codec) + later)
  {
    RestGoesOn([("app", x.app.value)], Tail(x, codec), later);
  }

  lemma SameLast(x: Item, y: Item, codec: Codec, a: string, b: string)
    requires PlainTimes(codec.showTime) && Last(x, codec) + a == Last(y, codec) + b
    ensures x.app == y.app && x.createdAt == y.createdAt && a == b
  {
    AppOrNull(x, codec, a);
    AppOrNull(y, codec, b);
    if x.app.Some? {
      LastGoesOn(x, codec, a);
      LastGoesOn(y, codec, b);
      SameFields([("app", x.app.value)], [("app", y.app.value)], Tail(x, codec) + a, Tail(y, codec) + b);
    }
    SameTail(x, y, codec, a, b);
  }

  /** No printed record is the beginning of another: where two texts that begin with one are equal,
      the records are, and what follows them. */
  lemma RecordIsReadToItsEnd(x: Item, y: Item, codec: Codec, a: string, b: string)
    requires PlainTimes(codec.showTime) && Dump(x, codec) + a == Dump(y, codec) + b
    ensures x == y && a == b
  {
    DumpGoesOn(x, codec, a);
    DumpGoesOn(y, codec, b);
    var rest, rest' := Rest(FirstFields(x), Last(x, codec) + a), Rest(FirstFields(y), Last(y, codec) + b);
    CutFront(Start("title"), Escaped(x.title) + rest, Escaped(y.title) + rest');
    AppOrNull(x, codec, a);
    AppOrNull(y, codec, b);
    SameText(x.title, y.title, rest, rest');
    SameFields(FirstFields(x), FirstFields(y), Last(x, codec) + a, Last(y, codec) + b);
    SameLast(x, y, codec, a, b);
    assert FirstFields(x)[0] == FirstFields(y)[0] && FirstFields(x)[1] == FirstFields(y)[1];
    assert FirstFields(x)[2] == FirstFields(y)[2];
  }

  // ----- a reader -------------------------------------------------------------------------------

  lemma {:induction false} PlainStaysOutside(s: string)
    requires forall c | c in s :: c != '"' && c != '\\'
    ensures Scan(s, Outside) == Outside
  {
    if s != [] {
      assert s[0] in s && forall c | c in s[1..] :: c in s;
      PlainStaysOutside(s[1..]);
    }
  }

  lemma {:induction false} RestGoesOutside(fields: seq<(string, string)>, tail: string)
    requires AreNamed(fields) && Scan(tail, Inside) == Outside
    ensures Scan(Rest(fields, tail), Inside) == Outside
  {
    if fields != [] {
      var name, text, more := fields[0].0, Escaped(fields[0].1), Rest(fields[1..], tail);
      assert IsName(name);
      RestGoesOutside(fields[1..], tail);
      KeyGoesInside(name);
      TextStaysInside(fields[0].1);
      ScanBoth(text, more, Inside);
      ScanBoth(Key(name), text + more, Inside);
    }
  }

  lemma NamedGoesOutside(name: string, value: string)
    requires forall c | c in name + value :: c != '"' && c != '\\'
    ensures Scan(Named(name, value), Inside) == Outside
  {
    assert forall c | c in name :: c in name + value;
    assert forall c | c in value :: c in name + value;
    WordsStayInside(name);
    ScanTwo('"', ':', Inside);
    PlainStaysOutside(value);
    ScanBoth(['"', ':'], value, Inside);
    ScanBoth(name, ['"', ':'] + value, Inside);
  }

  lemma OverQuote(start: string, end: string)
    requires Scan(start, Inside) == Scan(end, Inside) == Outside
    ensures Scan(start + (['"'] + end), Inside) == Outside
  {
    ScanOne('"', Outside);
    ScanBoth(['"'], end, Outside);
    ScanBoth(start, ['"'] + end, Inside);
  }

  lemma EndingGoesOutside(x: Item)
    ensures Scan(Ending(x), Inside) == Outside
  {
    NamedGoesOutside("created_at", " ");
    NamedGoesOutside("app", " null, ");
    OverQuote(Named("app", " null, "), Named("created_at", " "));
  }

  lemma TailGoesOutside(x: Item, codec: Codec)
    requires IsPlain(codec.showTime(x.createdAt))
    ensures Scan(Tail(x, codec), Inside) == Outside
  {
    var end := codec.showTime(x.createdAt) + ['}'];
    QuoteToQuote(',', Inside);
    EndingGoesOutside(x);
    PlainStaysOutside(end);
    ScanBoth(Ending(x), end, Inside);
    ScanBoth(['"', ',', ' ', '"'], Ending(x) + end, Inside);
  }

  lemma PrintedMayBeRecord(x: Item, codec: Codec)
    requires IsPlain(codec.showTime(x.createdAt))
    ensures MayBeRecord(Dump(x, codec))
  {
    var rest := Rest(OtherFields(x), Tail(x, codec));
    FieldsAreNamed(x);
    KeyGoesInside("title");
    TextStaysInside(x.title);
    TailGoesOutside(x, codec);
    RestGoesOutside(OtherFields(x), Tail(x, codec));
    ScanBoth(Escaped(x.title), rest, Inside);
    ScanBoth(Start("title"), Escaped(x.title) + rest, Outside);
    assert Dump(x, codec)[1] == '"';
  }

  function Printer(showTime: int -> string): Codec {
    Codec(showTime, _ => None)
  }

  /** Reads exactly what is printed. */
  ghost function ReadBack(showTime: int -> string, line: string): Option<Item> {
    if x: Item :| Dump(x, Printer(showTime)) == line then Some(x) else None
  }

  lemma ReadsWhatIsPrinted(showTime: int -> string, line: string, x: Item)
    requires PlainTimes(showTime)
    ensures ReadBack(showTime, line) == Some(x) <==> Dump(x, Printer(showTime)) == line
  {
    if Dump(x, Printer(showTime)) == line {
      var y := ReadBack(showTime, line).value;
      assert Dump(x, Printer(showTime)) + "" == Dump(y, Printer(showTime)) + "";
      RecordIsReadToItsEnd(x, y, Printer(showTime), "", "");
    }
  }

  lemma TwoAreNone(showTime: int -> string, x: Item, y: Item)
    requires PlainTimes(showTime)
    ensures ReadBack(showTime, Dump(x, Printer(showTime)) + Dump(y, Printer(showTime))) == None
  {
    var printer := Printer(showTime);
    var line := Dump(x, printer) + Dump(y, printer);
    if ReadBack(showTime, line).Some? {
      var z := ReadBack(showTime, line).value;
      assert Dump(z, printer) == line;
      assert Dump(z, printer) + "" == Dump(x, printer) + Dump(y, printer);
      RecordIsReadToItsEnd(z, x, printer, "", Dump(y, printer));
      DumpEnds(y, printer);
    }
  }

  lemma SamePrint(x: Item, a: Codec, b: Codec)
    requires a.showTime == b.showTime
    ensures Dump(x, a) == Dump(x, b)
  {
  }

  /** Where timestamps are printed so, there is a reader that obeys the laws. */
  lemma SomeReaderIsLawful(showTime: int -> string) returns (loads: string -> Option<Item>)
    requires PlainTimes(showTime)
    ensures Lawful(Codec(showTime, loads))
  {
    loads := line => ReadBack(showTime, line);
    var codec, printer := Codec(showTime, loads), Printer(showTime);
    forall x: Item ensures Dump(x, codec) == Dump(x, printer) && loads(Dump(x, codec)) == Some(x) {
      SamePrint(x, codec, printer);
      ReadsWhatIsPrinted(showTime, Dump(x, printer), x);
    }
    forall line: string | loads(line).Some? ensures MayBeRecord(line) {
      ReadsWhatIsPrinted(showTime, line, loads(line).value);
      PrintedMayBeRecord(loads(line).value, printer);
    }
    forall x: Item, y: Item ensures loads(Dump(x, codec) + Dump(y, codec)) == None {
      SamePrint(x, codec, printer);
      SamePrint(y, codec, printer);
      TwoAreNone(showTime, x, y);
    }
  }
}
