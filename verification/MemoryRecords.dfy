/** The file of the memory bank: one JSON record a line, appended to and read line by line. */
module MemoryRecords {
  import opened JsonRecords
  import opened Text
  import opened Wrappers

  datatype Status = Success | Failure

  /** A timestamp is a token. */
  datatype Item = Item(
    title: string, description: string, content: string, status: Status, app: Option<string>, createdAt: int)

  /** How timestamps are printed, and the item that a line is read as, if it is valid. */
  datatype Codec = Codec(showTime: int -> string, loads: string -> Option<Item>)

  function StatusText(status: Status): string {
    if status == Success then "success" else "failure"
  }

  function OtherFields(x: Item): seq<(string, string)> {
    [("description", x.description), ("content", x.content), ("status", StatusText(x.status))]
    + if x.app.Some? then [("app", x.app.value)] else []
  }

  /** The rest of a name, and what follows it before the next text. */
  function Named(name: string, value: string): string {
    name + (['"', ':'] + value)
  }

  /** What comes after the last text. */
  function Ending(x: Item): string {
    if x.app.Some? then Named("created_at", " ") else Named("app", " null, ") + (['"'] + Named("created_at", " "))
  }

  function Tail(x: Item, codec: Codec): string {
    ['"', ',', ' ', '"'] + (Ending(x) + (codec.showTime(x.createdAt) + ['}']))
  }

  function Dump(x: Item, codec: Codec): string {
    Record("title", x.title, OtherFields(x), Tail(x, codec))
  }

  /** None of the four texts has a line break that JSON leaves as it is. */
  predicate Clean(x: Item) {
    CleanText(x.title) && CleanText(x.description) && CleanText(x.content) && CleanText(x.app.GetOr(""))
  }

  /** A printed item is read as itself; what is read as an item may be a record, lexically; and two
      records on one line are none. */
  ghost predicate Lawful(codec: Codec) {
    && (forall t: int :: OneLine(codec.showTime(t)))
    && (forall x: Item :: codec.loads(Dump(x, codec)) == Some(x))
    && (forall line: string :: codec.loads(line).Some? ==> MayBeRecord(line))
    && (forall x: Item, y: Item :: codec.loads(Dump(x, codec) + Dump(y, codec)) == None)
  }

  function LoadLines(lines: seq<string>, codec: Codec): seq<Item> {
    if lines == [] then [] else
      var later := LoadLines(lines[1..], codec);
      if Strip(lines[0]) == "" || codec.loads(lines[0]) == None then later
      else [codec.loads(lines[0]).value] + later
  }

  function Load(text: string, codec: Codec): seq<Item> {
    LoadLines(SplitLines(text), codec)
  }

  function Line(x: Item, codec: Codec): string {
    Dump(x, codec) + "\n"
  }

  function Lines(items: seq<Item>, codec: Codec): string {
    if items == [] then "" else Lines(items[..|items| - 1], codec) + Line(items[|items| - 1], codec)
  }

  function CleanOnes(items: seq<Item>): seq<Item> {
    if items == [] then [] else
      var front, last := CleanOnes(items[..|items| - 1]), items[|items| - 1];
      if Clean(last) then front + [last] else front
  }

  // ----- one record -----------------------------------------------------------------------

  lemma FieldsAreNamed(x: Item)
    ensures AreNamed(OtherFields(x)) && IsName("title")
  {
    assert IsName("description") && IsName("content") && IsName("status") && IsName("app");
  }

  lemma EndingStarts(x: Item)
    ensures Ending(x) != "" && IsLetter(Ending(x)[0]) && OneLine(Ending(x))
  {
  }

  lemma TailIsTail(x: Item, codec: Codec)
    requires OneLine(codec.showTime(x.createdAt))
    ensures IsTail(Tail(x, codec)) && Tail(x, codec)[|Tail(x, codec)| - 1] == '}'
  {
    EndingStarts(x);
    var end := codec.showTime(x.createdAt) + ['}'];
    OneLineBoth(codec.showTime(x.createdAt), ['}']);
    OneLineBoth(Ending(x), end);
    OneLineBoth(['"', ',', ' ', '"'], Ending(x) + end);
  }

  lemma FieldsAreCleanIff(x: Item)
    ensures Clean(x) <==> CleanText(x.title) && AllClean(OtherFields(x))
  {
    var fields := OtherFields(x);
    assert CleanText(StatusText(x.status));
    assert fields[0].1 == x.description && fields[1].1 == x.content && fields[2].1 == StatusText(x.status);
    assert x.app.Some? ==> |fields| == 4 && fields[3].1 == x.app.value;
    assert x.app.None? ==> |fields| == 3;
  }

  lemma {:induction false} RestEnds(fields: seq<(string, string)>, tail: string)
    requires tail != ""
    ensures Rest(fields, tail) != "" && Rest(fields, tail)[|Rest(fields, tail)| - 1] == tail[|tail| - 1]
  {
    if fields != [] {
      RestEnds(fields[1..], tail);
    }
  }

  lemma DumpEnds(x: Item, codec: Codec)
    requires OneLine(codec.showTime(x.createdAt))
    ensures var s := Dump(x, codec); s != "" && s[0] == '{' && s[|s| - 1] == '}'
  {
    TailIsTail(x, codec);
    RestEnds(OtherFields(x), Tail(x, codec));
  }

  lemma {:induction false} NothingLoads(lines: seq<string>, codec: Codec)
    requires Lawful(codec) && NoneIsRecord(lines)
    ensures LoadLines(lines, codec) == []
  {
    if lines != [] {
      assert lines[0] in lines && !MayBeRecord(lines[0]);
      assert forall line | line in lines[1..] :: line in lines;
      NothingLoads(lines[1..], codec);
    }
  }

  lemma {:induction false} LoadBoth(a: seq<string>, b: seq<string>, codec: Codec)
    ensures LoadLines(a + b, codec) == LoadLines(a, codec) + LoadLines(b, codec)
  {
    if a == [] {
      assert a + b == b;
    } else {
      assert (a + b)[1..] == a[1..] + b;
      LoadBoth(a[1..], b, codec);
    }
  }

  lemma OneLoads(line: string, codec: Codec)
    requires line != "" && !IsSpace(line[0]) && !IsSpace(line[|line| - 1])
    ensures LoadLines([line], codec) == if codec.loads(line).Some? then [codec.loads(line).value] else []
  {
    StripIsIdentity(line);
    assert [line][1..] == [];
  }

  /** A record on lines of its own is read as its item if that is clean, and as nothing else. */
  lemma RecordIsRead(x: Item, codec: Codec)
    requires Lawful(codec)
    ensures Load(Dump(x, codec), codec) == if Clean(x) then [x] else []
  {
    RecordIsLineOrLost(x, codec);
    if Clean(x) {
      DumpEnds(x, codec);
      OneLoads(Dump(x, codec), codec);
    } else {
      NothingLoads(SplitLines(Dump(x, codec)), codec);
    }
  }

  lemma RecordIsLineOrLost(x: Item, codec: Codec)
    requires OneLine(codec.showTime(x.createdAt))
    ensures if Clean(x) then SplitLines(Dump(x, codec)) == [Dump(x, codec)] else NoneIsRecord(SplitLines(Dump(x, codec)))
  {
    var fields, tail := OtherFields(x), Tail(x, codec);
    FieldsAreNamed(x);
    TailIsTail(x, codec);
    FieldsAreCleanIff(x);
    if Clean(x) {
      CleanRecordIsLine("title", x.title, fields, tail);
    } else {
      TornRecordIsLost("title", x.title, fields, tail);
    }
  }

  // ----- appended records ------------------------------------------------------------------

  lemma LineIsRead(text: string, x: Item, codec: Codec)
    requires Lawful(codec) && EndsLine(text)
    ensures EndsLine(text + Line(x, codec))
    ensures Load(text + Line(x, codec), codec) == Load(text, codec) + if Clean(x) then [x] else []
  {
    DumpEnds(x, codec);
    SplitTerminated(Dump(x, codec));
    SplitBoth(text, Line(x, codec));
    LoadBoth(SplitLines(text), SplitLines(Line(x, codec)), codec);
    RecordIsRead(x, codec);
  }

  lemma OneMoreRead(before: string, x: Item, bank: seq<Item>, kept: seq<Item>, codec: Codec)
    requires Lawful(codec) && EndsLine(before) && Load(before, codec) == bank + kept
    ensures EndsLine(before + Line(x, codec))
    ensures Load(before + Line(x, codec), codec) == bank + if Clean(x) then kept + [x] else kept
  {
    LineIsRead(before, x, codec);
    Longer(bank, kept, x);
  }

  lemma Longer(bank: seq<Item>, kept: seq<Item>, x: Item)
    ensures (bank + kept) + [x] == bank + (kept + [x]) && (bank + kept) + [] == bank + kept
  {
  }

  /** After records have been appended to a file that ends a line, exactly the clean ones are read
      back, in order, and what was read before. */
  lemma {:induction false} LinesAreRead(text: string, items: seq<Item>, codec: Codec)
    requires Lawful(codec) && EndsLine(text)
    ensures EndsLine(text + Lines(items, codec))
    ensures Load(text + Lines(items, codec), codec) == Load(text, codec) + CleanOnes(items)
  {
    if items == [] {
      assert text + "" == text;
      assert Load(text, codec) + [] == Load(text, codec);
    } else {
      var front, last := items[..|items| - 1], items[|items| - 1];
      LinesAreRead(text, front, codec);
      OneMoreRead(text + Lines(front, codec), last, Load(text, codec), CleanOnes(front), codec);
      Associate(text, Lines(front, codec), Line(last, codec));
    }
  }

  lemma Associate(a: string, b: string, c: string)
    ensures a + (b + c) == (a + b) + c
  {
  }

  lemma {:induction false} CleanOnesIff(items: seq<Item>)
    ensures |CleanOnes(items)| <= |items|
    ensures CleanOnes(items) == items <==> forall x | x in items :: Clean(x)
    ensures forall x :: x in CleanOnes(items) <==> x in items && Clean(x)
  {
    if items != [] {
      var front, last := items[..|items| - 1], items[|items| - 1];
      CleanOnesIff(front);
      assert items == front + [last];
    }
  }

  /** All appended items are read back exactly if all are clean. */
  lemma ReadBackIff(text: string, items: seq<Item>, codec: Codec)
    requires Lawful(codec) && EndsLine(text)
    ensures Load(text + Lines(items, codec), codec) == Load(text, codec) + items <==> forall x | x in items :: Clean(x)
  {
    LinesAreRead(text, items, codec);
    CleanOnesIff(items);
    var bank := Load(text, codec);
    assert (bank + CleanOnes(items))[|bank|..] == CleanOnes(items) && (bank + items)[|bank|..] == items;
  }

  lemma TwoOnOneLine(x: Item, y: Item, codec: Codec)
    requires Lawful(codec) && Clean(x) && Clean(y)
    ensures var line := Dump(x, codec) + Dump(y, codec);
            OneLine(line) && line != "" && line[|line| - 1] == '}' && LoadLines([line], codec) == []
  {
    DumpIsOneLine(x, codec);
    DumpIsOneLine(y, codec);
    OneLineBoth(Dump(x, codec), Dump(y, codec));
    DumpEnds(x, codec);
    DumpEnds(y, codec);
    LineOfBoth(Dump(x, codec), Dump(y, codec), codec);
  }

  lemma LineOfBoth(a: string, b: string, codec: Codec)
    requires a != "" && b != "" && a[0] == '{' && b[|b| - 1] == '}' && codec.loads(a + b) == None
    ensures (a + b)[|a + b| - 1] == '}' && LoadLines([a + b], codec) == []
  {
    OneLoads(a + b, codec);
  }

  /** A file whose last record has lost its newline loses that record and the one appended. */
  lemma UnendedLineLosesBoth(x: Item, y: Item, codec: Codec)
    requires Lawful(codec) && Clean(x) && Clean(y)
    ensures Load(Dump(x, codec), codec) == [x]
    ensures Load(Dump(x, codec) + Line(y, codec), codec) == []
  {
    RecordIsRead(x, codec);
    TwoOnOneLine(x, y, codec);
    Associate(Dump(x, codec), Dump(y, codec), "\n");
    LoneLine(Dump(x, codec) + Dump(y, codec));
  }

  lemma LoneLine(line: string)
    requires OneLine(line) && line != "" && !IsLineBreak(line[|line| - 1])
    ensures SplitLines(line + "\n") == [line]
  {
    SplitTerminated(line);
    SplitOnlyLine(line);
  }

  lemma DumpIsOneLine(x: Item, codec: Codec)
    requires Lawful(codec) && Clean(x)
    ensures OneLine(Dump(x, codec))
  {
    FieldsAreNamed(x);
    TailIsTail(x, codec);
    FieldsAreCleanIff(x);
    NamesAreOneLine("title");
    CleanRestIsOneLine(x.title, OtherFields(x), Tail(x, codec));
  }

  // ----- the text of a record ---------------------------------------------------------------

  /** Between two texts and before the first one. */
  lemma KeysText(name: string)
    ensures Key(name) == "\", \"" + (name + "\": \"") && Start(name) == "{\"" + (name + "\": \"")
  {
  }

  /** A record, piece by piece. */
  lemma RecordText(x: Item, codec: Codec)
    ensures Dump(x, codec) ==
            Start("title") + (Escaped(x.title)
            + (Key("description") + (Escaped(x.description)
            + (Key("content") + (Escaped(x.content)
            + (Key("status") + (Escaped(if x.status == Success then "success" else "failure")
            + AfterStatus(x, codec))))))))
  {
    FirstFieldsText(x, codec);
  }

  lemma FieldText(name: string, text: string, later: seq<(string, string)>, tail: string)
    ensures Rest([(name, text)] + later, tail) == Key(name) + (Escaped(text) + Rest(later, tail))
  {
    assert ([(name, text)] + later)[1..] == later;
  }

  lemma FirstFieldsText(x: Item, codec: Codec)
    ensures Rest(OtherFields(x), Tail(x, codec)) ==
            Key("description") + (Escaped(x.description)
            + (Key("content") + (Escaped(x.content)
            + (Key("status") + (Escaped(StatusText(x.status)) + AfterStatus(x, codec))))))
  {
    var app := if x.app.Some? then [("app", x.app.value)] else [];
    var status := [("status", StatusText(x.status))];
    var content := [("content", x.content)];
    assert OtherFields(x) == [("description", x.description)] + (content + (status + app));
    FieldText("description", x.description, content + (status + app), Tail(x, codec));
    FieldText("content", x.content, status + app, Tail(x, codec));
    FieldText("status", StatusText(x.status), app, Tail(x, codec));
    AppText(x, codec, app);
  }

  lemma AppText(x: Item, codec: Codec, app: seq<(string, string)>)
    requires app == if x.app.Some? then [("app", x.app.value)] else []
    ensures Rest(app, Tail(x, codec)) == AfterStatus(x, codec)
  {
    if x.app.Some? {
      FieldText("app", x.app.value, [], Tail(x, codec));
      assert app == [("app", x.app.value)] + [];
      TailWithApp(x, codec);
    } else {
      TailWithoutApp(x, codec);
    }
  }

  lemma TailWithApp(x: Item, codec: Codec)
    requires x.app.Some?
    ensures Tail(x, codec) == "\", \"" + ("created_at\": " + (codec.showTime(x.createdAt) + "}"))
  {
    assert Named("created_at", " ") == "created_at\": ";
  }

  lemma TailWithoutApp(x: Item, codec: Codec)
    requires x.app.None?
    ensures Tail(x, codec) == "\", \"" + ("app\": null, \"created_at\": " + (codec.showTime(x.createdAt) + "}"))
  {
    EndingWithoutApp();
  }

  lemma EndingWithoutApp()
    ensures Named("app", " null, ") + (['"'] + Named("created_at", " ")) == "app\": null, \"created_at\": "
  {
  }

  /** The app, or null, and the timestamp. */
  function AfterStatus(x: Item, codec: Codec): string {
    match x.app
    case Some(app) =>
      Key("app") + (Escaped(app) + ("\", \"" + ("created_at\": " + (codec.showTime(x.createdAt) + "}"))))
    case None => "\", \"" + ("app\": null, \"created_at\": " + (codec.showTime(x.createdAt) + "}"))
  }
}
