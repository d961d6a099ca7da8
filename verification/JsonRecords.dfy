/** JSON records on lines of their own: how a record of texts is printed, what line breaks in its
    texts do to it, and why no piece of a torn record is a record. */
module JsonRecords {
  import opened Text
  import opened Wrappers

  // ----- printing: json.dumps with ensure_ascii=False -------------------------------------

  function HexDigit(n: nat): char
    requires n < 16
  {
    if n < 10 then ('0' as int + n) as char else ('a' as int + n - 10) as char
  }

  function EscapedChar(c: char): string {
    if c == '"' then ['\\', '"']
    else if c == '\\' then ['\\', '\\']
    else if c == '\n' then ['\\', 'n']
    else if c == '\r' then ['\\', 'r']
    else if c == '\t' then ['\\', 't']
    else if c as int == 8 then ['\\', 'b']
    else if c as int == 12 then ['\\', 'f']
    else if c as int < 32 then ['\\', 'u', '0', '0', HexDigit(c as int / 16), HexDigit(c as int % 16)]
    else [c]
  }

  function Escaped(s: string): string {
    if s == [] then [] else EscapedChar(s[0]) + Escaped(s[1..])
  }

  /** From the end of one text to the start of the next. */
  function Key(name: string): string {
    ['"', ',', ' ', '"'] + name + ['"', ':', ' ', '"']
  }

  function Start(name: string): string {
    ['{', '"'] + name + ['"', ':', ' ', '"']
  }

  /** After a text: the other named texts, and what follows them. */
  function Rest(fields: seq<(string, string)>, tail: string): string {
    if fields == [] then tail else Key(fields[0].0) + (Escaped(fields[0].1) + Rest(fields[1..], tail))
  }

  function Record(name: string, text: string, fields: seq<(string, string)>, tail: string): string {
    Start(name) + (Escaped(text) + Rest(fields, tail))
  }

  predicate IsLetter(c: char) {
    'a' <= c <= 'z' || 'A' <= c <= 'Z'
  }

  /** Names are of lower-case letters and underscores and begin with a letter. */
  predicate IsName(s: string) {
    s != [] && IsLetter(s[0]) && forall c | c in s :: 'a' <= c <= 'z' || c == '_'
  }

  ghost predicate AreNamed(fields: seq<(string, string)>) {
    forall i: nat | i < |fields| :: IsName(fields[i].0)
  }

  /** The end of a record: it closes the last text, goes on with a name, and has no line break. */
  predicate IsTail(tail: string) {
    |tail| >= 5 && tail[..4] == ['"', ',', ' ', '"'] && IsLetter(tail[4]) && OneLine(tail)
  }

  // ----- reading: what the lexical grammar of JSON says of a record --------------------------

  datatype Mode =
    | Outside
    | Inside   // a string
    | Slash    // after a backslash in a string
    | Closed   // directly after a string
    | Wrong

  function Next(mode: Mode, c: char): Mode {
    match mode
    case Outside => if c == '"' then Inside else if c == '\\' then Wrong else Outside
    case Inside => if c == '"' then Closed else if c == '\\' then Slash else Inside
    case Slash => Inside
    case Closed => if c == '"' || c == '\\' || IsLetter(c) then Wrong else Outside
    case Wrong => Wrong
  }

  function Scan(s: string, mode: Mode): Mode {
    if s == [] then mode else Scan(s[1..], Next(mode, s[0]))
  }

  /** A record has a string in it, every string is closed, no backslash stands outside of one, and
      no word stands directly after one. */
  predicate MayBeRecord(line: string) {
    '"' in line && (Scan(line, Outside) == Outside || Scan(line, Outside) == Closed)
  }

  lemma {:induction false} ScanBoth(a: string, b: string, mode: Mode)
    ensures Scan(a + b, mode) == Scan(b, Scan(a, mode))
  {
    if a == [] {
      assert a + b == b;
    } else {
      assert (a + b)[1..] == a[1..] + b;
      ScanBoth(a[1..], b, Next(mode, a[0]));
    }
  }

  lemma {:induction false} WrongStays(s: string)
    ensures Scan(s, Wrong) == Wrong
  {
    if s != [] {
      WrongStays(s[1..]);
    }
  }

  lemma ScanOne(c: char, mode: Mode)
    ensures Scan([c], mode) == Next(mode, c)
  {
    assert [c][1..] == [];
  }

  lemma ScanTwo(c: char, d: char, mode: Mode)
    ensures Scan([c, d], mode) == Next(Next(mode, c), d)
  {
    ScanBoth([c], [d], mode);
    ScanOne(c, mode);
    ScanOne(d, Next(mode, c));
    assert [c] + [d] == [c, d];
  }

  lemma {:induction false} WordsStayInside(s: string)
    requires forall c | c in s :: c != '"' && c != '\\'
    ensures Scan(s, Inside) == Inside
  {
    if s != [] {
      assert s[0] in s && forall c | c in s[1..] :: c in s;
      WordsStayInside(s[1..]);
    }
  }

  lemma CharStaysInside(c: char)
    ensures Scan(EscapedChar(c), Inside) == Inside
  {
    if c as int < 32 && |EscapedChar(c)| == 6 {
      var hex := EscapedChar(c)[2..];
      assert EscapedChar(c) == [ '\\', 'u'] + hex;
      ScanBoth(['\\', 'u'], hex, Inside);
      ScanTwo('\\', 'u', Inside);
      WordsStayInside(hex);
    } else if |EscapedChar(c)| == 2 {
      ScanTwo(EscapedChar(c)[0], EscapedChar(c)[1], Inside);
      assert EscapedChar(c) == [EscapedChar(c)[0], EscapedChar(c)[1]];
    } else {
      ScanOne(c, Inside);
    }
  }

  lemma {:induction false} TextStaysInside(s: string)
    ensures Scan(Escaped(s), Inside) == Inside
  {
    if s != [] {
      CharStaysInside(s[0]);
      TextStaysInside(s[1..]);
      ScanBoth(EscapedChar(s[0]), Escaped(s[1..]), Inside);
    }
  }

  lemma KeyGoesInside(name: string)
    requires IsName(name)
    ensures Scan(Key(name), Inside) == Inside && Scan(Start(name), Outside) == Inside
  {
    var left, right := ['"', ',', ' ', '"'], ['"', ':', ' ', '"'];
    QuoteToQuote(',', Inside);
    QuoteToQuote(':', Inside);
    WordsStayInside(name);
    ScanBoth(name, right, Inside);
    ScanBoth(left, name + right, Inside);
    assert Key(name) == left + (name + right);
    ScanTwo('{', '"', Outside);
    ScanBoth(['{', '"'], name + right, Outside);
    assert Start(name) == ['{', '"'] + (name + right);
  }

  lemma QuoteToQuote(c: char, mode: Mode)
    requires mode == Inside && (c == ',' || c == ':')
    ensures Scan(['"', c, ' ', '"'], mode) == Inside
  {
    assert ['"', c, ' ', '"'] == ['"', c] + [' ', '"'];
    ScanBoth(['"', c], [' ', '"'], mode);
    ScanTwo('"', c, mode);
    ScanTwo(' ', '"', Outside);
  }

  // ----- read from inside a text, nothing is a record ----------------------------------------

  lemma EscapeShape(c: char)
    ensures EscapedChar(c) == [c] || (|EscapedChar(c)| > 1 && EscapedChar(c)[0] == '\\')
    ensures EscapedChar(c) == [c] ==> c != '"' && c != '\\'
  {
  }

  /** Read from outside a string, a text either is wrong or has no quote. */
  lemma {:induction false} TextFromOutside(s: string)
    ensures Scan(Escaped(s), Outside) == Wrong || (Scan(Escaped(s), Outside) == Outside && '"' !in Escaped(s))
  {
    if s != [] {
      var first, rest := EscapedChar(s[0]), Escaped(s[1..]);
      EscapeShape(s[0]);
      ScanBoth(first, rest, Outside);
      if first == [s[0]] {
        ScanOne(s[0], Outside);
        TextFromOutside(s[1..]);
      } else {
        assert first == [first[0]] + first[1..];
        WrongStays(first[1..]);
        WrongStays(rest);
      }
    }
  }

  /** A text that ends, and a name after it: wrong from outside. */
  lemma NameFromOutside(s: string, more: string)
    requires |more| >= 5 && more[..4] == ['"', ',', ' ', '"'] && IsLetter(more[4])
    ensures Scan(Escaped(s) + more, Outside) == Wrong
  {
    TextFromOutside(s);
    ScanBoth(Escaped(s), more, Outside);
    if Scan(Escaped(s), Outside) == Wrong {
      WrongStays(more);
    } else {
      ScanBoth(more[..4], more[4..], Outside);
      assert more == more[..4] + more[4..];
      assert ['"', ',', ' ', '"'] == ['"', ','] + [' ', '"'];
      ScanBoth(['"', ','], [' ', '"'], Outside);
      ScanTwo('"', ',', Outside);
      ScanTwo(' ', '"', Inside);
      WrongStays(more[4..][1..]);
    }
  }

  lemma RestStartsWithName(fields: seq<(string, string)>, tail: string)
    requires AreNamed(fields) && IsTail(tail)
    ensures var rest := Rest(fields, tail);
            |rest| >= 5 && rest[..4] == ['"', ',', ' ', '"'] && IsLetter(rest[4])
  {
    if fields != [] {
      var name, more := fields[0].0, Escaped(fields[0].1) + Rest(fields[1..], tail);
      assert IsName(name);
      assert Rest(fields, tail) == ['"', ',', ' ', '"'] + (name + (['"', ':', ' ', '"'] + more));
    }
  }

  // ----- line breaks in texts ---------------------------------------------------------------------

  /** The line breaks that JSON leaves as they are: U+0085, U+2028 and U+2029. */
  predicate IsRawBreak(c: char) {
    c as int == 0x85 || c as int == 0x2028 || c as int == 0x2029
  }

  predicate CleanText(s: string) {
    forall c | c in s :: !IsRawBreak(c)
  }

  ghost predicate AllClean(fields: seq<(string, string)>) {
    forall i: nat | i < |fields| :: CleanText(fields[i].1)
  }

  lemma HexIsNoBreak(n: nat)
    requires n < 16
    ensures !IsLineBreak(HexDigit(n))
  {
  }

  lemma CharIsOneLine(c: char)
    ensures !IsRawBreak(c) ==> OneLine(EscapedChar(c))
    ensures IsRawBreak(c) ==> EscapedChar(c) == [c] && IsLineBreak(c) && c != '\r'
  {
    if 0 <= c as int < 32 {
      HexIsNoBreak(c as int / 16);
      HexIsNoBreak(c as int % 16);
    }
  }

  lemma OneLineBoth(a: string, b: string)
    requires OneLine(a) && OneLine(b)
    ensures OneLine(a + b)
  {
  }

  lemma {:induction false} CleanIsOneLine(s: string)
    requires CleanText(s)
    ensures OneLine(Escaped(s))
  {
    if s != [] {
      CharIsOneLine(s[0]);
      CleanIsOneLine(s[1..]);
    }
  }

  lemma NamesAreOneLine(name: string)
    requires IsName(name)
    ensures OneLine(Key(name)) && OneLine(Start(name))
  {
  }

  lemma {:induction false} CleanRestIsOneLine(text: string, fields: seq<(string, string)>, tail: string)
    requires CleanText(text) && AllClean(fields) && AreNamed(fields) && IsTail(tail)
    ensures OneLine(Escaped(text) + Rest(fields, tail))
    decreases |fields|
  {
    CleanIsOneLine(text);
    if fields != [] {
      assert IsName(fields[0].0) && CleanText(fields[0].1);
      NamesAreOneLine(fields[0].0);
      CleanRestIsOneLine(fields[0].1, fields[1..], tail);
    }
  }

  lemma {:induction false} EscapedBoth(a: string, b: string)
    ensures Escaped(a + b) == Escaped(a) + Escaped(b)
  {
    if a == [] {
      assert a + b == b;
    } else {
      assert (a + b)[1..] == a[1..] + b;
      EscapedBoth(a[1..], b);
    }
  }

  function FirstRawBreak(s: string): (k: nat)
    ensures k <= |s| && CleanText(s[..k]) && (k < |s| ==> IsRawBreak(s[k]))
    ensures k == |s| <==> CleanText(s)
  {
    if s == [] || IsRawBreak(s[0]) then 0 else
      var k := FirstRawBreak(s[1..]);
      assert s[..k + 1] == [s[0]] + s[1..][..k];
      k + 1
  }

  lemma EscapedFirst(c: char, rest: string)
    ensures Escaped([c] + rest) == EscapedChar(c) + Escaped(rest)
  {
    assert ([c] + rest)[1..] == rest;
  }

  lemma EscapedAround(a: string, c: char, b: string)
    requires IsRawBreak(c)
    ensures Escaped(a + ([c] + b)) == Escaped(a) + ([c] + Escaped(b))
  {
    EscapedBoth(a, [c] + b);
    EscapedFirst(c, b);
    CharIsOneLine(c);
  }

  lemma CutAt(s: string, k: nat)
    requires k < |s|
    ensures s == s[..k] + ([s[k]] + s[k + 1..])
  {
  }

  /** A text cut at its first raw break. */
  lemma TextCut(text: string) returns (before: string, c: char, after: string)
    requires !CleanText(text)
    ensures IsRawBreak(c) && CleanText(before) && |after| < |text|
    ensures Escaped(text) == Escaped(before) + ([c] + Escaped(after))
  {
    var k := FirstRawBreak(text);
    before, c, after := text[..k], text[k], text[k + 1..];
    CutAt(text, k);
    EscapedAround(before, c, after);
  }

  lemma TornHere(text: string, rest: string) returns (line: string, c: char, text': string)
    requires !CleanText(text)
    ensures Escaped(text) + rest == line + ([c] + (Escaped(text') + rest))
    ensures IsRawBreak(c) && OneLine(line) && Scan(line, Inside) == Inside && !MayBeRecord(line)
    ensures |text'| < |text|
  {
    var before;
    before, c, text' := TextCut(text);
    line := Escaped(before);
    TextStaysInside(before);
    TextFromOutside(before);
    CleanIsOneLine(before);
    AroundBreak(line, c, Escaped(text'), rest);
  }

  lemma AroundBreak(a: string, c: char, b: string, rest: string)
    ensures (a + ([c] + b)) + rest == a + ([c] + (b + rest))
  {
  }

  lemma Reassociate(a: string, key: string, more: string, later: string)
    ensures a + (key + (more + later)) == (a + (key + more)) + later
  {
  }

  /** From inside a text on, a record with a raw break goes on to that break, and then again from
      inside a text. What it goes on with is no record. */
  lemma {:induction false} Torn(text: string, fields: seq<(string, string)>, tail: string)
    returns (line: string, c: char, text': string, fields': seq<(string, string)>)
    requires AreNamed(fields) && IsTail(tail) && !(CleanText(text) && AllClean(fields))
    ensures Escaped(text) + Rest(fields, tail) == line + ([c] + (Escaped(text') + Rest(fields', tail)))
    ensures IsRawBreak(c) && OneLine(line) && Scan(line, Inside) == Inside && !MayBeRecord(line)
    ensures AreNamed(fields') && (|fields'| < |fields| || (|fields'| == |fields| && |text'| < |text|))
    decreases |fields|
  {
    if !CleanText(text) {
      line, c, text' := TornHere(text, Rest(fields, tail));
      fields' := fields;
    } else {
      var name, more := fields[0].0, "";
      assert IsName(name);
      LaterIsTorn(fields);
      more, c, text', fields' := Torn(fields[0].1, fields[1..], tail);
      line := Escaped(text) + (Key(name) + more);
      LongerLine(text, name, more);
      Reassociate(Escaped(text), Key(name), more, [c] + (Escaped(text') + Rest(fields', tail)));
    }
  }

  lemma LaterIsTorn(fields: seq<(string, string)>)
    requires AreNamed(fields) && fields != []
    ensures AreNamed(fields[1..]) && (CleanText(fields[0].1) && AllClean(fields[1..]) ==> AllClean(fields))
  {
    if CleanText(fields[0].1) && AllClean(fields[1..]) {
      forall i: nat | i < |fields| ensures CleanText(fields[i].1) {
        assert i > 0 ==> fields[i] == fields[1..][i - 1];
      }
    }
  }

  lemma LongerLine(text: string, name: string, more: string)
    requires CleanText(text) && IsName(name) && OneLine(more) && Scan(more, Inside) == Inside
    ensures var line := Escaped(text) + (Key(name) + more);
            OneLine(line) && Scan(line, Inside) == Inside && !MayBeRecord(line)
  {
    CleanIsOneLine(text);
    NamesAreOneLine(name);
    TextStaysInside(text);
    KeyGoesInside(name);
    ScanBoth(Key(name), more, Inside);
    ScanBoth(Escaped(text), Key(name) + more, Inside);
    assert Key(name) + more == ['"', ',', ' ', '"'] + (name + (['"', ':', ' ', '"'] + more));
    NameFromOutside(text, Key(name) + more);
  }

  ghost predicate NoneIsRecord(lines: seq<string>) {
    forall line | line in lines :: !MayBeRecord(line)
  }

  lemma {:induction false} NoLineIsRecord(text: string, fields: seq<(string, string)>, tail: string)
    requires AreNamed(fields) && IsTail(tail)
    ensures NoneIsRecord(SplitLines(Escaped(text) + Rest(fields, tail)))
    decreases |fields|, |text|
  {
    var s := Escaped(text) + Rest(fields, tail);
    if CleanText(text) && AllClean(fields) {
      CleanRestIsOneLine(text, fields, tail);
      RestStartsWithName(fields, tail);
      NameFromOutside(text, Rest(fields, tail));
      SplitOnlyLine(s);
    } else {
      var line, c, text', fields' := Torn(text, fields, tail);
      SplitAtBreak(line, c, Escaped(text') + Rest(fields', tail));
      NoLineIsRecord(text', fields', tail);
    }
  }

  /** A record with clean texts is one line. */
  lemma CleanRecordIsLine(name: string, text: string, fields: seq<(string, string)>, tail: string)
    requires IsName(name) && AreNamed(fields) && IsTail(tail) && CleanText(text) && AllClean(fields)
    ensures SplitLines(Record(name, text, fields, tail)) == [Record(name, text, fields, tail)]
  {
    NamesAreOneLine(name);
    CleanRestIsOneLine(text, fields, tail);
    SplitOnlyLine(Record(name, text, fields, tail));
  }

  /** A record with a raw break in a text is torn, and none of its lines is a record. */
  lemma TornRecordIsLost(name: string, text: string, fields: seq<(string, string)>, tail: string)
    requires IsName(name) && AreNamed(fields) && IsTail(tail) && !(CleanText(text) && AllClean(fields))
    ensures NoneIsRecord(SplitLines(Record(name, text, fields, tail)))
  {
    var line, c, text', fields' := Torn(text, fields, tail);
    var later := Escaped(text') + Rest(fields', tail);
    AfterStart(Start(name), Escaped(text) + Rest(fields, tail), line, [c] + later);
    StartedLine(name, line);
    SplitAtBreak(Start(name) + line, c, later);
    NoLineIsRecord(text', fields', tail);
  }

  lemma AfterStart(start: string, rest: string, line: string, later: string)
    requires rest == line + later
    ensures start + rest == (start + line) + later
  {
  }

  lemma StartedLine(name: string, line: string)
    requires IsName(name) && OneLine(line) && Scan(line, Inside) == Inside
    ensures OneLine(Start(name) + line) && !MayBeRecord(Start(name) + line)
  {
    NamesAreOneLine(name);
    KeyGoesInside(name);
    ScanBoth(Start(name), line, Outside);
  }

  // ----- reading back what was escaped ----------------------------------------------------------

  function HexValue(c: char): Option<nat> {
    if '0' <= c <= '9' then Some(c as int - '0' as int)
    else if 'a' <= c <= 'f' then Some(c as int - 'a' as int + 10)
    else if 'A' <= c <= 'F' then Some(c as int - 'A' as int + 10)
    else None
  }

  /** The escapes of section 7 of RFC 8259 that stand for one character by one letter. */
  function Unescape(c: char): Option<char> {
    match c
    case '"' => Some('"')
    case '\\' => Some('\\')
    case '/' => Some('/')
    case 'b' => Some(8 as char)
    case 'f' => Some(12 as char)
    case 'n' => Some('\n')
    case 'r' => Some('\r')
    case 't' => Some('\t')
    case _ => None
  }

  /** The text that a JSON string of section 7 of RFC 8259 stands for, without its quotes; of the
      numbered escapes those below U+0100 are enough here. */
  function Unescaped(s: string): Option<string> {
    if s == [] then Some([])
    else if s[0] != '\\' then
      if s[0] == '"' || (s[0] as int) < 32 then None else Prepend(s[0], Unescaped(s[1..]))
    else if |s| == 1 then None
    else if s[1] == 'u' then
      if |s| < 6 || s[2] != '0' || s[3] != '0' then None else
        match (HexValue(s[4]), HexValue(s[5]))
        case (Some(high), Some(low)) => Prepend((16 * high + low) as char, Unescaped(s[6..]))
        case _ => None
    else
      match Unescape(s[1])
      case Some(c) => Prepend(c, Unescaped(s[2..]))
      case None => None
  }

  function Prepend(c: char, s: Option<string>): Option<string> {
    if s.Some? then Some([c] + s.value) else None
  }

  /** Control characters with an escape of their own are written by it. */
  lemma ShortEscapes()
    ensures EscapedChar(8 as char) == "\\b" && EscapedChar('\t') == "\\t" && EscapedChar('\n') == "\\n"
    ensures EscapedChar(12 as char) == "\\f" && EscapedChar('\r') == "\\r"
  {
  }

  lemma HexIsRead(n: nat)
    requires n < 16
    ensures HexValue(HexDigit(n)) == Some(n)
  {
  }

  lemma CharIsRead(c: char, rest: string)
    ensures Unescaped(EscapedChar(c) + rest) == Prepend(c, Unescaped(rest))
  {
    var e := EscapedChar(c);
    var s := e + rest;
    assert s[|e|..] == rest && forall i: nat | i < |e| :: s[i] == e[i];
    if |e| == 6 {
      HexIsRead(c as int / 16);
      HexIsRead(c as int % 16);
      assert 16 * (c as int / 16) + c as int % 16 == c as int;
    }
  }

  /** Every text is read back from what is printed for it. */
  lemma {:induction false} TextIsReadBack(s: string)
    ensures Unescaped(Escaped(s)) == Some(s)
  {
    if s != [] {
      CharIsRead(s[0], Escaped(s[1..]));
      TextIsReadBack(s[1..]);
      assert s == [s[0]] + s[1..];
    }
  }
}
