/** One memory entry as a Markdown section: the printer, the parser and the two
    directions of their round trip. */
module MemoryFormat {
  import opened Wrappers
  import opened Text

  datatype MemoryType = OsGuide | AppGuide | IconGuide | Policy

  /** A timestamp is a token for a double, with all NaNs identified. */
  datatype MemoryEntry = MemoryEntry(
    entryId: string,
    memoryType: MemoryType,
    platform: string,
    content: string,
    app: Option<string>,
    tags: seq<string>,
    createdAt: int,
    accessCount: int)

  /** Python's text form of doubles: `str(x)` and `float(text)`, where None is a ValueError. */
  datatype FloatText = FloatText(show: int -> string, read: string -> Option<int>, zero: int)

  ghost predicate Lawful(floats: FloatText) {
    forall t {:trigger floats.show(t)} :: IsToken(floats.show(t)) && floats.read(floats.show(t)) == Some(t)
  }

  /** The law about doubles can be met: decimal tokens meet it. */
  lemma DecimalTokensAreLawful()
    ensures Lawful(FloatText(ShowInt, ReadInt, 0))
  {
    forall t: int ensures IsToken(ShowInt(t)) && ReadInt(ShowInt(t)) == Some(t) {
      ShowIntIsToken(t);
      ReadIntOfShow(t);
    }
  }

  function TypeValue(t: MemoryType): string {
    match t
    case OsGuide => "os"
    case AppGuide => "app"
    case IconGuide => "icon"
    case Policy => "policy"
  }

  function TypeOfValue(s: string): Option<MemoryType> {
    if s == "os" then Some(OsGuide)
    else if s == "app" then Some(AppGuide)
    else if s == "icon" then Some(IconGuide)
    else if s == "policy" then Some(Policy)
    else None
  }

  // ----- printing ------------------------------------------------------------

  const MAX_HEADING_LEN := 72

  function Heading(e: MemoryEntry): string {
    var first := e.content[..LineLength(e.content)];
    var short := if |first| > MAX_HEADING_LEN then first[..MAX_HEADING_LEN - 1] + ['\U{2026}'] else first;
    if short != "" then short else e.entryId
  }

  /** The metadata keys, in the order in which a section lists them. */
  const KEYS: seq<string> := ["id", "type", "platform", "app", "tags", "created_at", "access_count"]

  function MetaValues(e: MemoryEntry, floats: FloatText): (values: seq<string>)
    ensures |values| == |KEYS|
  {
    [ e.entryId, TypeValue(e.memoryType), e.platform, e.app.GetOr(""), Join(", ", e.tags),
      floats.show(e.createdAt), ShowInt(e.accessCount) ]
  }

  function MetaLine(key: string, value: string): string {
    key + ": " + value
  }

  function MetaLines(e: MemoryEntry, floats: FloatText): seq<string> {
    [Heading(e)] + seq(|KEYS|, i requires 0 <= i < |KEYS| => MetaLine(KEYS[i], MetaValues(e, floats)[i]))
  }

  /** A section without its leading "## ". */
  function SectionBody(e: MemoryEntry, floats: FloatText): string {
    Join("\n", MetaLines(e, floats) + ["", e.content, ""])
  }

  function Section(e: MemoryEntry, floats: FloatText): string {
    "## " + SectionBody(e, floats)
  }

  // ----- parsing -------------------------------------------------------------

  predicate IsBlank(c: char) { c == ' ' || c == '\t' }

  function SkipBlanks(s: string, i: nat): (k: nat)
    requires i <= |s|
    ensures i <= k <= |s|
    decreases |s| - i
  {
    if i < |s| && IsBlank(s[i]) then SkipBlanks(s, i + 1) else i
  }

  /** A newline, then spaces and tabs only, then a newline. */
  predicate BlankLineAt(s: string, i: nat)
    requires i < |s|
  {
    s[i] == '\n' && var k := SkipBlanks(s, i + 1); k < |s| && s[k] == '\n'
  }

  function FirstBlankLine(s: string, i: nat): (k: nat)
    requires i <= |s|
    ensures i <= k <= |s|
    ensures k < |s| ==> BlankLineAt(s, k)
    ensures forall j :: i <= j < k ==> !BlankLineAt(s, j)
    decreases |s| - i
  {
    if i == |s| || BlankLineAt(s, i) then i else FirstBlankLine(s, i + 1)
  }

  function PutMeta(meta: map<string, string>, line: string): map<string, string> {
    var k := IndexOf(line, ':');
    if k < |line| then meta[Strip(line[..k]) := Strip(line[k + 1..])] else meta
  }

  /** The metadata of lines 1 to n - 1; line 0 is the heading. */
  function MetaUpTo(lines: seq<string>, n: nat): map<string, string>
    requires n <= |lines|
  {
    if n <= 1 then map[] else PutMeta(MetaUpTo(lines, n - 1), lines[n - 1])
  }

  function Lookup(meta: map<string, string>, key: string, default: string): string {
    if key in meta then meta[key] else default
  }

  /** The stripped, non-empty pieces of a tags value. */
  function NonEmptyStripped(parts: seq<string>): seq<string> {
    if parts == [] then [] else
      var first := Strip(parts[0]);
      (if first != "" then [first] else []) + NonEmptyStripped(parts[1..])
  }

  function ParseTags(value: string): seq<string> {
    NonEmptyStripped(SplitOn(value, ','))
  }

  function EntryOfFields(id: string, typeValue: string, platform: string, app: string, tags: string,
                         createdAt: string, accessCount: string, content: string, floats: FloatText)
      : (r: Option<MemoryEntry>)
    ensures r.Some? ==> r.value.content == Strip(content)
  {
    match TypeOfValue(typeValue)
    case None => None
    case Some(memoryType) =>
      if id == "" || platform == "" then None else
        Some(MemoryEntry(
          id, memoryType, platform, Strip(content),
          if app != "" then Some(app) else None,
          ParseTags(tags),
          floats.read(createdAt).GetOr(floats.zero),
          ReadInt(accessCount).GetOr(0)))
  }

  function EntryOfMeta(meta: map<string, string>, content: string, floats: FloatText): (r: Option<MemoryEntry>)
    ensures r.Some? ==> r.value.content == Strip(content)
  {
    EntryOfFields(
      Lookup(meta, "id", ""), Lookup(meta, "type", ""), Lookup(meta, "platform", ""),
      Lookup(meta, "app", ""), Lookup(meta, "tags", ""),
      Lookup(meta, "created_at", "0"), Lookup(meta, "access_count", "0"), content, floats)
  }

  /** Metadata block and content of a chunk, divided at its first blank line. */
  function MetaBlock(chunk: string): string {
    var s := Strip(chunk);
    s[..FirstBlankLine(s, 0)]
  }

  /** Where the content starts in a stripped chunk: at the end when there is no blank line. */
  function ContentStart(s: string): (i: nat)
    ensures i <= |s|
  {
    var k := FirstBlankLine(s, 0);
    if k == |s| then |s| else SkipBlanks(s, k + 1) + 1
  }

  function Content(chunk: string): string {
    Strip(chunk)[ContentStart(Strip(chunk))..]
  }

  function SectionEntry(chunk: string, floats: FloatText): (r: Option<MemoryEntry>)
    ensures r.Some? ==> r.value.content == Strip(Content(chunk))
  {
    var lines := SplitLines(MetaBlock(chunk));
    EntryOfMeta(MetaUpTo(lines, |lines|), Content(chunk), floats)
  }

  method ParseSection(chunk: string, floats: FloatText) returns (r: Option<MemoryEntry>)
    ensures r == SectionEntry(chunk, floats)
  {
    if Strip(chunk) == "" {
      EmptyChunk(chunk, floats);
      return None;
    }
    HasHeadingLine(chunk);
    var lines := SplitLines(MetaBlock(chunk));
    var meta: map<string, string> := map[];
    for i := 1 to |lines|
      invariant meta == MetaUpTo(lines, i)
    {
      meta := PutMeta(meta, lines[i]);
    }
    r := EntryOfMeta(meta, Content(chunk), floats);
  }

  lemma EmptyChunk(chunk: string, floats: FloatText)
    requires Strip(chunk) == ""
    ensures SectionEntry(chunk, floats) == None
  {
    assert SplitLines(MetaBlock(chunk)) == [];
    var meta := MetaUpTo([], 0);
    assert Lookup(meta, "type", "") == "";
  }

  lemma HasHeadingLine(chunk: string)
    requires Strip(chunk) != ""
    ensures SplitLines(MetaBlock(chunk)) != []
  {
    var s := Strip(chunk);
    assert IsSpace('\n');
    assert !BlankLineAt(s, 0);
    assert MetaBlock(chunk) != "";
  }

  // ----- the text of a section ---------------------------------------------------------------

  /** A section, line by line. */
  lemma SectionLines(e: MemoryEntry, floats: FloatText)
    ensures Section(e, floats) ==
            Join("\n", ["## " + Heading(e), "id" + ": " + e.entryId, "type" + ": " + TypeValue(e.memoryType),
                        "platform" + ": " + e.platform, "app" + ": " + e.app.GetOr(""),
                        "tags" + ": " + Join(", ", e.tags), "created_at" + ": " + floats.show(e.createdAt),
                        "access_count" + ": " + ShowInt(e.accessCount), "", e.content, ""])
  {
    var rest := ["id" + ": " + e.entryId, "type" + ": " + TypeValue(e.memoryType),
                 "platform" + ": " + e.platform, "app" + ": " + e.app.GetOr(""),
                 "tags" + ": " + Join(", ", e.tags), "created_at" + ": " + floats.show(e.createdAt),
                 "access_count" + ": " + ShowInt(e.accessCount), "", e.content, ""];
    assert MetaLines(e, floats) + ["", e.content, ""] == [Heading(e)] + rest;
    JoinFromFirst("## ", Heading(e), rest);
    assert ["## " + Heading(e)] + rest ==
           ["## " + Heading(e), "id" + ": " + e.entryId, "type" + ": " + TypeValue(e.memoryType),
            "platform" + ": " + e.platform, "app" + ": " + e.app.GetOr(""),
            "tags" + ": " + Join(", ", e.tags), "created_at" + ": " + floats.show(e.createdAt),
            "access_count" + ": " + ShowInt(e.accessCount), "", e.content, ""];
  }

  lemma JoinFromFirst(mark: string, first: string, rest: seq<string>)
    requires rest != []
    ensures mark + Join("\n", [first] + rest) == Join("\n", [mark + first] + rest)
  {
    assert ([first] + rest)[1..] == rest && ([mark + first] + rest)[1..] == rest;
  }

  /** The words for the types. */
  lemma TypeIff(s: string, t: MemoryType)
    ensures TypeOfValue(s) == Some(t) <==>
              s == match t case OsGuide => "os" case AppGuide => "app" case IconGuide => "icon" case Policy => "policy"
    ensures TypeOfValue(TypeValue(t)) == Some(t)
  {
  }

  /** A heading has at most 72 characters: the first line of the content, or its beginning with an
      ellipsis; or it is the id, where that line is empty. */
  lemma HeadingIs(e: MemoryEntry)
    ensures var n, h := LineLength(e.content), Heading(e);
            && (n == 0 ==> h == e.entryId)
            && (0 < n <= 72 ==> h == e.content[..n])
            && (n > 72 ==> |h| == 72 && h[..71] == e.content[..71] && h[71] == 0x2026 as char)
  {
    var n := LineLength(e.content);
    assert n > 72 ==> e.content[..n][..71] == e.content[..71];
  }

  /** From i to k there are spaces and tabs only. */
  ghost predicate BlankBetween(s: string, i: nat, k: nat) {
    i <= k <= |s| && forall j: nat | i <= j < k :: s[j] == ' ' || s[j] == '\t'
  }

  lemma {:induction false} SkipBlanksIs(s: string, i: nat)
    requires i <= |s|
    ensures var k := SkipBlanks(s, i); BlankBetween(s, i, k) && (k < |s| ==> s[k] != ' ' && s[k] != '\t')
    decreases |s| - i
  {
    if i < |s| && IsBlank(s[i]) {
      SkipBlanksIs(s, i + 1);
    }
  }

  /** A blank line: a newline, any number of spaces and tabs, and a newline. */
  lemma BlankLineIff(s: string, i: nat)
    requires i < |s|
    ensures BlankLineAt(s, i) <==>
              s[i] == '\n' && exists k: nat :: i < k < |s| && s[k] == '\n' && BlankBetween(s, i + 1, k)
  {
    SkipBlanksIs(s, i + 1);
  }

  // ----- which chunks are entries --------------------------------------------------------------

  /** The key's last line among the first n. */
  ghost predicate IsLastLine(lines: seq<string>, n: nat, i: nat, key: string) {
    && 0 < i < n <= |lines| && IsLineOf(lines[i], key)
    && forall j: nat | i < j < n :: !IsLineOf(lines[j], key)
  }

  /** The text before the line's first colon is the key. */
  predicate IsLineOf(line: string, key: string) {
    ':' in line && Strip(line[..IndexOf(line, ':')]) == key
  }

  lemma {:induction false} IndexInText(s: string, c: char)
    ensures IndexOf(s, c) < |s| <==> c in s
  {
    if s != "" {
      IndexInText(s[1..], c);
      assert s == [s[0]] + s[1..];
    }
  }

  lemma PutMetaIs(meta: map<string, string>, line: string, key: string)
    ensures IsLineOf(line, key) ==>
              key in PutMeta(meta, line) && PutMeta(meta, line)[key] == Strip(line[IndexOf(line, ':') + 1..])
    ensures !IsLineOf(line, key) ==>
              (key in PutMeta(meta, line) <==> key in meta) && (key in meta ==> PutMeta(meta, line)[key] == meta[key])
  {
    IndexInText(line, ':');
  }

  ghost predicate HasLine(lines: seq<string>, n: nat, key: string) {
    exists i: nat :: 0 < i < n <= |lines| && IsLineOf(lines[i], key)
  }

  lemma {:induction false} MetaHasLines(lines: seq<string>, n: nat, key: string)
    requires n <= |lines|
    ensures key in MetaUpTo(lines, n) <==> HasLine(lines, n, key)
  {
    if n > 1 {
      MetaHasLines(lines, n - 1, key);
      PutMetaIs(MetaUpTo(lines, n - 1), lines[n - 1], key);
      if i: nat :| 0 < i < n - 1 && IsLineOf(lines[i], key) {
        assert HasLine(lines, n, key);
      }
    }
  }

  /** A key is there if it has a line below the heading, and stands for what follows the first colon of
      its last one; lines without a colon say nothing. */
  lemma {:induction false} MetaIsLastLine(lines: seq<string>, n: nat, key: string, i: nat)
    requires n <= |lines| && IsLastLine(lines, n, i, key)
    ensures key in MetaUpTo(lines, n) && MetaUpTo(lines, n)[key] == Strip(lines[i][IndexOf(lines[i], ':') + 1..])
  {
    if i == n - 1 {
      PutMetaIs(MetaUpTo(lines, i), lines[i], key);
    } else {
      assert IsLastLine(lines, n - 1, i, key) && !IsLineOf(lines[n - 1], key);
      MetaIsLastLine(lines, n - 1, key, i);
      OtherLineStays(lines, n - 1, key);
    }
  }

  lemma OtherLineStays(lines: seq<string>, n: nat, key: string)
    requires 0 < n < |lines| && !IsLineOf(lines[n], key) && key in MetaUpTo(lines, n)
    ensures key in MetaUpTo(lines, n + 1) && MetaUpTo(lines, n + 1)[key] == MetaUpTo(lines, n)[key]
  {
    PutMetaIs(MetaUpTo(lines, n), lines[n], key);
  }

  /** A chunk is an entry exactly if its metadata has an id, a platform and one of the four types;
      without an app it has none, and numbers that are missing or cannot be read are zero. */
  lemma ChunkIsEntryIff(chunk: string, floats: FloatText)
    ensures var lines := SplitLines(MetaBlock(chunk));
            var meta, r := MetaUpTo(lines, |lines|), SectionEntry(chunk, floats);
            && (r.Some? <==>
                  && "id" in meta && meta["id"] != "" && "platform" in meta && meta["platform"] != ""
                  && "type" in meta && TypeOfValue(meta["type"]).Some?)
            && (r.Some? ==>
                  && r.value.entryId == meta["id"] && r.value.platform == meta["platform"]
                  && TypeOfValue(meta["type"]) == Some(r.value.memoryType)
                  && r.value.app == (if "app" in meta && meta["app"] != "" then Some(meta["app"]) else None)
                  && r.value.accessCount == (if "access_count" in meta then ReadInt(meta["access_count"]).GetOr(0) else 0)
                  && ("created_at" in meta ==> r.value.createdAt == floats.read(meta["created_at"]).GetOr(floats.zero)))
  {
    assert TypeOfValue("") == None;
    ReadIntOfShow(0);
    assert ShowInt(0) == "0";
  }
}
