/** The round trip of one section: every parsed entry is well formed, and a well-formed
    entry is what its own printed section parses to. */
module MemoryRoundTrip {
  import opened Wrappers
  import opened Text
  import opened MemoryFormat

  ghost predicate WellFormed(e: MemoryEntry) {
    && IsToken(e.entryId)
    && IsToken(e.platform)
    && (e.app.Some? ==> IsToken(e.app.value))
    && (forall t | t in e.tags :: IsTag(t))
    && Stripped(e.content)
  }

  // ----- parsed entries are well formed ----------------------------------------

  ghost predicate CleanMeta(meta: map<string, string>) {
    forall k | k in meta :: Stripped(meta[k]) && OneLine(meta[k])
  }

  lemma StripKeepsLine(s: string)
    requires OneLine(s)
    ensures OneLine(Strip(s))
  {
    StripChars(s);
  }

  lemma {:induction false} MetaIsClean(lines: seq<string>, n: nat)
    requires n <= |lines| && forall line | line in lines :: OneLine(line)
    ensures CleanMeta(MetaUpTo(lines, n))
  {
    if n > 1 {
      MetaIsClean(lines, n - 1);
      var line := lines[n - 1];
      var k := IndexOf(line, ':');
      assert OneLine(line);
      if k < |line| {
        assert OneLine(line[k + 1..]);
        StripKeepsLine(line[k + 1..]);
      }
    }
  }

  ghost predicate IsTag(t: string) {
    IsToken(t) && ',' !in t
  }

  lemma {:induction false} NonEmptyStrippedAreTags(parts: seq<string>)
    requires forall p | p in parts :: OneLine(p) && ',' !in p
    ensures forall t | t in NonEmptyStripped(parts) :: IsTag(t)
  {
    if parts != [] {
      var p := parts[0];
      assert OneLine(p) && ',' !in p;
      StripChars(p);
      NonEmptyStrippedAreTags(parts[1..]);
    }
  }

  lemma ParsedTagsAreTags(value: string)
    requires OneLine(value)
    ensures forall t | t in ParseTags(value) :: IsTag(t)
  {
    SplitOnChars(value, ',');
    NonEmptyStrippedAreTags(SplitOn(value, ','));
  }

  /** Every entry the parser returns is well formed. */
  lemma ParsedIsWellFormed(chunk: string, floats: FloatText)
    requires SectionEntry(chunk, floats).Some?
    ensures WellFormed(SectionEntry(chunk, floats).value)
  {
    var lines := SplitLines(MetaBlock(chunk));
    MetaIsClean(lines, |lines|);
    CleanMetaEntry(MetaUpTo(lines, |lines|), Content(chunk), floats);
  }

  lemma CleanMetaEntry(meta: map<string, string>, content: string, floats: FloatText)
    requires CleanMeta(meta) && EntryOfMeta(meta, content, floats).Some?
    ensures WellFormed(EntryOfMeta(meta, content, floats).value)
  {
    ParsedTagsAreTags(Lookup(meta, "tags", ""));
  }

  /** The content of a chunk is a contiguous piece of it. */
  lemma ContentIsWithin(chunk: string)
    ensures Within(Strip(Content(chunk)), chunk)
  {
    var s, body := Strip(chunk), Content(chunk);
    StripIsWithin(chunk);
    SliceIsWithin(s, ContentStart(s), |s|);
    assert s[ContentStart(s)..] == s[ContentStart(s)..|s|];
    StripIsWithin(body);
    WithinTransitive(body, s, chunk);
    WithinTransitive(Strip(body), body, chunk);
  }

  // ----- the metadata block ----------------------------------------------------

  function Block(e: MemoryEntry, floats: FloatText): string {
    Join("\n", MetaLines(e, floats))
  }

  /** Every newline is followed by a character that starts neither a blank line nor a heading. */
  predicate Tight(s: string) {
    forall i | 0 <= i < |s| && s[i] == '\n' ::
      i + 1 < |s| && !IsBlank(s[i + 1]) && s[i + 1] != '\n' && s[i + 1] != '#'
  }

  predicate SolidLine(line: string) {
    line != "" && !IsBlank(line[0]) && line[0] != '#' && OneLine(line)
  }

  lemma {:induction false} JoinIsTight(lines: seq<string>)
    requires lines != [] && OneLine(lines[0])
    requires forall line | line in lines[1..] :: SolidLine(line)
    ensures Tight(Join("\n", lines))
  {
    assert IsLineBreak('\n');
    if |lines| > 1 {
      var rest := Join("\n", lines[1..]);
      assert lines[1] in lines[1..];
      JoinIsTight(lines[1..]);
      assert SolidLine(lines[1]);
      assert rest != "" && rest[0] == lines[1][0];
      forall i | 0 <= i < |lines[0] + "\n" + rest| && (lines[0] + "\n" + rest)[i] == '\n'
        ensures var s := lines[0] + "\n" + rest;
                i + 1 < |s| && !IsBlank(s[i + 1]) && s[i + 1] != '\n' && s[i + 1] != '#'
      {
        assert forall j | 0 <= j < |lines[0]| :: !IsLineBreak(lines[0][j]);
        assert i > |lines[0]| ==> rest[i - |lines[0]| - 1] == '\n';
      }
    }
  }

  lemma OneLineAppend(a: string, b: string)
    requires OneLine(a) && OneLine(b)
    ensures OneLine(a + b)
  {
  }

  lemma {:induction false} JoinOneLine(separator: string, parts: seq<string>)
    requires OneLine(separator) && forall p | p in parts :: OneLine(p)
    ensures OneLine(Join(separator, parts))
  {
    if |parts| > 1 {
      assert OneLine(parts[0]);
      JoinOneLine(separator, parts[1..]);
      OneLineAppend(parts[0], separator);
      OneLineAppend(parts[0] + separator, Join(separator, parts[1..]));
    }
  }

  lemma HeadingIsLine(e: MemoryEntry)
    requires WellFormed(e)
    ensures OneLine(Heading(e)) && Heading(e) != "" && !IsSpace(Heading(e)[0])
  {
    var n := LineLength(e.content);
    assert e.content != "" ==> !IsLineBreak(e.content[0]);
    assert e.content != "" ==> n > 0;
    assert !IsLineBreak('\U{2026}');
  }

  predicate IsKey(key: string) {
    key != "" && Stripped(key) && OneLine(key) && ':' !in key && key[0] != '#'
  }

  lemma KeysAreKeys()
    ensures forall k | k in KEYS :: IsKey(k)
  {
  }

  lemma LineIsSolid(key: string, value: string)
    requires IsKey(key) && OneLine(value)
    ensures SolidLine(MetaLine(key, value))
  {
    OneLineAppend(key, ": ");
    OneLineAppend(key + ": ", value);
  }

  lemma MetaValuesAreClean(e: MemoryEntry, floats: FloatText)
    requires WellFormed(e) && Lawful(floats)
    ensures forall v | v in MetaValues(e, floats) :: Stripped(v) && OneLine(v)
  {
    JoinStripped(e.tags);
    JoinOneLine(", ", e.tags);
    ShowIntIsToken(e.accessCount);
    assert IsToken(floats.show(e.createdAt));
  }

  lemma MetaLinesAreSolid(e: MemoryEntry, floats: FloatText)
    requires WellFormed(e) && Lawful(floats)
    ensures forall line | line in MetaLines(e, floats)[1..] :: SolidLine(line)
    ensures OneLine(Heading(e))
  {
    var lines, values := MetaLines(e, floats), MetaValues(e, floats);
    HeadingIsLine(e);
    MetaValuesAreClean(e, floats);
    KeysAreKeys();
    forall i | 1 <= i < |lines| ensures SolidLine(lines[i]) {
      assert KEYS[i - 1] in KEYS && values[i - 1] in values;
      LineIsSolid(KEYS[i - 1], values[i - 1]);
    }
  }

  lemma BlockEnds(e: MemoryEntry, floats: FloatText)
    requires WellFormed(e) && Lawful(floats)
    ensures Block(e, floats) != "" && Stripped(Block(e, floats))
  {
    var lines := MetaLines(e, floats);
    HeadingIsLine(e);
    ShowIntIsToken(e.accessCount);
    assert lines[7] == MetaLine(KEYS[6], ShowInt(e.accessCount));
    assert lines == lines[..1] + lines[1..] && lines == lines[..7] + lines[7..];
    JoinAppend("\n", lines[..1], lines[1..]);
    JoinAppend("\n", lines[..7], lines[7..]);
  }

  lemma BlockShape(e: MemoryEntry, floats: FloatText)
    requires WellFormed(e) && Lawful(floats)
    ensures Tight(Block(e, floats)) && SplitLines(Block(e, floats)) == MetaLines(e, floats)
  {
    var lines := MetaLines(e, floats);
    MetaLinesAreSolid(e, floats);
    JoinIsTight(lines);
    assert SolidLine(lines[7]);
    assert forall line | line in lines :: line == lines[0] || line in lines[1..];
    SplitLinesOfJoin(lines);
  }

  // ----- reading a printed section back --------------------------------------------

  lemma SkipNoBlanks(s: string, i: nat)
    requires i < |s| && !IsBlank(s[i])
    ensures SkipBlanks(s, i) == i
  {
  }

  /** The first blank line of a metadata block and what follows is where the block ends. */
  lemma FirstBlankAfter(block: string, tail: string)
    requires Tight(block)
    requires tail != "" ==> BlankLineAt(block + tail, |block|)
    ensures FirstBlankLine(block + tail, 0) == |block|
  {
    var s := block + tail;
    forall j | 0 <= j < |block| ensures !BlankLineAt(s, j) {
      if s[j] == '\n' {
        assert block[j] == '\n' && s[j + 1] == block[j + 1];
        SkipNoBlanks(s, j + 1);
      }
    }
  }

  /** Block and content of a chunk made of a tight block, a blank line and a content. */
  lemma ChunkParts(block: string, content: string, padding: string)
    requires block != "" && Stripped(block) && Tight(block)
    requires Stripped(content) && AllSpace(padding)
    ensures var chunk := block + "\n\n" + content + padding;
            MetaBlock(chunk) == block && Content(chunk) == content
  {
    var chunk := block + "\n\n" + content + padding;
    if content == "" {
      assert chunk == "" + block + ("\n\n" + padding);
      StripPadded("", block, "\n\n" + padding);
      FirstBlankAfter(block, "");
      assert block + "" == block;
    } else {
      var s := block + ("\n\n" + content);
      assert chunk == "" + s + padding;
      StripPadded("", s, padding);
      BlockThenContent(block, content);
    }
  }

  lemma BlockThenContent(block: string, content: string)
    requires Tight(block) && content != "" && Stripped(content)
    ensures var s := block + ("\n\n" + content);
            FirstBlankLine(s, 0) == |block| && s[ContentStart(s)..] == content
  {
    var s := block + ("\n\n" + content);
    SkipNoBlanks(s, |block| + 1);
    FirstBlankAfter(block, "\n\n" + content);
    assert s[|block| + 2..] == content;
  }

  lemma PutMetaLine(meta: map<string, string>, key: string, value: string)
    requires IsKey(key) && Stripped(value)
    ensures PutMeta(meta, MetaLine(key, value)) == meta[key := value]
  {
    var line := MetaLine(key, value);
    assert line == key + [':'] + (" " + value);
    IndexOfFirst(key, ':', " " + value);
    StripIsIdentity(key);
    StripAfterColon(value);
    assert line[..|key|] == key && line[|key| + 1..] == " " + value;
    PutMetaAt(meta, line, |key|, key, value);
  }

  lemma PutMetaAt(meta: map<string, string>, line: string, k: nat, key: string, value: string)
    requires IndexOf(line, ':') == k < |line| && Strip(line[..k]) == key && Strip(line[k + 1..]) == value
    ensures PutMeta(meta, line) == meta[key := value]
  {
  }

  lemma StripAfterColon(value: string)
    requires Stripped(value)
    ensures Strip(" " + value) == value
  {
    assert AllSpace(" ") && " " + value + "" == " " + value;
    StripPadded(" ", value, "");
  }

  lemma {:induction false} MetaOfLines(lines: seq<string>, keys: seq<string>, values: seq<string>, n: nat)
    requires |keys| == |values| && 1 <= n <= |keys| + 1 && |lines| == |keys| + 1
    requires forall i | 0 <= i < |keys| :: lines[i + 1] == MetaLine(keys[i], values[i])
    requires forall i | 0 <= i < |keys| :: IsKey(keys[i]) && Stripped(values[i])
    requires forall i, j | 0 <= i < j < |keys| :: keys[i] != keys[j]
    ensures forall i | 0 <= i < n - 1 ::
      keys[i] in MetaUpTo(lines, n) && MetaUpTo(lines, n)[keys[i]] == values[i]
  {
    if n > 1 {
      MetaOfLines(lines, keys, values, n - 1);
      assert lines[n - 1] == MetaLine(keys[n - 2], values[n - 2]);
      PutMetaLine(MetaUpTo(lines, n - 1), keys[n - 2], values[n - 2]);
    }
  }

  lemma KeysDiffer()
    ensures forall i, j | 0 <= i < j < |KEYS| :: KEYS[i] != KEYS[j]
  {
    assert "type"[1] != "tags"[1];
  }

  lemma {:induction false} JoinStripped(tags: seq<string>)
    requires forall t | t in tags :: IsToken(t)
    ensures Stripped(Join(", ", tags))
    ensures tags != [] ==> Join(", ", tags) != ""
  {
    if tags != [] {
      assert IsToken(tags[0]);
      if |tags| > 1 {
        JoinStripped(tags[1..]);
      }
    }
  }

  lemma MetaOfPrinted(e: MemoryEntry, floats: FloatText)
    requires WellFormed(e) && Lawful(floats)
    ensures var meta := MetaUpTo(MetaLines(e, floats), 8);
            forall i | 0 <= i < 7 :: KEYS[i] in meta && meta[KEYS[i]] == MetaValues(e, floats)[i]
  {
    var values := MetaValues(e, floats);
    MetaValuesAreClean(e, floats);
    KeysAreKeys();
    KeysDiffer();
    MetaOfLines(MetaLines(e, floats), KEYS, values, 8);
  }

  lemma TagPiece(lead: string, t: string)
    requires AllSpace(lead) && IsTag(t)
    ensures ',' !in lead + t && Strip(lead + t) == t
  {
    assert !IsSpace(',');
    StripPadded(lead, t, "");
    assert lead + t + "" == lead + t;
  }

  lemma ParseOneTag(s: string)
    requires ',' !in s
    ensures ParseTags(s) == if Strip(s) != "" then [Strip(s)] else []
  {
    assert SplitOn(s, ',') == [s];
    assert [s][1..] == [] && NonEmptyStripped([]) == [];
  }

  lemma NoTags(lead: string)
    requires AllSpace(lead)
    ensures ParseTags(lead + "") == []
  {
    assert !IsSpace(',');
    assert lead + "" == lead + "" + "" == lead;
    StripPadded(lead, "", "");
    ParseOneTag(lead);
  }

  lemma ParseFirstTag(piece: string, rest: string)
    requires ',' !in piece && Strip(piece) != ""
    ensures ParseTags(piece + [','] + rest) == [Strip(piece)] + ParseTags(rest)
  {
    var s := piece + [','] + rest;
    IndexOfFirst(piece, ',', rest);
    assert s[..|piece|] == piece && s[|piece| + 1..] == rest;
    assert SplitOn(s, ',') == [piece] + SplitOn(rest, ',');
    assert ([piece] + SplitOn(rest, ','))[1..] == SplitOn(rest, ',');
  }

  lemma JoinedTags(lead: string, tags: seq<string>)
    requires |tags| > 1
    ensures lead + Join(", ", tags) == (lead + tags[0]) + [','] + (" " + Join(", ", tags[1..]))
  {
  }

  lemma ParseMoreTags(lead: string, tags: seq<string>)
    requires |tags| > 1 && AllSpace(lead) && IsTag(tags[0])
    requires ParseTags(" " + Join(", ", tags[1..])) == tags[1..]
    ensures ParseTags(lead + Join(", ", tags)) == tags
  {
    TagPiece(lead, tags[0]);
    JoinedTags(lead, tags);
    ParseFirstTag(lead + tags[0], " " + Join(", ", tags[1..]));
  }

  /** Tags joined by ", " come back from the split at ',' and the stripping of each piece. */
  lemma {:induction false} TagsComeBack(lead: string, tags: seq<string>)
    requires AllSpace(lead) && forall t | t in tags :: IsTag(t)
    ensures ParseTags(lead + Join(", ", tags)) == tags
    decreases |tags|
  {
    if tags == [] {
      NoTags(lead);
    } else {
      var t, rest := tags[0], tags[1..];
      TagPiece(lead, t);
      if rest == [] {
        ParseOneTag(lead + t);
      } else {
        TagsComeBack(" ", rest);
        ParseMoreTags(lead, tags);
      }
    }
  }

  /** A well-formed entry, printed with any stripped content and any padding after it,
      parses to itself with that content. */
  lemma PrintedParses(e: MemoryEntry, content: string, padding: string, floats: FloatText)
    requires WellFormed(e) && Lawful(floats) && Stripped(content) && AllSpace(padding)
    ensures SectionEntry(Block(e, floats) + "\n\n" + content + padding, floats)
            == Some(e.(content := content))
  {
    BlockShape(e, floats);
    BlockEnds(e, floats);
    ChunkParts(Block(e, floats), content, padding);
    EntryOfPrintedMeta(e, content, floats);
  }

  lemma EntryOfPrintedMeta(e: MemoryEntry, content: string, floats: FloatText)
    requires WellFormed(e) && Lawful(floats) && Stripped(content)
    ensures EntryOfMeta(MetaUpTo(MetaLines(e, floats), 8), content, floats) == Some(e.(content := content))
  {
    MetaOfPrinted(e, floats);
    EntryOfListedMeta(MetaUpTo(MetaLines(e, floats), 8), MetaValues(e, floats), content, floats);
    TagsComeBack("", e.tags);
    assert "" + Join(", ", e.tags) == Join(", ", e.tags);
    ReadIntOfShow(e.accessCount);
    assert floats.read(floats.show(e.createdAt)) == Some(e.createdAt);
    FieldsComeBack(e, TypeValue(e.memoryType), Join(", ", e.tags), floats.show(e.createdAt),
                   ShowInt(e.accessCount), content, floats);
  }

  lemma EntryOfListedMeta(meta: map<string, string>, values: seq<string>, content: string, floats: FloatText)
    requires |values| == 7
    requires forall i | 0 <= i < 7 :: KEYS[i] in meta && meta[KEYS[i]] == values[i]
    ensures EntryOfMeta(meta, content, floats)
            == EntryOfFields(values[0], values[1], values[2], values[3], values[4], values[5], values[6],
                             content, floats)
  {
    assert KEYS[0] == "id" && KEYS[1] == "type" && KEYS[2] == "platform" && KEYS[3] == "app";
    assert KEYS[4] == "tags" && KEYS[5] == "created_at" && KEYS[6] == "access_count";
  }

  lemma FieldsComeBack(e: MemoryEntry, typeValue: string, tags: string, createdAt: string, accessCount: string,
                       content: string, floats: FloatText)
    requires e.entryId != "" && e.platform != "" && e.app != Some("")
    requires typeValue == TypeValue(e.memoryType) && ParseTags(tags) == e.tags
    requires floats.read(createdAt) == Some(e.createdAt) && ReadInt(accessCount) == Some(e.accessCount)
    requires Stripped(content)
    ensures EntryOfFields(e.entryId, typeValue, e.platform, e.app.GetOr(""), tags, createdAt, accessCount,
                          content, floats)
            == Some(e.(content := content))
  {
    StripIsIdentity(content);
    TypeComesBack(e.memoryType);
  }

  lemma TypeComesBack(t: MemoryType)
    ensures TypeOfValue(TypeValue(t)) == Some(t)
  {
  }
}
