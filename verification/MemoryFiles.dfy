/** Files of sections: how a text is split at its headings, and what printing a list of
    entries and parsing the text again gives back. */
module MemoryFiles {
  import opened Wrappers
  import opened Text
  import opened MemoryFormat
  import opened MemoryRoundTrip

  // ----- splitting at headings --------------------------------------------------

  predicate HeadMark(s: string) {
    |s| >= 3 && s[0] == '#' && s[1] == '#' && s[2] == ' '
  }

  /** A newline that a heading mark follows. */
  predicate MarkAt(s: string, i: nat)
    requires i < |s|
  {
    i + 4 <= |s| && s[i] == '\n' && s[i + 1] == '#' && s[i + 2] == '#' && s[i + 3] == ' '
  }

  predicate Free(s: string) {
    forall i | 0 <= i < |s| :: !MarkAt(s, i)
  }

  function FirstMark(s: string, i: nat): (k: nat)
    requires i <= |s|
    ensures i <= k <= |s|
    ensures k < |s| ==> MarkAt(s, k)
    ensures forall j :: i <= j < k ==> !MarkAt(s, j)
    decreases |s| - i
  {
    if i == |s| || MarkAt(s, i) then i else FirstMark(s, i + 1)
  }

  /** The chunks of a text that comes right after a heading mark. */
  function Chunks(s: string): (chunks: seq<string>)
    decreases |s|
  {
    var k := FirstMark(s, 0);
    if k == |s| then [s] else [s[..k + 1]] + Chunks(s[k + 4..])
  }

  /** `re.split("^## ", raw)[1:]` in multi-line mode. */
  function HeadedChunks(raw: string): seq<string> {
    if HeadMark(raw) then Chunks(raw[3..]) else
      var k := FirstMark(raw, 0);
      if k == |raw| then [] else Chunks(raw[k + 4..])
  }

  function Preamble(raw: string): string {
    if HeadMark(raw) then "" else
      var k := FirstMark(raw, 0);
      if k == |raw| then raw else raw[..k + 1]
  }

  /** Chunks put after their heading marks again. */
  function Headed(chunks: seq<string>): string {
    if chunks == [] then "" else "## " + chunks[0] + Headed(chunks[1..])
  }

  lemma FreeBefore(s: string, k: nat)
    requires k < |s| && forall j | 0 <= j < k :: !MarkAt(s, j)
    ensures Free(s[..k + 1])
  {
    var first := s[..k + 1];
    forall i | 0 <= i < |first| ensures !MarkAt(first, i) {
      assert MarkAt(first, i) ==> MarkAt(s, i);
    }
  }

  lemma {:induction false} ChunksLoseNothing(s: string)
    ensures "## " + s == Headed(Chunks(s))
    ensures forall c | c in Chunks(s) :: Free(c)
    decreases |s|
  {
    var k := FirstMark(s, 0);
    if k == |s| {
      assert [s][1..] == [] && Headed([]) == "";
    } else {
      ChunksLoseNothing(s[k + 4..]);
      assert s == s[..k + 1] + ("## " + s[k + 4..]);
      assert ([s[..k + 1]] + Chunks(s[k + 4..]))[1..] == Chunks(s[k + 4..]);
      FreeBefore(s, k);
    }
  }

  /** The split loses no character of the text and leaves no heading inside a chunk. */
  lemma SplitIsExact(raw: string)
    ensures raw == Preamble(raw) + Headed(HeadedChunks(raw))
    ensures forall c | c in HeadedChunks(raw) :: Free(c)
  {
    if HeadMark(raw) {
      ChunksLoseNothing(raw[3..]);
      assert raw == "" + ("## " + raw[3..]);
    } else {
      var k := FirstMark(raw, 0);
      if k < |raw| {
        ChunksLoseNothing(raw[k + 4..]);
        assert raw == raw[..k + 1] + ("## " + raw[k + 4..]);
      }
    }
  }

  lemma FirstMarkIs(s: string, k: nat)
    requires k <= |s|
    requires k < |s| ==> MarkAt(s, k)
    requires forall j | 0 <= j < k :: !MarkAt(s, j)
    ensures FirstMark(s, 0) == k
  {
    var m := FirstMark(s, 0);
    assert m < k ==> MarkAt(s, m);
  }

  /** A newline-terminated text gets one mark more from a heading put after it. */
  lemma FirstMarkAppend(s: string, t: string)
    requires s != "" && s[|s| - 1] == '\n'
    ensures var k := FirstMark(s, 0);
            FirstMark(s + ("## " + t), 0) == if k < |s| then k else |s| - 1
  {
    var whole, k := s + ("## " + t), FirstMark(s, 0);
    var first := if k < |s| then k else |s| - 1;
    forall j | 0 <= j < first ensures !MarkAt(whole, j) {
      assert !MarkAt(s, j);
    }
    FirstMarkIs(whole, first);
  }

  lemma ChunksCut(s: string, k: nat)
    requires k == FirstMark(s, 0) < |s|
    ensures Chunks(s) == [s[..k + 1]] + Chunks(s[k + 4..])
  {
  }

  lemma CutInside(s: string, t: string, i: nat, j: nat)
    requires i <= |s| && j <= |s|
    ensures (s + t)[..i] == s[..i] && (s + t)[j..] == s[j..] + t
  {
  }

  lemma LastChunk(s: string, t: string)
    requires s != "" && s[|s| - 1] == '\n' && FirstMark(s, 0) == |s|
    ensures Chunks(s) == [s] && Chunks(s + ("## " + t)) == [s] + Chunks(t)
  {
    var whole := s + ("## " + t);
    FirstMarkAppend(s, t);
    assert whole[..|s|] == s && whole[|s| + 3..] == t;
    ChunksCut(whole, |s| - 1);
  }

  lemma FirstChunk(s: string, mark: string, more: seq<string>, k: nat)
    requires k == FirstMark(s, 0) == FirstMark(s + mark, 0) < |s|
    requires Chunks(s[k + 4..] + mark) == Chunks(s[k + 4..]) + more
    ensures Chunks(s + mark) == Chunks(s) + more
  {
    var first, rest := s[..k + 1], Chunks(s[k + 4..]);
    CutInside(s, mark, k + 1, k + 4);
    ChunksCut(s, k);
    ChunksCut(s + mark, k);
    assert [first] + (rest + more) == ([first] + rest) + more;
  }

  /** Chunks of a newline-terminated text followed by another section. */
  lemma {:induction false} ChunksAppend(s: string, t: string)
    requires s != "" && s[|s| - 1] == '\n'
    ensures Chunks(s + ("## " + t)) == Chunks(s) + Chunks(t)
    decreases |s|
  {
    var k := FirstMark(s, 0);
    if k < |s| {
      var rest := s[k + 4..];
      assert rest != "" && rest[|rest| - 1] == '\n';
      ChunksAppend(rest, t);
      FirstMarkAppend(s, t);
      FirstChunk(s, "## " + t, Chunks(t), k);
    } else {
      LastChunk(s, t);
    }
  }

  // ----- printing and parsing a file --------------------------------------------

  function ParseChunks(chunks: seq<string>, floats: FloatText): seq<MemoryEntry> {
    if chunks == [] then [] else
      match SectionEntry(chunks[0], floats)
      case None => ParseChunks(chunks[1..], floats)
      case Some(e) => [e] + ParseChunks(chunks[1..], floats)
  }

  function ParseFile(raw: string, floats: FloatText): seq<MemoryEntry> {
    ParseChunks(HeadedChunks(ReadText(raw)), floats)
  }

  function Sections(es: seq<MemoryEntry>, floats: FloatText): string {
    if es == [] then "" else Section(es[0], floats) + Sections(es[1..], floats)
  }

  /** What the printed section of one entry parses to. */
  function Reparse(e: MemoryEntry, floats: FloatText): seq<MemoryEntry> {
    ParseChunks(Chunks(SectionBody(e, floats)), floats)
  }

  function ReparseAll(es: seq<MemoryEntry>, floats: FloatText): seq<MemoryEntry> {
    if es == [] then [] else Reparse(es[0], floats) + ReparseAll(es[1..], floats)
  }

  lemma {:induction false} ParseChunksAppend(a: seq<string>, b: seq<string>, floats: FloatText)
    ensures ParseChunks(a + b, floats) == ParseChunks(a, floats) + ParseChunks(b, floats)
  {
    if a == [] {
      assert a + b == b;
    } else {
      assert (a + b)[1..] == a[1..] + b && (a + b)[0] == a[0];
      ParseChunksAppend(a[1..], b, floats);
    }
  }

  lemma BodyParts(e: MemoryEntry, floats: FloatText)
    ensures SectionBody(e, floats) == Block(e, floats) + "\n\n" + e.content + "\n"
  {
    var tail := ["", e.content, ""];
    JoinAppend("\n", MetaLines(e, floats), tail);
    assert tail[1..] == [e.content, ""] && tail[1..][1..] == [""];
    assert Join("\n", tail[1..]) == e.content + "\n" + "" == e.content + "\n";
    assert Join("\n", tail) == "" + "\n" + (e.content + "\n") == "\n" + (e.content + "\n");
  }

  lemma ChunksAfterHeading(t: string)
    ensures HeadedChunks("## " + t) == Chunks(t)
  {
    assert ("## " + t)[3..] == t;
  }

  lemma SectionsStart(es: seq<MemoryEntry>, floats: FloatText)
    requires es != []
    ensures Sections(es, floats) == "## " + (SectionBody(es[0], floats) + Sections(es[1..], floats))
  {
  }

  lemma BodyThenHeading(body: string, t: string)
    requires body != "" && body[|body| - 1] == '\n'
    ensures Chunks(body + ("## " + t)) == Chunks(body) + HeadedChunks("## " + t)
  {
    ChunksAfterHeading(t);
    ChunksAppend(body, t);
  }

  lemma BodyThenRest(body: string, rest: string, t: string)
    requires body != "" && body[|body| - 1] == '\n' && (rest == "" || rest == "## " + t)
    ensures Chunks(body + rest) == Chunks(body) + HeadedChunks(rest)
  {
    if rest == "" {
      assert body + rest == body && HeadedChunks(rest) == [];
    } else {
      BodyThenHeading(body, t);
    }
  }

  lemma SectionsAreHeaded(es: seq<MemoryEntry>, floats: FloatText) returns (t: string)
    ensures Sections(es, floats) == "" || Sections(es, floats) == "## " + t
  {
    t := "";
    if es != [] {
      SectionsStart(es, floats);
      t := SectionBody(es[0], floats) + Sections(es[1..], floats);
    }
  }

  /** A printed file parses section by section. */
  lemma {:induction false} SectionsParse(es: seq<MemoryEntry>, floats: FloatText)
    ensures ParseChunks(HeadedChunks(Sections(es, floats)), floats) == ReparseAll(es, floats)
  {
    if es == [] {
      assert HeadedChunks("") == [];
    } else {
      var body, rest := SectionBody(es[0], floats), Sections(es[1..], floats);
      SectionsParse(es[1..], floats);
      BodyParts(es[0], floats);
      var t := SectionsAreHeaded(es[1..], floats);
      BodyThenRest(body, rest, t);
      SectionsStart(es, floats);
      ChunksAfterHeading(body + rest);
      ParseChunksAppend(Chunks(body), HeadedChunks(rest), floats);
    }
  }

  // ----- which entries survive ----------------------------------------------------

  /** What every entry read from a file satisfies. */
  ghost predicate Loadable(e: MemoryEntry) {
    WellFormed(e) && '\r' !in e.content && Free(e.content)
  }

  ghost predicate Savable(e: MemoryEntry) {
    Loadable(e) && !HeadMark(e.content)
  }

  lemma FreePiece(part: string, s: string)
    requires Within(part, s) && Free(s)
    ensures Free(part)
  {
    var left, right :| left + part + right == s;
    forall i | 0 <= i < |part| ensures !MarkAt(part, i) {
      assert MarkAt(part, i) ==> MarkAt(s, |left| + i);
    }
  }

  lemma ChunkLoadable(chunk: string, floats: FloatText)
    requires Free(chunk) && '\r' !in chunk && SectionEntry(chunk, floats).Some?
    ensures Loadable(SectionEntry(chunk, floats).value)
  {
    var content := Strip(Content(chunk));
    ParsedIsWellFormed(chunk, floats);
    ContentIsWithin(chunk);
    FreePiece(content, chunk);
    var left, right :| left + content + right == chunk;
  }

  lemma {:induction false} ChunksLoadable(chunks: seq<string>, floats: FloatText)
    requires forall c | c in chunks :: Free(c) && '\r' !in c
    ensures forall e | e in ParseChunks(chunks, floats) :: Loadable(e)
  {
    if chunks != [] {
      assert chunks[0] in chunks;
      ChunksLoadable(chunks[1..], floats);
      if SectionEntry(chunks[0], floats).Some? {
        ChunkLoadable(chunks[0], floats);
      }
    }
  }

  lemma {:induction false} HeadedChars(chunks: seq<string>)
    ensures forall c, x | c in chunks && x in c :: x in Headed(chunks)
  {
    if chunks != [] {
      HeadedChars(chunks[1..]);
    }
  }

  /** Every entry read from any text can be read from some text, and so has no heading,
      carriage return or unstripped field inside. */
  lemma ParsedIsLoadable(raw: string, floats: FloatText)
    ensures forall e | e in ParseFile(raw, floats) :: Loadable(e)
  {
    var s := ReadText(raw);
    SplitIsExact(s);
    HeadedChars(HeadedChunks(s));
    assert forall x | x in Headed(HeadedChunks(s)) :: x in s;
    ChunksLoadable(HeadedChunks(s), floats);
  }

  lemma BodyFirstMark(e: MemoryEntry, floats: FloatText)
    requires Loadable(e) && Lawful(floats)
    ensures var body := SectionBody(e, floats);
            FirstMark(body, 0) == if HeadMark(e.content) then |Block(e, floats)| + 1 else |body|
  {
    var block, body := Block(e, floats), SectionBody(e, floats);
    BodyParts(e, floats);
    BlockShape(e, floats);
    MarkAfterBlock(block, e.content, body);
  }

  lemma MarkAfterBlock(block: string, content: string, body: string)
    requires Tight(block) && Free(content) && body == block + "\n\n" + content + "\n"
    ensures FirstMark(body, 0) == if HeadMark(content) then |block| + 1 else |body|
  {
    forall j | 0 <= j <= |block| ensures !MarkAt(body, j) {
      assert j < |block| && body[j] == '\n' ==> block[j] == '\n' && block[j + 1] == body[j + 1];
    }
    forall j | |block| + 2 <= j < |body| ensures !MarkAt(body, j) {
      var i := j - |block| - 2;
      assert i < |content| ==> !MarkAt(content, i);
    }
    FirstMarkIs(body, if HeadMark(content) then |block| + 1 else |body|);
  }

  /** A savable entry is all that its own section parses to. */
  lemma SavableComesBack(e: MemoryEntry, floats: FloatText)
    requires Savable(e) && Lawful(floats)
    ensures Reparse(e, floats) == [e]
  {
    var body := SectionBody(e, floats);
    BodyFirstMark(e, floats);
    BodyParts(e, floats);
    assert AllSpace("\n");
    PrintedParses(e, e.content, "\n", floats);
    assert Chunks(body) == [body] && [body][1..] == [];
    assert ParseChunks([], floats) == [];
  }

  lemma TornChunks(body: string, head: string, tail: string)
    requires |head| > 0 && body == head + ("## " + tail)
    requires FirstMark(body, 0) == |head| - 1 && FirstMark(tail, 0) == |tail|
    ensures Chunks(body) == [head, tail]
  {
    assert body[..|head|] == head && body[|head| + 3..] == tail;
    assert Chunks(tail) == [tail];
  }

  /** An entry whose content starts with a heading mark is torn: the entries its section
      parses to all have shorter contents. */
  lemma HeadedIsTorn(e: MemoryEntry, floats: FloatText)
    requires Loadable(e) && Lawful(floats) && HeadMark(e.content)
    ensures forall r | r in Reparse(e, floats) :: |r.content| < |e.content|
  {
    var head, tail := Block(e, floats) + "\n\n", e.content[3..] + "\n";
    BodyFirstMark(e, floats);
    BodyParts(e, floats);
    TailHasNoMark(e.content, tail);
    assert e.content == "## " + e.content[3..];
    TornChunks(SectionBody(e, floats), head, tail);
    HeadParses(e, floats);
    TwoChunks(head, tail, floats);
    ContentIsShort(tail);
  }

  lemma HeadParses(e: MemoryEntry, floats: FloatText)
    requires Loadable(e) && Lawful(floats)
    ensures SectionEntry(Block(e, floats) + "\n\n", floats) == Some(e.(content := ""))
  {
    var head := Block(e, floats) + "\n\n";
    assert head == head + "" + "";
    PrintedParses(e, "", "", floats);
  }

  lemma TailHasNoMark(content: string, tail: string)
    requires Free(content) && HeadMark(content) && tail == content[3..] + "\n"
    ensures FirstMark(tail, 0) == |tail|
  {
    forall j | 0 <= j < |tail| ensures !MarkAt(tail, j) {
      assert MarkAt(tail, j) ==> MarkAt(content, j + 3);
    }
    FirstMarkIs(tail, |tail|);
  }

  lemma TwoChunks(a: string, b: string, floats: FloatText)
    ensures forall r | r in ParseChunks([a, b], floats) ::
      SectionEntry(a, floats) == Some(r) || SectionEntry(b, floats) == Some(r)
  {
    assert [a, b][1..] == [b] && [b][1..] == [];
    assert ParseChunks([], floats) == [];
  }

  lemma ContentIsShort(chunk: string)
    ensures |Strip(Content(chunk))| <= |chunk|
  {
    ContentIsWithin(chunk);
    var left, right :| left + Strip(Content(chunk)) + right == chunk;
  }
}
