/** The store itself: an insertion-ordered dictionary of entries kept in one Markdown file
    a type, and exactly when saving and loading loses nothing. */
module MemoryStoreModel {
  import opened Wrappers
  import opened Text
  import opened MemoryFormat
  import opened MemoryRoundTrip
  import opened MemoryFiles

  // ----- insertion-ordered dictionaries --------------------------------------------

  datatype Dict = Dict(order: seq<string>, byId: map<string, MemoryEntry>)

  ghost predicate Distinct(keys: seq<string>) {
    forall i, j | 0 <= i < j < |keys| :: keys[i] != keys[j]
  }

  ghost predicate ValidDict(d: Dict) {
    && (forall k :: k in d.byId <==> k in d.order)
    && Distinct(d.order)
  }

  const EMPTY := Dict([], map[])

  /** `d[key] = e`: a present key keeps its place. */
  function Put(d: Dict, key: string, e: MemoryEntry): Dict {
    Dict(if key in d.byId then d.order else d.order + [key], d.byId[key := e])
  }

  /** `del d[key]`. */
  function Delete(d: Dict, key: string): Dict {
    Dict(Without(d.order, key), d.byId - {key})
  }

  function Without(keys: seq<string>, key: string): (r: seq<string>)
    ensures forall k :: k in r <==> k in keys && k != key
    ensures Distinct(keys) ==> Distinct(r)
  {
    if keys == [] then [] else
      var rest := Without(keys[1..], key);
      assert Distinct(keys) ==> Distinct(keys[1..]) && keys[0] !in keys[1..];
      if keys[0] == key then rest else [keys[0]] + rest
  }

  /** The entries read one after another, later ones replacing earlier ones with their id. */
  function PutAll(d: Dict, es: seq<MemoryEntry>): Dict
    decreases |es|
  {
    if es == [] then d else
      var last := es[|es| - 1];
      Put(PutAll(d, es[..|es| - 1]), last.entryId, last)
  }

  /** `list(d.values())`. */
  function Values(d: Dict): seq<MemoryEntry>
    requires ValidDict(d)
  {
    seq(|d.order|, i requires 0 <= i < |d.order| => d.byId[d.order[i]])
  }

  // ----- files ---------------------------------------------------------------------

  const TYPES := [OsGuide, AppGuide, IconGuide, Policy]

  function FileName(t: MemoryType): string {
    match t
    case OsGuide => "os_guide.md"
    case AppGuide => "app_guide.md"
    case IconGuide => "icon_guide.md"
    case Policy => "policy.md"
  }

  function OfType(es: seq<MemoryEntry>, t: MemoryType): (r: seq<MemoryEntry>)
    ensures forall e :: e in r <==> e in es && e.memoryType == t
  {
    if es == [] then [] else
      var before, last := OfType(es[..|es| - 1], t), es[|es| - 1];
      assert es == es[..|es| - 1] + [last];
      if last.memoryType == t then before + [last] else before
  }

  /** The entries of a type are in the order in which they stand among all: each is at the place that
      those before it leave to it. */
  lemma {:induction false} OfTypeKeepsOrder(es: seq<MemoryEntry>, t: MemoryType, i: nat)
    requires i < |es| && es[i].memoryType == t
    ensures |OfType(es[..i], t)| < |OfType(es, t)| && OfType(es, t)[|OfType(es[..i], t)|] == es[i]
    decreases |es|
  {
    var front := es[..|es| - 1];
    if i < |front| {
      OfTypeKeepsOrder(front, t, i);
      assert front[..i] == es[..i];
    } else {
      assert es[..i] == front;
    }
  }

  /** The files after the first n types have been rewritten. */
  function SaveTypes(es: seq<MemoryEntry>, files: map<string, string>, n: nat, floats: FloatText)
      : map<string, string>
    requires n <= |TYPES|
  {
    if n == 0 then files else
      WriteFile(SaveTypes(es, files, n - 1, floats), FileName(TYPES[n - 1]), OfType(es, TYPES[n - 1]), floats)
  }

  /** The file with these entries; without any there is none. */
  function WriteFile(files: map<string, string>, name: string, es: seq<MemoryEntry>, floats: FloatText)
      : map<string, string>
  {
    if es == [] then files - {name} else files[name := Sections(es, floats)]
  }

  function ReadFile(files: map<string, string>, t: MemoryType, floats: FloatText): seq<MemoryEntry> {
    if FileName(t) in files then ParseFile(files[FileName(t)], floats) else []
  }

  /** All entries of the first n types' files, in reading order. */
  function ReadTypes(files: map<string, string>, n: nat, floats: FloatText): seq<MemoryEntry>
    requires n <= |TYPES|
  {
    if n == 0 then [] else ReadTypes(files, n - 1, floats) + ReadFile(files, TYPES[n - 1], floats)
  }

  /** What `load` leaves in memory. */
  function Loaded(files: map<string, string>, floats: FloatText): Dict {
    PutAll(EMPTY, ReadTypes(files, |TYPES|, floats))
  }

  /** What `save` leaves on disk. */
  function Saved(d: Dict, files: map<string, string>, floats: FloatText): map<string, string>
    requires ValidDict(d)
  {
    SaveTypes(Values(d), files, |TYPES|, floats)
  }

  // ----- dictionaries built by reading ----------------------------------------------

  lemma PutIsValid(d: Dict, key: string, e: MemoryEntry)
    requires ValidDict(d)
    ensures ValidDict(Put(d, key, e))
  {
  }

  lemma {:induction false} PutAllIsValid(d: Dict, es: seq<MemoryEntry>)
    requires ValidDict(d)
    ensures ValidDict(PutAll(d, es))
    decreases |es|
  {
    if es != [] {
      PutAllIsValid(d, es[..|es| - 1]);
    }
  }

  lemma {:induction false} PutAllAppend(d: Dict, a: seq<MemoryEntry>, b: seq<MemoryEntry>)
    ensures PutAll(d, a + b) == PutAll(PutAll(d, a), b)
    decreases |b|
  {
    if b == [] {
      assert a + b == a;
    } else {
      var n := |b| - 1;
      PutAllAppend(d, a, b[..n]);
      assert (a + b)[..|a + b| - 1] == a + b[..n];
    }
  }

  /** Every key was read, and stands for an entry read with that id. */
  lemma {:induction false} PutAllFromRead(es: seq<MemoryEntry>)
    ensures var m := PutAll(EMPTY, es).byId;
            && (forall k | k in m :: m[k] in es && m[k].entryId == k)
            && (forall e | e in es :: e.entryId in m)
    decreases |es|
  {
    if es != [] {
      PutAllFromRead(es[..|es| - 1]);
      assert es == es[..|es| - 1] + [es[|es| - 1]];
    }
  }

  // ----- which entry a key stands for --------------------------------------------------

  /** The entry is the last with its id. */
  ghost predicate IsLastOfId(es: seq<MemoryEntry>, i: nat) {
    i < |es| && forall j: nat | i < j < |es| :: es[j].entryId != es[i].entryId
  }

  lemma LastGoesOn(es: seq<MemoryEntry>, i: nat)
    requires es != [] && i < |es| - 1
    ensures IsLastOfId(es, i) <==> IsLastOfId(es[..|es| - 1], i) && es[|es| - 1].entryId != es[i].entryId
  {
    var front := es[..|es| - 1];
    assert forall j: nat | j < |front| :: front[j] == es[j];
  }

  /** The id is that of some entry. */
  predicate IsId(k: string, es: seq<MemoryEntry>) {
    exists i: nat :: i < |es| && es[i].entryId == k
  }

  /** After reading, an id stands for the last entry read with it, also where it was known before;
      the ids not read keep what they stand for. */
  ghost predicate LastWins(before: map<string, MemoryEntry>, after: map<string, MemoryEntry>, es: seq<MemoryEntry>) {
    && (forall i: nat | IsLastOfId(es, i) :: es[i].entryId in after && after[es[i].entryId] == es[i])
    && (forall k | !IsId(k, es) :: k in after <==> k in before)
    && (forall k | !IsId(k, es) && k in before :: after[k] == before[k])
  }

  lemma IdsGoOn(front: seq<MemoryEntry>, last: MemoryEntry, k: string)
    ensures IsId(k, front + [last]) <==> IsId(k, front) || last.entryId == k
  {
    var es := front + [last];
    assert es[|front|] == last && forall i: nat | i < |front| :: es[i] == front[i];
  }

  lemma {:induction false} PutAllKeepsLast(d: Dict, es: seq<MemoryEntry>)
    ensures LastWins(d.byId, PutAll(d, es).byId, es)
    decreases |es|
  {
    if es != [] {
      var front, last := es[..|es| - 1], es[|es| - 1];
      PutAllKeepsLast(d, front);
      assert es == front + [last];
      forall k ensures IsId(k, es) <==> IsId(k, front) || last.entryId == k {
        IdsGoOn(front, last, k);
      }
      forall i: nat | IsLastOfId(es, i)
        ensures es[i].entryId in PutAll(d, es).byId && PutAll(d, es).byId[es[i].entryId] == es[i]
      {
        if i < |front| {
          LastGoesOn(es, i);
          assert front[i] == es[i];
        }
      }
    }
  }

  /** A deleted id leaves its place, and nothing else changes. */
  lemma DeleteCuts(d: Dict, key: string) returns (i: nat)
    requires ValidDict(d) && key in d.byId
    ensures i < |d.order| && d.order[i] == key
    ensures var after := Delete(d, key);
            && after.order == d.order[..i] + d.order[i + 1..]
            && (forall k :: k in after.byId <==> k in d.byId && k != key)
            && (forall k | k in after.byId :: after.byId[k] == d.byId[k])
  {
    i := WithoutCuts(d.order, key);
  }

  lemma {:induction false} WithoutCuts(keys: seq<string>, key: string) returns (i: nat)
    requires key in keys && Distinct(keys)
    ensures i < |keys| && keys[i] == key && Without(keys, key) == keys[..i] + keys[i + 1..]
  {
    if keys[0] == key {
      i := 0;
      assert forall k | k in keys[1..] :: k != key;
      NothingLeftOut(keys[1..], key);
    } else {
      i := WithoutCuts(keys[1..], key);
      assert keys[..i + 1] == [keys[0]] + keys[1..][..i];
      i := i + 1;
    }
  }

  lemma {:induction false} NothingLeftOut(keys: seq<string>, key: string)
    requires key !in keys
    ensures Without(keys, key) == keys
  {
    if keys != [] {
      NothingLeftOut(keys[1..], key);
    }
  }

  lemma ValuesOf(d: Dict)
    requires ValidDict(d)
    ensures forall e :: e in Values(d) <==> exists k | k in d.byId :: d.byId[k] == e
  {
    var vs := Values(d);
    forall k | k in d.byId ensures d.byId[k] in vs {
      var i :| 0 <= i < |d.order| && d.order[i] == k;
      assert vs[i] == d.byId[k];
    }
    forall e | e in vs ensures exists k | k in d.byId :: d.byId[k] == e {
      var i :| 0 <= i < |vs| && vs[i] == e;
      assert d.order[i] in d.byId;
    }
  }

  // ----- what the files hold after a save ---------------------------------------------

  lemma FileNamesDiffer()
    ensures forall i, j | 0 <= i < j < |TYPES| :: FileName(TYPES[i]) != FileName(TYPES[j])
  {
    assert |FileName(OsGuide)| == 11 && |FileName(AppGuide)| == 12;
    assert |FileName(IconGuide)| == 13 && |FileName(Policy)| == 9;
  }

  /** The file holds the entries of a type, and there is none where there are no such entries. */
  predicate Holds(files: map<string, string>, name: string, group: seq<MemoryEntry>, floats: FloatText) {
    (name in files <==> group != []) && (name in files ==> files[name] == Sections(group, floats))
  }

  lemma WrittenHolds(files: map<string, string>, name: string, group: seq<MemoryEntry>, floats: FloatText)
    ensures Holds(WriteFile(files, name, group, floats), name, group, floats)
    ensures forall other, its | other != name && Holds(files, other, its, floats) ::
              Holds(WriteFile(files, name, group, floats), other, its, floats)
  {
  }

  lemma {:induction false} SavedFiles(es: seq<MemoryEntry>, files: map<string, string>, n: nat, floats: FloatText)
    requires n <= |TYPES|
    ensures forall i | 0 <= i < n :: Holds(SaveTypes(es, files, n, floats), FileName(TYPES[i]), OfType(es, TYPES[i]), floats)
  {
    if n > 0 {
      SavedFiles(es, files, n - 1, floats);
      FileNamesDiffer();
      WrittenHolds(SaveTypes(es, files, n - 1, floats), FileName(TYPES[n - 1]), OfType(es, TYPES[n - 1]), floats);
    }
  }

  lemma BlockHasNoReturn(e: MemoryEntry, floats: FloatText)
    requires WellFormed(e) && Lawful(floats)
    ensures '\r' !in Block(e, floats)
  {
    MetaLinesAreSolid(e, floats);
    var lines := MetaLines(e, floats);
    assert forall line | line in lines :: line == lines[0] || line in lines[1..];
    JoinHasNoReturn(lines);
  }

  lemma {:induction false} JoinHasNoReturn(lines: seq<string>)
    requires forall line | line in lines :: OneLine(line)
    ensures '\r' !in Join("\n", lines)
  {
    assert IsLineBreak('\r');
    if lines != [] {
      assert OneLine(lines[0]);
      if |lines| > 1 {
        JoinHasNoReturn(lines[1..]);
      }
    }
  }

  lemma {:induction false} SectionsHaveNoReturn(es: seq<MemoryEntry>, floats: FloatText)
    requires Lawful(floats) && forall e | e in es :: Loadable(e)
    ensures '\r' !in Sections(es, floats)
  {
    if es != [] {
      var e := es[0];
      assert Loadable(e);
      BlockHasNoReturn(e, floats);
      BodyParts(e, floats);
      SectionsHaveNoReturn(es[1..], floats);
      SectionsStart(es, floats);
    }
  }

  lemma ReadSavedFile(es: seq<MemoryEntry>, files: map<string, string>, i: nat, floats: FloatText)
    requires Lawful(floats) && (forall e | e in es :: Loadable(e)) && i < |TYPES|
    ensures ReadFile(SaveTypes(es, files, |TYPES|, floats), TYPES[i], floats)
            == ReparseAll(OfType(es, TYPES[i]), floats)
  {
    var group := OfType(es, TYPES[i]);
    SavedFiles(es, files, |TYPES|, floats);
    SectionsHaveNoReturn(group, floats);
    SectionsParse(group, floats);
  }

  /** r is among what the printed section of one of the entries parses to. */
  ghost predicate FromSection(r: MemoryEntry, es: seq<MemoryEntry>, floats: FloatText) {
    exists e | e in es :: r in Reparse(e, floats)
  }

  lemma {:induction false} ReparseAllMembers(es: seq<MemoryEntry>, floats: FloatText)
    ensures forall r :: r in ReparseAll(es, floats) <==> FromSection(r, es, floats)
  {
    if es != [] {
      ReparseAllMembers(es[1..], floats);
      assert es == [es[0]] + es[1..];
      forall r ensures FromSection(r, es, floats) <==> r in Reparse(es[0], floats) || FromSection(r, es[1..], floats) {
      }
    }
  }

  /** r comes from the section of an entry of one of the first n types. */
  ghost predicate FromTypes(r: MemoryEntry, es: seq<MemoryEntry>, n: nat, floats: FloatText)
    requires n <= |TYPES|
  {
    n > 0 && (FromTypes(r, es, n - 1, floats) || FromSection(r, OfType(es, TYPES[n - 1]), floats))
  }

  lemma {:induction false} ReadSavedMember(r: MemoryEntry, es: seq<MemoryEntry>, files: map<string, string>, n: nat,
                                           floats: FloatText)
    requires Lawful(floats) && (forall e | e in es :: Loadable(e)) && n <= |TYPES|
    ensures r in ReadTypes(SaveTypes(es, files, |TYPES|, floats), n, floats) <==> FromTypes(r, es, n, floats)
  {
    if n > 0 {
      ReadSavedMember(r, es, files, n - 1, floats);
      ReadSavedFile(es, files, n - 1, floats);
      ReparseAllMembers(OfType(es, TYPES[n - 1]), floats);
    }
  }

  // ----- the round trip ----------------------------------------------------------------

  /** The store that a fresh load of a saved store finds. */
  function Reloaded(d: Dict, files: map<string, string>, floats: FloatText): Dict
    requires ValidDict(d)
  {
    Loaded(Saved(d, files, floats), floats)
  }

  ghost predicate Keyed(d: Dict) {
    forall k | k in d.byId :: d.byId[k].entryId == k
  }

  ghost predicate AllSavable(d: Dict) {
    forall k | k in d.byId :: Savable(d.byId[k])
  }

  ghost predicate AllLoadable(d: Dict) {
    forall k | k in d.byId :: Loadable(d.byId[k])
  }

  lemma EveryTypeIsListed(t: MemoryType) returns (i: nat)
    ensures i < |TYPES| && TYPES[i] == t
  {
    i := match t case OsGuide => 0 case AppGuide => 1 case IconGuide => 2 case Policy => 3;
  }

  lemma {:induction false} FromTypedSection(r: MemoryEntry, es: seq<MemoryEntry>, e: MemoryEntry, i: nat, n: nat, floats: FloatText)
    requires e in es && r in Reparse(e, floats) && i < n <= |TYPES| && TYPES[i] == e.memoryType
    ensures FromTypes(r, es, n, floats)
  {
    if i == n - 1 {
      assert e in OfType(es, TYPES[i]);
    } else {
      FromTypedSection(r, es, e, i, n - 1, floats);
    }
  }

  lemma {:induction false} FromTypesIsFromSection(r: MemoryEntry, es: seq<MemoryEntry>, n: nat, floats: FloatText)
    requires n <= |TYPES| && FromTypes(r, es, n, floats)
    ensures FromSection(r, es, floats)
  {
    if FromTypes(r, es, n - 1, floats) {
      FromTypesIsFromSection(r, es, n - 1, floats);
    }
  }

  /** Exactly the entries that the saved sections parse to are read back. */
  lemma SavedMembers(es: seq<MemoryEntry>, files: map<string, string>, floats: FloatText)
    requires Lawful(floats) && forall e | e in es :: Loadable(e)
    ensures forall r :: r in ReadTypes(SaveTypes(es, files, |TYPES|, floats), |TYPES|, floats)
                        <==> FromSection(r, es, floats)
  {
    forall r: MemoryEntry
      ensures r in ReadTypes(SaveTypes(es, files, |TYPES|, floats), |TYPES|, floats) <==> FromSection(r, es, floats)
    {
      ReadSavedMember(r, es, files, |TYPES|, floats);
      if FromSection(r, es, floats) {
        var e :| e in es && r in Reparse(e, floats);
        var i := EveryTypeIsListed(e.memoryType);
        FromTypedSection(r, es, e, i, |TYPES|, floats);
      }
      if FromTypes(r, es, |TYPES|, floats) {
        FromTypesIsFromSection(r, es, |TYPES|, floats);
      }
    }
  }

  lemma SavableSections(es: seq<MemoryEntry>, floats: FloatText)
    requires Lawful(floats) && forall e | e in es :: Savable(e)
    ensures forall r :: FromSection(r, es, floats) <==> r in es
  {
    forall e | e in es ensures Reparse(e, floats) == [e] {
      SavableComesBack(e, floats);
    }
    forall r ensures FromSection(r, es, floats) <==> r in es {
      assert r in es ==> r in Reparse(r, floats);
    }
  }

  /** Reading exactly the values of a keyed dictionary, in any order, rebuilds it. */
  lemma PutAllOfValues(d: Dict, read: seq<MemoryEntry>)
    requires ValidDict(d) && Keyed(d) && forall r :: r in read <==> r in Values(d)
    ensures PutAll(EMPTY, read).byId == d.byId
  {
    PutAllFromRead(read);
    ValuesOf(d);
    var m := PutAll(EMPTY, read).byId;
    forall k | k in d.byId ensures k in m {
      assert d.byId[k] in read;
    }
    forall k | k in m ensures k in d.byId && m[k] == d.byId[k] {
      assert m[k] in Values(d);
    }
  }

  lemma SavableReload(d: Dict, files: map<string, string>, floats: FloatText)
    requires ValidDict(d) && Lawful(floats) && Keyed(d) && AllSavable(d)
    ensures Reloaded(d, files, floats).byId == d.byId
  {
    var vs := Values(d);
    ValuesOf(d);
    assert forall e | e in vs :: Savable(e);
    SavedMembers(vs, files, floats);
    SavableSections(vs, floats);
    PutAllOfValues(d, ReadTypes(Saved(d, files, floats), |TYPES|, floats));
  }

  lemma {:induction false} ReadTypesLoadable(files: map<string, string>, n: nat, floats: FloatText)
    requires n <= |TYPES|
    ensures forall e | e in ReadTypes(files, n, floats) :: Loadable(e)
  {
    if n > 0 {
      ReadTypesLoadable(files, n - 1, floats);
      if FileName(TYPES[n - 1]) in files {
        ParsedIsLoadable(files[FileName(TYPES[n - 1])], floats);
      }
    }
  }

  /** The value that a load finds under an id is the last entry read with that id, in the order of
      the four files, and the ids are those read. */
  lemma LoadedKeepsLast(files: map<string, string>, floats: FloatText)
    ensures var read := ReadFile(files, OsGuide, floats) + ReadFile(files, AppGuide, floats)
                        + ReadFile(files, IconGuide, floats) + ReadFile(files, Policy, floats);
            LastWins(map[], Loaded(files, floats).byId, read)
  {
    var read := ReadTypes(files, |TYPES|, floats);
    assert ReadTypes(files, 0, floats) == [];
    assert ReadTypes(files, 1, floats) == ReadFile(files, OsGuide, floats);
    assert ReadTypes(files, 2, floats) == ReadTypes(files, 1, floats) + ReadFile(files, AppGuide, floats);
    assert ReadTypes(files, 3, floats) == ReadTypes(files, 2, floats) + ReadFile(files, IconGuide, floats);
    PutAllKeepsLast(EMPTY, read);
  }

  /** Whatever the files hold, a load yields a well-keyed dictionary of loadable entries. */
  lemma LoadedIsSound(files: map<string, string>, floats: FloatText)
    ensures ValidDict(Loaded(files, floats)) && Keyed(Loaded(files, floats)) && AllLoadable(Loaded(files, floats))
  {
    var read := ReadTypes(files, |TYPES|, floats);
    PutAllIsValid(EMPTY, read);
    PutAllFromRead(read);
    ReadTypesLoadable(files, |TYPES|, floats);
  }

  lemma {:induction false} LongestHeaded(es: seq<MemoryEntry>) returns (i: nat)
    requires exists e | e in es :: HeadMark(e.content)
    ensures i < |es| && HeadMark(es[i].content)
    ensures forall e | e in es && HeadMark(e.content) :: |e.content| <= |es[i].content|
  {
    if exists e | e in es[1..] :: HeadMark(e.content) {
      var j := LongestHeaded(es[1..]);
      assert es == [es[0]] + es[1..];
      i := if HeadMark(es[0].content) && |es[0].content| > |es[1..][j].content| then 0 else j + 1;
    } else {
      i := 0;
      assert es == [es[0]] + es[1..];
    }
  }

  lemma HeadedComesFromLonger(e: MemoryEntry, source: MemoryEntry, floats: FloatText)
    requires Lawful(floats) && Loadable(source) && e in Reparse(source, floats) && HeadMark(e.content)
    ensures HeadMark(source.content) && |e.content| < |source.content|
  {
    if HeadMark(source.content) {
      HeadedIsTorn(source, floats);
    } else {
      SavableComesBack(source, floats);
    }
  }

  /** When every entry comes out of some entry's section, no content starts with a heading:
      the longest such content could only come out of a longer one. */
  lemma SurvivorsAreNotHeaded(es: seq<MemoryEntry>, floats: FloatText)
    requires Lawful(floats)
    requires forall e | e in es :: Loadable(e)
    requires forall e | e in es :: FromSection(e, es, floats)
    ensures forall e | e in es :: !HeadMark(e.content)
  {
    if exists e | e in es :: HeadMark(e.content) {
      var i := LongestHeaded(es);
      var longest := es[i];
      assert FromSection(longest, es, floats);
      var source :| source in es && longest in Reparse(source, floats);
      HeadedComesFromLonger(longest, source, floats);
      assert false;
    }
  }

  lemma RebuiltFromRead(d: Dict, read: seq<MemoryEntry>)
    requires ValidDict(d) && PutAll(EMPTY, read).byId == d.byId && forall e | e in read :: Loadable(e)
    ensures Keyed(d) && forall e | e in Values(d) :: e in read && Loadable(e)
  {
    PutAllFromRead(read);
    ValuesOf(d);
  }

  lemma ReloadNeedsSavable(d: Dict, files: map<string, string>, floats: FloatText)
    requires ValidDict(d) && Lawful(floats)
    requires Reloaded(d, files, floats).byId == d.byId
    ensures Keyed(d) && AllSavable(d)
  {
    var vs, read := Values(d), ReadTypes(Saved(d, files, floats), |TYPES|, floats);
    ReadTypesLoadable(Saved(d, files, floats), |TYPES|, floats);
    RebuiltFromRead(d, read);
    SavedMembers(vs, files, floats);
    SurvivorsAreNotHeaded(vs, floats);
    forall k | k in d.byId ensures Savable(d.byId[k]) {
      ValuesOf(d);
    }
  }

  /** Saving and loading is the identity exactly on the dictionaries that are keyed by entry
      id and hold only entries that are well formed, free of carriage returns and of headings. */
  lemma ReloadIsIdentityIff(d: Dict, files: map<string, string>, floats: FloatText)
    requires ValidDict(d) && Lawful(floats)
    ensures Reloaded(d, files, floats).byId == d.byId <==> Keyed(d) && AllSavable(d)
  {
    if Keyed(d) && AllSavable(d) {
      SavableReload(d, files, floats);
    }
    if Reloaded(d, files, floats).byId == d.byId {
      ReloadNeedsSavable(d, files, floats);
    }
  }

  /** For any files at all: load, save, load gives what the first load gave exactly when no
      content read starts with a heading mark. */
  lemma NormalFormIff(files: map<string, string>, floats: FloatText)
    requires Lawful(floats)
    ensures var d := Loaded(files, floats);
            && ValidDict(d)
            && (Reloaded(d, files, floats).byId == d.byId <==>
                  forall k | k in d.byId :: !HeadMark(d.byId[k].content))
  {
    var d := Loaded(files, floats);
    LoadedIsSound(files, floats);
    ReloadIsIdentityIff(d, files, floats);
  }

  // ----- the order after a reload ------------------------------------------------------------

  ghost predicate IdsDiffer(es: seq<MemoryEntry>) {
    forall i: nat, j: nat | i < j < |es| :: es[i].entryId != es[j].entryId
  }

  ghost predicate NoCommonId(a: seq<MemoryEntry>, b: seq<MemoryEntry>) {
    forall x, y | x in a && y in b :: x.entryId != y.entryId
  }

  /** Entries with different ids are put one after the other. */
  lemma {:induction false} PutAllInOrder(es: seq<MemoryEntry>)
    requires IdsDiffer(es)
    ensures ValidDict(PutAll(EMPTY, es)) && Values(PutAll(EMPTY, es)) == es
  {
    PutAllIsValid(EMPTY, es);
    if es != [] {
      var front, last := es[..|es| - 1], es[|es| - 1];
      PutAllInOrder(front);
      IdIsNew(front, last, es);
      PutLast(PutAll(EMPTY, front), front, last);
      assert es == front + [last];
    }
  }

  lemma IdIsNew(front: seq<MemoryEntry>, last: MemoryEntry, es: seq<MemoryEntry>)
    requires es == front + [last] && IdsDiffer(es)
    ensures last.entryId !in PutAll(EMPTY, front).byId
  {
    PutAllFromRead(front);
    forall e | e in front ensures e.entryId != last.entryId {
      var i: nat :| i < |front| && front[i] == e;
      assert es[i].entryId != es[|front|].entryId;
    }
  }

  lemma PutLast(d: Dict, front: seq<MemoryEntry>, last: MemoryEntry)
    requires ValidDict(d) && Values(d) == front && last.entryId !in d.byId
    ensures ValidDict(Put(d, last.entryId, last)) && Values(Put(d, last.entryId, last)) == front + [last]
  {
    PutIsValid(d, last.entryId, last);
    var after := Put(d, last.entryId, last);
    forall i: nat | i < |d.order| ensures Values(after)[i] == front[i] {
      assert d.order[i] in d.order && d.order[i] != last.entryId;
    }
  }

  lemma JoinedIdsDiffer(a: seq<MemoryEntry>, b: seq<MemoryEntry>)
    requires IdsDiffer(a) && IdsDiffer(b) && NoCommonId(a, b)
    ensures IdsDiffer(a + b)
  {
  }

  lemma {:induction false} OfTypeIdsDiffer(es: seq<MemoryEntry>, t: MemoryType)
    requires IdsDiffer(es)
    ensures IdsDiffer(OfType(es, t))
  {
    if es != [] {
      var front, last := es[..|es| - 1], es[|es| - 1];
      OfTypeIdsDiffer(front, t);
      assert NoCommonId(front, [last]);
      JoinedIdsDiffer(OfType(front, t), [last]);
    }
  }

  lemma SameIdSameEntry(es: seq<MemoryEntry>, x: MemoryEntry, y: MemoryEntry)
    requires IdsDiffer(es) && x in es && y in es && x.entryId == y.entryId
    ensures x == y
  {
    var i: nat :| i < |es| && es[i] == x;
    var j: nat :| j < |es| && es[j] == y;
  }

  /** The entries of the first n types, type by type. */
  function Grouped(es: seq<MemoryEntry>, n: nat): (r: seq<MemoryEntry>)
    requires n <= |TYPES|
  {
    if n == 0 then [] else Grouped(es, n - 1) + OfType(es, TYPES[n - 1])
  }

  lemma {:induction false} GroupedIdsDiffer(es: seq<MemoryEntry>, n: nat)
    requires IdsDiffer(es) && n <= |TYPES|
    ensures IdsDiffer(Grouped(es, n))
    ensures forall e | e in Grouped(es, n) :: e in es && exists i: nat :: i < n && TYPES[i] == e.memoryType
  {
    if n > 0 {
      var before, group := Grouped(es, n - 1), OfType(es, TYPES[n - 1]);
      GroupedIdsDiffer(es, n - 1);
      OfTypeIdsDiffer(es, TYPES[n - 1]);
      forall x, y | x in before && y in group ensures x.entryId != y.entryId {
        if x.entryId == y.entryId {
          SameIdSameEntry(es, x, y);
        }
      }
      JoinedIdsDiffer(before, group);
    }
  }

  lemma {:induction false} SavableAreReparsed(es: seq<MemoryEntry>, floats: FloatText)
    requires Lawful(floats) && forall e | e in es :: Savable(e)
    ensures ReparseAll(es, floats) == es
  {
    if es != [] {
      SavableComesBack(es[0], floats);
      SavableAreReparsed(es[1..], floats);
    }
  }

  lemma {:induction false} ReadGrouped(es: seq<MemoryEntry>, files: map<string, string>, n: nat, floats: FloatText)
    requires n <= |TYPES|
    requires forall i: nat | i < n :: ReadFile(files, TYPES[i], floats) == OfType(es, TYPES[i])
    ensures ReadTypes(files, n, floats) == Grouped(es, n)
  {
    if n > 0 {
      ReadGrouped(es, files, n - 1, floats);
    }
  }

  lemma SavableIsRead(es: seq<MemoryEntry>, files: map<string, string>, i: nat, floats: FloatText)
    requires Lawful(floats) && (forall e | e in es :: Savable(e)) && i < |TYPES|
    ensures ReadFile(SaveTypes(es, files, |TYPES|, floats), TYPES[i], floats) == OfType(es, TYPES[i])
  {
    ReadSavedFile(es, files, i, floats);
    SavableAreReparsed(OfType(es, TYPES[i]), floats);
  }

  /** The values of a keyed dictionary of savable entries come back in full, sorted by type and
      otherwise in their order. */
  lemma ReloadSortsByType(d: Dict, files: map<string, string>, floats: FloatText)
    requires ValidDict(d) && Lawful(floats) && Keyed(d) && AllSavable(d)
    ensures var vs, after := Values(d), Reloaded(d, files, floats);
            && ValidDict(after)
            && Values(after) == OfType(vs, OsGuide) + OfType(vs, AppGuide) + OfType(vs, IconGuide) + OfType(vs, Policy)
  {
    var vs := Values(d);
    ValuesOf(d);
    forall i: nat, j: nat | i < j < |vs| ensures vs[i].entryId != vs[j].entryId {
      assert d.order[i] in d.byId && d.order[j] in d.byId;
    }
    forall i: nat | i < |TYPES| ensures ReadFile(Saved(d, files, floats), TYPES[i], floats) == OfType(vs, TYPES[i]) {
      SavableIsRead(vs, files, i, floats);
    }
    ReadGrouped(vs, Saved(d, files, floats), |TYPES|, floats);
    GroupedIdsDiffer(vs, |TYPES|);
    PutAllInOrder(Grouped(vs, |TYPES|));
    FourGroups(vs);
  }

  lemma FourGroups(es: seq<MemoryEntry>)
    ensures Grouped(es, |TYPES|) == OfType(es, OsGuide) + OfType(es, AppGuide) + OfType(es, IconGuide) + OfType(es, Policy)
  {
    assert Grouped(es, 0) == [];
    assert Grouped(es, 1) == OfType(es, OsGuide);
    assert Grouped(es, 2) == Grouped(es, 1) + OfType(es, AppGuide);
    assert Grouped(es, 3) == Grouped(es, 2) + OfType(es, IconGuide);
  }

  /** One entry that is lost: its content starts with "## ". */
  lemma HeadedContentIsLost(floats: FloatText)
    requires Lawful(floats)
    ensures var e := MemoryEntry("a", OsGuide, "linux", "## b", None, [], 0, 0);
            var d := Dict(["a"], map["a" := e]);
            ValidDict(d) && Reloaded(d, map[], floats).byId != d.byId
  {
    var e := MemoryEntry("a", OsGuide, "linux", "## b", None, [], 0, 0);
    var d := Dict(["a"], map["a" := e]);
    assert HeadMark(d.byId["a"].content);
    ReloadIsIdentityIff(d, map[], floats);
  }

  // ----- the class -------------------------------------------------------------------

  class MemoryStore {
    const floats: FloatText
    var entries: Dict
    /** The texts in the store's directory, by file name. */
    var files: map<string, string>
    /** The decoded entries of a legacy memory.json, while it exists. */
    var legacy: Option<seq<(string, MemoryEntry)>>

    ghost predicate Valid()
      reads this
    {
      ValidDict(entries)
    }

    constructor (directory: map<string, string>, memoryJson: Option<seq<(string, MemoryEntry)>>, floats: FloatText)
      ensures Valid() && this.floats == floats && legacy == None
      ensures memoryJson == None ==> files == directory && entries == Loaded(directory, floats)
      ensures memoryJson.Some? ==>
        entries == PutPairs(EMPTY, memoryJson.value) && files == Saved(entries, directory, floats)
    {
      this.floats := floats;
      entries := EMPTY;
      files := directory;
      legacy := memoryJson;
      new;
      Load();
    }

    method Add(e: MemoryEntry)
      requires Valid()
      modifies this`entries, this`files
      ensures Valid() && entries == Put(old(entries), e.entryId, e)
      ensures e.entryId in entries.byId && entries.byId[e.entryId] == e
      ensures forall k | k != e.entryId :: k in entries.byId <==> k in old(entries).byId
      ensures forall k | k != e.entryId && k in entries.byId :: entries.byId[k] == old(entries).byId[k]
      ensures entries.order == old(entries).order + if e.entryId in old(entries).order then [] else [e.entryId]
      ensures files == Saved(entries, old(files), floats)
    {
      entries := Put(entries, e.entryId, e);
      PutIsValid(old(entries), e.entryId, e);
      Save();
    }

    method Remove(id: string) returns (found: bool)
      requires Valid()
      modifies this`entries, this`files
      ensures Valid() && found == (id in old(entries).byId)
      ensures found ==> entries == Delete(old(entries), id) && files == Saved(entries, old(files), floats)
      ensures forall k :: k in entries.byId <==> k in old(entries).byId && k != id
      ensures forall k | k in entries.byId :: entries.byId[k] == old(entries).byId[k]
      ensures !found ==> entries == old(entries) && files == old(files)
    {
      if id !in entries.byId {
        return false;
      }
      entries := Delete(entries, id);
      Save();
      found := true;
    }

    method Save()
      requires Valid()
      modifies this`files
      ensures files == Saved(entries, old(files), floats)
    {
      var values := Values(entries);
      var byType := GroupByType(values);
      for n := 0 to |TYPES|
        invariant files == SaveTypes(values, old(files), n, floats)
      {
        SaveOneMore(values, old(files), n, byType[TYPES[n]], floats);
        files := WriteFile(files, FileName(TYPES[n]), byType[TYPES[n]], floats);
      }
    }

    method Load()
      modifies this
      ensures Valid() && legacy == None
      ensures old(legacy) == None ==> files == old(files) && entries == Loaded(files, floats)
      ensures old(legacy).Some? ==>
        entries == PutPairs(EMPTY, old(legacy).value) && files == Saved(entries, old(files), floats)
    {
      entries := EMPTY;
      if legacy.Some? {
        entries := PutPairs(EMPTY, legacy.value);
        PutPairsIsValid(EMPTY, legacy.value);
        Save();
        legacy := None;
        return;
      }
      for n := 0 to |TYPES|
        invariant ValidDict(entries) && files == old(files) && legacy == None
        invariant entries == PutAll(EMPTY, ReadTypes(files, n, floats))
      {
        PutAllAppend(EMPTY, ReadTypes(files, n, floats), ReadFile(files, TYPES[n], floats));
        if FileName(TYPES[n]) in files {
          ParseMarkdownFile(files[FileName(TYPES[n])]);
        }
      }
    }

    method ParseMarkdownFile(raw: string)
      requires Valid()
      modifies this`entries
      ensures Valid() && entries == PutAll(old(entries), ParseFile(raw, floats))
      ensures LastWins(old(entries).byId, entries.byId, ParseFile(raw, floats))
    {
      var chunks := HeadedChunks(ReadText(raw));
      for i := 0 to |chunks|
        invariant entries == PutAll(old(entries), ParseChunks(chunks[..i], floats))
      {
        var r := ParseSection(chunks[i], floats);
        PutNextChunk(old(entries), chunks, i, floats);
        if r.Some? {
          entries := Put(entries, r.value.entryId, r.value);
        }
      }
      assert chunks[..|chunks|] == chunks;
      PutAllIsValid(old(entries), ParseFile(raw, floats));
      PutAllKeepsLast(old(entries), ParseFile(raw, floats));
    }
  }

  method GroupByType(values: seq<MemoryEntry>) returns (byType: map<MemoryType, seq<MemoryEntry>>)
    ensures forall t :: t in byType && byType[t] == OfType(values, t)
  {
    byType := map t: MemoryType | t in TYPES :: [];
    forall t: MemoryType ensures t in byType && byType[t] == [] {
      var i := EveryTypeIsListed(t);
    }
    for i := 0 to |values|
      invariant forall t :: t in byType && byType[t] == OfType(values[..i], t)
    {
      var e := values[i];
      assert values[..i + 1][..i] == values[..i] && values[..i + 1][i] == e;
      byType := byType[e.memoryType := byType[e.memoryType] + [e]];
    }
    assert values[..|values|] == values;
  }

  lemma SaveOneMore(values: seq<MemoryEntry>, files: map<string, string>, n: nat, group: seq<MemoryEntry>, floats: FloatText)
    requires n < |TYPES| && group == OfType(values, TYPES[n])
    ensures SaveTypes(values, files, n + 1, floats)
            == WriteFile(SaveTypes(values, files, n, floats), FileName(TYPES[n]), group, floats)
  {
  }

  lemma ParseNextChunk(chunks: seq<string>, i: nat, floats: FloatText)
    requires i < |chunks|
    ensures ParseChunks(chunks[..i + 1], floats)
            == ParseChunks(chunks[..i], floats) + ParseChunks([chunks[i]], floats)
  {
    assert chunks[..i + 1] == chunks[..i] + [chunks[i]];
    ParseChunksAppend(chunks[..i], [chunks[i]], floats);
  }

  lemma PutNextChunk(d: Dict, chunks: seq<string>, i: nat, floats: FloatText)
    requires i < |chunks|
    ensures var before := PutAll(d, ParseChunks(chunks[..i], floats));
            PutAll(d, ParseChunks(chunks[..i + 1], floats))
            == match SectionEntry(chunks[i], floats)
               case None => before
               case Some(e) => Put(before, e.entryId, e)
  {
    var parsed := ParseChunks(chunks[..i], floats);
    ParseNextChunk(chunks, i, floats);
    ParseOneChunk(chunks[i], floats);
    var r := SectionEntry(chunks[i], floats);
    if r.None? {
      assert parsed + [] == parsed;
    } else {
      PutOne(d, parsed, r.value);
    }
  }

  lemma ParseOneChunk(chunk: string, floats: FloatText)
    ensures ParseChunks([chunk], floats)
            == match SectionEntry(chunk, floats) case None => [] case Some(e) => [e]
  {
    assert [chunk][1..] == [] && ParseChunks([], floats) == [];
  }

  lemma PutOne(d: Dict, es: seq<MemoryEntry>, e: MemoryEntry)
    ensures PutAll(d, es + [e]) == Put(PutAll(d, es), e.entryId, e)
  {
    assert (es + [e])[..|es + [e]| - 1] == es;
  }

  /** The entries of a legacy file, under the keys that the file gives them. */
  function PutPairs(d: Dict, pairs: seq<(string, MemoryEntry)>): Dict
    decreases |pairs|
  {
    if pairs == [] then d else PutPairs(Put(d, pairs[0].0, pairs[0].1), pairs[1..])
  }

  /** The key stands for what was given last under it. */
  ghost predicate IsLastOfKey(pairs: seq<(string, MemoryEntry)>, i: nat) {
    i < |pairs| && forall j: nat | i < j < |pairs| :: pairs[j].0 != pairs[i].0
  }

  /** The entries of a legacy file stand under the keys of that file, whatever their ids. */
  lemma {:induction false} LegacyKeepsKeys(d: Dict, pairs: seq<(string, MemoryEntry)>, i: nat)
    requires IsLastOfKey(pairs, i)
    ensures pairs[i].0 in PutPairs(d, pairs).byId && PutPairs(d, pairs).byId[pairs[i].0] == pairs[i].1
    decreases |pairs|
  {
    var next := Put(d, pairs[0].0, pairs[0].1);
    if i > 0 {
      assert pairs[1..][i - 1] == pairs[i] && forall j: nat | j < |pairs[1..]| :: pairs[1..][j] == pairs[j + 1];
      LegacyKeepsKeys(next, pairs[1..], i - 1);
    } else {
      assert forall j: nat | j < |pairs[1..]| :: pairs[1..][j] == pairs[j + 1];
      LaterKeysDiffer(next, pairs[1..], pairs[0].0);
    }
  }

  lemma {:induction false} LaterKeysDiffer(d: Dict, pairs: seq<(string, MemoryEntry)>, key: string)
    requires key in d.byId && forall j: nat | j < |pairs| :: pairs[j].0 != key
    ensures key in PutPairs(d, pairs).byId && PutPairs(d, pairs).byId[key] == d.byId[key]
    decreases |pairs|
  {
    if pairs != [] {
      assert forall j: nat | j < |pairs[1..]| :: pairs[1..][j] == pairs[j + 1];
      LaterKeysDiffer(Put(d, pairs[0].0, pairs[0].1), pairs[1..], key);
    }
  }

  lemma {:induction false} PutPairsIsValid(d: Dict, pairs: seq<(string, MemoryEntry)>)
    requires ValidDict(d)
    ensures ValidDict(PutPairs(d, pairs))
    decreases |pairs|
  {
    if pairs != [] {
      PutIsValid(d, pairs[0].0, pairs[0].1);
      PutPairsIsValid(Put(d, pairs[0].0, pairs[0].1), pairs[1..]);
    }
  }
}
