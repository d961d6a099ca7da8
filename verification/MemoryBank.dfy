/** The append-only bank of memory items: an item too similar to an earlier one of the same app
    is skipped. Similarity is an exact quotient of set sizes. */
module MemoryBank {
  import opened MemoryRecords
  import opened RealArithmetic
  import opened SetRatio
  import opened Text
  import opened Wrappers

  /** Case folding, and the tokens of a lower-cased text. */
  datatype TextRules = TextRules(casefold: string -> string, tokens: string -> set<string>)

  function AppKey(item: Item, rules: TextRules): string {
    rules.casefold(item.app.GetOr(""))
  }

  function Tokens(item: Item, rules: TextRules): set<string> {
    rules.tokens(item.title + "\n" + item.content)
  }

  function Jaccard(a: set<string>, b: set<string>): real {
    if a == {} || b == {} then 0.0 else Ratio(a, b)
  }

  lemma JaccardBounds(a: set<string>, b: set<string>)
    ensures 0.0 <= Jaccard(a, b) <= 1.0
  {
    if a != {} && b != {} {
      RatioBounds(a, b);
    }
  }

  lemma JaccardOfSame(a: set<string>)
    ensures Jaccard(a, a) == if a == {} then 0.0 else 1.0
  {
    if a != {} {
      RatioOfSame(a);
    }
  }

  /** The size of what two token sets have in common, over the size of both together; nothing where one
      is empty. */
  lemma JaccardIs(a: set<string>, b: set<string>)
    ensures a == {} || b == {} ==> Jaccard(a, b) == 0.0
    ensures a != {} && b != {} ==> |a + b| > 0 && Jaccard(a, b) * |a + b| as real == |a * b| as real
  {
    if a != {} && b != {} {
      UnionIsLarger(a, b);
      var x := Quotient(|a * b| as real, |a + b| as real);
    }
  }

  predicate Similar(a: Item, b: Item, threshold: real, rules: TextRules) {
    AppKey(a, rules) == AppKey(b, rules) && Jaccard(Tokens(a, rules), Tokens(b, rules)) >= threshold
  }

  /** Two items are similar if their apps are the same but for case, and their common tokens are enough
      of all of theirs. */
  lemma SimilarIff(a: Item, b: Item, threshold: real, rules: TextRules)
    ensures var s, t := rules.tokens(a.title + "\n" + a.content), rules.tokens(b.title + "\n" + b.content);
            Similar(a, b, threshold, rules) <==>
              && rules.casefold(if a.app.Some? then a.app.value else "") == rules.casefold(if b.app.Some? then b.app.value else "")
              && if s == {} || t == {} then threshold <= 0.0
                 else threshold * |s + t| as real <= |s * t| as real
  {
    var s, t := rules.tokens(a.title + "\n" + a.content), rules.tokens(b.title + "\n" + b.content);
    JaccardIs(s, t);
    if s != {} && t != {} {
      var x, y := Scale(|s + t| as real, threshold, Jaccard(s, t));
    }
  }

  predicate Duplicate(item: Item, bank: seq<Item>, threshold: real, rules: TextRules) {
    exists i :: 0 <= i < |bank| && Similar(item, bank[i], threshold, rules)
  }

  /** The bank after the items have been offered one by one. */
  function Appended(bank: seq<Item>, items: seq<Item>, threshold: real, rules: TextRules): seq<Item> {
    if items == [] then bank else
      var before, last := Appended(bank, items[..|items| - 1], threshold, rules), items[|items| - 1];
      if Duplicate(last, before, threshold, rules) then before else before + [last]
  }

  function Added(bank: seq<Item>, items: seq<Item>, threshold: real, rules: TextRules): seq<Item> {
    AppendedKeepsBank(bank, items, threshold, rules);
    Appended(bank, items, threshold, rules)[|bank|..]
  }

  /** What one more item adds. */
  lemma OneMoreOffered(bank: seq<Item>, items: seq<Item>, n: nat, threshold: real, rules: TextRules)
    requires n < |items|
    ensures var sofar := Appended(bank, items[..n], threshold, rules);
            Appended(bank, items[..n + 1], threshold, rules) ==
            if Duplicate(items[n], sofar, threshold, rules) then sofar else sofar + [items[n]]
    ensures Added(bank, items[..n + 1], threshold, rules) ==
            if Duplicate(items[n], Appended(bank, items[..n], threshold, rules), threshold, rules)
            then Added(bank, items[..n], threshold, rules)
            else Added(bank, items[..n], threshold, rules) + [items[n]]
  {
    assert items[..n + 1][..n] == items[..n];
    AppendedKeepsBank(bank, items[..n], threshold, rules);
  }

  lemma OneMoreLine(items: seq<Item>, x: Item, codec: Codec)
    ensures Lines(items + [x], codec) == Lines(items, codec) + Line(x, codec)
  {
    assert (items + [x])[..|items + [x]| - 1] == items;
  }

  type Seen = seq<(string, set<string>)>

  ghost predicate SeenAre(seen: Seen, items: seq<Item>, rules: TextRules) {
    |seen| == |items| && forall i | 0 <= i < |seen| :: seen[i] == (AppKey(items[i], rules), Tokens(items[i], rules))
  }

  method IsSeen(seen: Seen, key: string, tokens: set<string>, threshold: real) returns (found: bool)
    ensures found <==> exists i :: 0 <= i < |seen| && seen[i].0 == key && Jaccard(tokens, seen[i].1) >= threshold
  {
    for i := 0 to |seen|
      invariant forall k | 0 <= k < i :: !(seen[k].0 == key && Jaccard(tokens, seen[k].1) >= threshold)
    {
      if seen[i].0 == key && Jaccard(tokens, seen[i].1) >= threshold {
        return true;
      }
    }
    found := false;
  }

  lemma SeenIsDuplicate(seen: Seen, items: seq<Item>, x: Item, threshold: real, rules: TextRules)
    requires SeenAre(seen, items, rules)
    ensures Duplicate(x, items, threshold, rules) <==> Found(seen, x, threshold, rules)
  {
    forall i | 0 <= i < |seen|
      ensures Similar(x, items[i], threshold, rules)
              <==> seen[i].0 == AppKey(x, rules) && Jaccard(Tokens(x, rules), seen[i].1) >= threshold
    {
    }
    if i :| 0 <= i < |items| && Similar(x, items[i], threshold, rules) {
      assert seen[i].0 == AppKey(x, rules);
    }
  }

  /** The bank's file. */
  class BankFile {
    const codec: Codec
    var text: string

    constructor (codec: Codec, text: string)
      ensures this.codec == codec && this.text == text
    {
      this.codec, this.text := codec, text;
    }

    method Existing(rules: TextRules) returns (seen: Seen)
      ensures SeenAre(seen, Load(text, codec), rules)
    {
      var bank := Load(text, codec);
      seen := [];
      for i := 0 to |bank|
        invariant SeenAre(seen, bank[..i], rules)
      {
        seen := seen + [(AppKey(bank[i], rules), Tokens(bank[i], rules))];
      }
      assert bank[..|bank|] == bank;
    }

    method Append(batch: seq<Item>, threshold: real, rules: TextRules) returns (added: nat)
      modifies this
      ensures var items := Added(Load(old(text), codec), batch, threshold, rules);
              text == old(text) + Lines(items, codec) && added == |items|
    {
      ghost var start, bank := text, Load(text, codec);
      var seen := Existing(rules);
      added := 0;
      assert batch[..0] == [] && start + Lines([], codec) == start;
      for n := 0 to |batch|
        invariant Progress(start, bank, batch[..n], seen, text, added, threshold, rules, codec)
      {
        var item := batch[n];
        OneMoreProgress(start, bank, batch, n, seen, text, added, threshold, rules, codec);
        var found := IsSeen(seen, AppKey(item, rules), Tokens(item, rules), threshold);
        if !found {
          text := text + Line(item, codec);
          seen := seen + [(AppKey(item, rules), Tokens(item, rules))];
          added := added + 1;
        }
      }
      assert batch[..|batch|] == batch;
    }
  }

  /** What has been seen, written and counted after some items of a batch. */
  ghost predicate Progress(start: string, bank: seq<Item>, offered: seq<Item>, seen: Seen, text: string, added: nat,
                           threshold: real, rules: TextRules, codec: Codec) {
    && SeenAre(seen, Appended(bank, offered, threshold, rules), rules)
    && text == start + Lines(Added(bank, offered, threshold, rules), codec)
    && added == |Added(bank, offered, threshold, rules)|
  }

  ghost predicate Found(seen: Seen, x: Item, threshold: real, rules: TextRules) {
    exists i :: 0 <= i < |seen| && seen[i].0 == AppKey(x, rules) && Jaccard(Tokens(x, rules), seen[i].1) >= threshold
  }

  lemma OneMoreProgress(start: string, bank: seq<Item>, batch: seq<Item>, n: nat, seen: Seen, text: string, added: nat,
                        threshold: real, rules: TextRules, codec: Codec)
    requires n < |batch| && Progress(start, bank, batch[..n], seen, text, added, threshold, rules, codec)
    ensures var x := batch[n];
            if Found(seen, x, threshold, rules)
            then Progress(start, bank, batch[..n + 1], seen, text, added, threshold, rules, codec)
            else Progress(start, bank, batch[..n + 1], seen + [(AppKey(x, rules), Tokens(x, rules))],
                          text + Line(x, codec), added + 1, threshold, rules, codec)
  {
    var item, sofar := batch[n], Added(bank, batch[..n], threshold, rules);
    OneMoreOffered(bank, batch, n, threshold, rules);
    SeenIsDuplicate(seen, Appended(bank, batch[..n], threshold, rules), item, threshold, rules);
    OneMoreLine(sofar, item, codec);
    Associate(start, Lines(sofar, codec), Line(item, codec));
  }

  // ----- what appending guarantees ---------------------------------------------------------

  lemma {:induction false} AppendedKeepsBank(bank: seq<Item>, items: seq<Item>, threshold: real, rules: TextRules)
    ensures bank <= Appended(bank, items, threshold, rules)
    ensures forall x | x in Appended(bank, items, threshold, rules)[|bank|..] :: x in items
    decreases |items|
  {
    if items != [] {
      AppendedKeepsBank(bank, items[..|items| - 1], threshold, rules);
      assert items == items[..|items| - 1] + [items[|items| - 1]];
    }
  }

  /** No item from index n on reaches the threshold against an earlier item of its app. */
  ghost predicate Separated(items: seq<Item>, n: nat, threshold: real, rules: TextRules) {
    forall i, j | 0 <= i < j < |items| && n <= j :: !Similar(items[j], items[i], threshold, rules)
  }

  lemma SeparatedAppend(items: seq<Item>, n: nat, item: Item, threshold: real, rules: TextRules)
    requires Separated(items, n, threshold, rules) && !Duplicate(item, items, threshold, rules)
    ensures Separated(items + [item], n, threshold, rules)
  {
  }

  /** No added item reaches the threshold against an earlier item of its app. */
  lemma {:induction false} AddedAreDissimilar(bank: seq<Item>, items: seq<Item>, threshold: real, rules: TextRules)
    ensures Separated(Appended(bank, items, threshold, rules), |bank|, threshold, rules)
    decreases |items|
  {
    if items != [] {
      var before, last := Appended(bank, items[..|items| - 1], threshold, rules), items[|items| - 1];
      AddedAreDissimilar(bank, items[..|items| - 1], threshold, rules);
      if !Duplicate(last, before, threshold, rules) {
        SeparatedAppend(before, |bank|, last, threshold, rules);
      }
    }
  }

  /** Every offered item was added, or reaches the threshold against an item of the bank. */
  lemma {:induction false} SkippedHaveWitness(bank: seq<Item>, items: seq<Item>, threshold: real, rules: TextRules)
    ensures var after := Appended(bank, items, threshold, rules);
            forall x | x in items :: x in after || Duplicate(x, after, threshold, rules)
    decreases |items|
  {
    if items != [] {
      var shorter, last := items[..|items| - 1], items[|items| - 1];
      var before, after := Appended(bank, shorter, threshold, rules), Appended(bank, items, threshold, rules);
      SkippedHaveWitness(bank, shorter, threshold, rules);
      assert items == shorter + [last];
      forall x | x in items ensures x in after || Duplicate(x, after, threshold, rules) {
        if x in before {
        } else if Duplicate(x, before, threshold, rules) {
          DuplicateStays(x, before, after, threshold, rules);
        }
      }
    }
  }

  lemma DuplicateStays(x: Item, bank: seq<Item>, larger: seq<Item>, threshold: real, rules: TextRules)
    requires bank <= larger && Duplicate(x, bank, threshold, rules)
    ensures Duplicate(x, larger, threshold, rules)
  {
    var i :| 0 <= i < |bank| && Similar(x, bank[i], threshold, rules);
    assert larger[i] == bank[i];
  }

  // ----- offering a batch again ---------------------------------------------------------------

  /** The item can be a duplicate of itself. */
  predicate Counts(x: Item, threshold: real, rules: TextRules) {
    threshold <= 0.0 || Tokens(x, rules) != {}
  }

  lemma SimilarFacts(x: Item, y: Item, threshold: real, rules: TextRules)
    ensures Similar(x, y, threshold, rules) == Similar(y, x, threshold, rules)
    ensures Similar(x, y, threshold, rules) ==> threshold <= 1.0
    ensures Similar(x, y, threshold, rules) ==> Counts(x, threshold, rules) && Counts(y, threshold, rules)
    ensures threshold <= 1.0 && Counts(x, threshold, rules) ==> Similar(x, x, threshold, rules)
  {
    JaccardBounds(Tokens(x, rules), Tokens(y, rules));
    JaccardOfSame(Tokens(x, rules));
    JaccardSymmetric(Tokens(x, rules), Tokens(y, rules));
    JaccardBounds(Tokens(x, rules), Tokens(x, rules));
  }

  lemma JaccardSymmetric(a: set<string>, b: set<string>)
    ensures Jaccard(a, b) == Jaccard(b, a)
  {
    if a != {} && b != {} {
      RatioBounds(a, b);
    }
  }

  lemma DuplicateFacts(x: Item, bank: seq<Item>, threshold: real, rules: TextRules)
    ensures Duplicate(x, bank, threshold, rules) ==> threshold <= 1.0 && Counts(x, threshold, rules)
  {
    if i :| 0 <= i < |bank| && Similar(x, bank[i], threshold, rules) {
      SimilarFacts(x, bank[i], threshold, rules);
    }
  }

  function WithoutTokens(items: seq<Item>, rules: TextRules): seq<Item> {
    if items == [] then [] else
      var before, last := WithoutTokens(items[..|items| - 1], rules), items[|items| - 1];
      if Tokens(last, rules) == {} then before + [last] else before
  }

  /** What a batch of duplicates adds: those that cannot be duplicates. */
  function Unavoidable(items: seq<Item>, threshold: real, rules: TextRules): seq<Item> {
    if threshold <= 0.0 then [] else if threshold <= 1.0 then WithoutTokens(items, rules) else items
  }

  lemma OneMoreUnavoidable(items: seq<Item>, x: Item, threshold: real, rules: TextRules)
    ensures Unavoidable(items + [x], threshold, rules) ==
            if threshold > 1.0 || !Counts(x, threshold, rules) then Unavoidable(items, threshold, rules) + [x]
            else Unavoidable(items, threshold, rules)
  {
    assert (items + [x])[..|items + [x]| - 1] == items;
  }

  lemma {:induction false} OfferedAgain(bank: seq<Item>, items: seq<Item>, threshold: real, rules: TextRules)
    requires forall x | x in items && threshold <= 1.0 && Counts(x, threshold, rules) :: Duplicate(x, bank, threshold, rules)
    ensures Appended(bank, items, threshold, rules) == bank + Unavoidable(items, threshold, rules)
    decreases |items|
  {
    if items != [] {
      var shorter, last := items[..|items| - 1], items[|items| - 1];
      assert items == shorter + [last];
      OfferedAgain(bank, shorter, threshold, rules);
      OneMoreUnavoidable(shorter, last, threshold, rules);
      var before := Appended(bank, shorter, threshold, rules);
      DuplicateFacts(last, before, threshold, rules);
      if threshold <= 1.0 && Counts(last, threshold, rules) {
        DuplicateStays(last, bank, before, threshold, rules);
      }
    }
  }

  /** Every added item that could be a duplicate is clean. */
  ghost predicate CountedAreClean(items: seq<Item>, threshold: real, rules: TextRules) {
    forall x | x in items && Counts(x, threshold, rules) :: Clean(x)
  }

  lemma Witnessed(x: Item, bank: seq<Item>, threshold: real, rules: TextRules) returns (w: Item)
    requires threshold <= 1.0 && Counts(x, threshold, rules) && (x in bank || Duplicate(x, bank, threshold, rules))
    ensures w in bank && Similar(x, w, threshold, rules) && Counts(w, threshold, rules)
  {
    SimilarFacts(x, x, threshold, rules);
    w := if x in bank then x else WitnessOf(x, bank, threshold, rules);
    SimilarFacts(x, w, threshold, rules);
  }

  lemma DuplicateOf(x: Item, w: Item, bank: seq<Item>, threshold: real, rules: TextRules)
    requires w in bank && Similar(x, w, threshold, rules)
    ensures Duplicate(x, bank, threshold, rules)
  {
    var i :| 0 <= i < |bank| && bank[i] == w;
    assert Similar(x, bank[i], threshold, rules);
  }

  /** If what counts is read back, then so is a witness of everything offered that counts. */
  lemma WitnessIsRead(bank: seq<Item>, items: seq<Item>, x: Item, threshold: real, rules: TextRules)
    requires threshold <= 1.0 && x in items && Counts(x, threshold, rules)
    requires CountedAreClean(Added(bank, items, threshold, rules), threshold, rules)
    ensures Duplicate(x, bank + CleanOnes(Added(bank, items, threshold, rules)), threshold, rules)
  {
    var added := Added(bank, items, threshold, rules);
    AppendedKeepsBank(bank, items, threshold, rules);
    SkippedHaveWitness(bank, items, threshold, rules);
    assert Appended(bank, items, threshold, rules) == bank + added;
    var w := Witnessed(x, bank + added, threshold, rules);
    CleanOnesIff(added);
    DuplicateOf(x, w, bank + CleanOnes(added), threshold, rules);
  }

  ghost function WitnessOf(x: Item, bank: seq<Item>, threshold: real, rules: TextRules): (w: Item)
    requires Duplicate(x, bank, threshold, rules)
    ensures w in bank && Similar(x, w, threshold, rules)
  {
    var i :| 0 <= i < |bank| && Similar(x, bank[i], threshold, rules);
    bank[i]
  }

  /** An added item that is not clean is no duplicate of what is read back. */
  lemma LostIsNoDuplicate(bank: seq<Item>, items: seq<Item>, x: Item, threshold: real, rules: TextRules)
    requires x in Added(bank, items, threshold, rules) && !Clean(x)
    ensures !Duplicate(x, bank + CleanOnes(Added(bank, items, threshold, rules)), threshold, rules)
  {
    var after, added := Appended(bank, items, threshold, rules), Added(bank, items, threshold, rules);
    AppendedKeepsBank(bank, items, threshold, rules);
    AddedAreDissimilar(bank, items, threshold, rules);
    CleanOnesIff(added);
    assert after == bank + added;
    var p :| 0 <= p < |added| && added[p] == x;
    var read := bank + CleanOnes(added);
    forall i | 0 <= i < |read| ensures !Similar(x, read[i], threshold, rules) {
      var q := if i < |bank| then i else IndexIn(added, read[i]) + |bank|;
      assert after[q] == read[i] && after[|bank| + p] == x && q != |bank| + p;
      SimilarFacts(x, read[i], threshold, rules);
    }
  }

  ghost function IndexIn(items: seq<Item>, x: Item): (i: nat)
    requires x in items
    ensures i < |items| && items[i] == x
  {
    var i: nat :| i < |items| && items[i] == x;
    i
  }

  lemma {:induction false} AddedUnlessDuplicate(bank: seq<Item>, items: seq<Item>, x: Item, threshold: real, rules: TextRules)
    requires x in items
    ensures x in Added(bank, items, threshold, rules) || Duplicate(x, Appended(bank, items, threshold, rules), threshold, rules)
    decreases |items|
  {
    AppendedKeepsBank(bank, items, threshold, rules);
    var shorter, last := items[..|items| - 1], items[|items| - 1];
    var before, after := Appended(bank, shorter, threshold, rules), Appended(bank, items, threshold, rules);
    AppendedKeepsBank(bank, shorter, threshold, rules);
    if x == last {
      if !Duplicate(last, before, threshold, rules) {
        assert after[|bank|..] == before[|bank|..] + [last];
      }
    } else {
      assert items == shorter + [last];
      AddedUnlessDuplicate(bank, shorter, x, threshold, rules);
      if Duplicate(x, before, threshold, rules) {
        DuplicateStays(x, before, after, threshold, rules);
      } else {
        assert x in before[|bank|..] && before[|bank|..] <= after[|bank|..];
      }
    }
  }

  lemma {:induction false} UnavoidableDoNotCount(items: seq<Item>, threshold: real, rules: TextRules)
    requires threshold <= 1.0
    ensures forall x | x in Unavoidable(items, threshold, rules) :: !Counts(x, threshold, rules)
  {
    if items != [] {
      var shorter, last := items[..|items| - 1], items[|items| - 1];
      UnavoidableDoNotCount(shorter, threshold, rules);
      OneMoreUnavoidable(shorter, last, threshold, rules);
      assert items == shorter + [last];
    }
  }

  lemma NotAmongUncounted(x: Item, read: seq<Item>, again: seq<Item>, threshold: real, rules: TextRules)
    requires !Duplicate(x, read, threshold, rules)
    requires forall y | y in again :: !Counts(y, threshold, rules)
    ensures !Duplicate(x, read + again, threshold, rules)
  {
    forall i | 0 <= i < |read + again| ensures !Similar(x, (read + again)[i], threshold, rules) {
      SimilarFacts(x, (read + again)[i], threshold, rules);
      assert i < |read| ==> !Similar(x, read[i], threshold, rules);
    }
  }

  /** A lost item that counts is added again. */
  lemma LostIsAddedAgain(bank: seq<Item>, items: seq<Item>, x: Item, threshold: real, rules: TextRules)
    requires threshold <= 1.0 && Counts(x, threshold, rules)
    requires x in Added(bank, items, threshold, rules) && !Clean(x)
    ensures var read := bank + CleanOnes(Added(bank, items, threshold, rules));
            Added(read, items, threshold, rules) != Unavoidable(items, threshold, rules)
  {
    var read := bank + CleanOnes(Added(bank, items, threshold, rules));
    var again := Added(read, items, threshold, rules);
    AppendedKeepsBank(bank, items, threshold, rules);
    AppendedKeepsBank(read, items, threshold, rules);
    LostIsNoDuplicate(bank, items, x, threshold, rules);
    AddedUnlessDuplicate(read, items, x, threshold, rules);
    UnavoidableDoNotCount(items, threshold, rules);
    assert Appended(read, items, threshold, rules) == read + again;
    if forall y | y in again :: !Counts(y, threshold, rules) {
      NotAmongUncounted(x, read, again, threshold, rules);
    }
  }

  lemma CountedIsNotAddedAgain(bank: seq<Item>, items: seq<Item>, threshold: real, rules: TextRules)
    requires threshold > 1.0 || CountedAreClean(Added(bank, items, threshold, rules), threshold, rules)
    ensures var read := bank + CleanOnes(Added(bank, items, threshold, rules));
            Added(read, items, threshold, rules) == Unavoidable(items, threshold, rules)
  {
    var read := bank + CleanOnes(Added(bank, items, threshold, rules));
    forall x | x in items && threshold <= 1.0 && Counts(x, threshold, rules) ensures Duplicate(x, read, threshold, rules) {
      WitnessIsRead(bank, items, x, threshold, rules);
    }
    OfferedAgain(read, items, threshold, rules);
  }

  /** Offering the batch to the file again adds nothing for a threshold up to 0, exactly the items
      without tokens for one up to 1, and all items for a larger one, if and only if every item that
      was added and can be a duplicate is clean: the others are not read back, and are added
      again. */
  lemma ReappendAddsIff(text: string, items: seq<Item>, threshold: real, rules: TextRules, codec: Codec)
    requires Lawful(codec) && EndsLine(text)
    ensures var added := Added(Load(text, codec), items, threshold, rules);
            var again := Added(Load(text + Lines(added, codec), codec), items, threshold, rules);
            again == Unavoidable(items, threshold, rules)
            <==> threshold > 1.0 || CountedAreClean(added, threshold, rules)
  {
    var bank := Load(text, codec);
    var added := Added(bank, items, threshold, rules);
    LinesAreRead(text, added, codec);
    if threshold > 1.0 || CountedAreClean(added, threshold, rules) {
      CountedIsNotAddedAgain(bank, items, threshold, rules);
    } else {
      var x :| x in added && Counts(x, threshold, rules) && !Clean(x);
      LostIsAddedAgain(bank, items, x, threshold, rules);
    }
  }

  /** An item with a line separator in its title: into an empty file it is added, and added again. */
  lemma TornItemIsAddedTwice(description: string, content: string, threshold: real, rules: TextRules, codec: Codec)
    requires Lawful(codec) && 0.0 < threshold <= 1.0
    requires rules.tokens([0x2028 as char] + "\n" + content) != {}
    ensures var x := Item([0x2028 as char], description, content, Success, None, 0);
            && Added([], [x], threshold, rules) == [x]
            && Load(Line(x, codec), codec) == []
            && Added(Load(Line(x, codec), codec), [x], threshold, rules) == [x]
  {
    var x := Item([0x2028 as char], description, content, Success, None, 0);
    assert (0x2028 as char) in x.title;
    assert !Clean(x);
    LineIsRead("", x, codec);
    assert "" + Line(x, codec) == Line(x, codec) && SplitLines("") == [];
    assert [x][..0] == [] && Appended([], [], threshold, rules) == [];
    assert !Duplicate(x, [], threshold, rules);
    assert Appended([], [x], threshold, rules) == [x];
  }
}
