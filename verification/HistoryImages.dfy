/** Which screenshots of a conversation stay visible: hiding old ones in place, dropping old
    messages, and the GUI-Owl history that splits past steps into text and messages. */
module HistoryImages {
  datatype Part = Image(url: string) | Text(text: string)

  /** A message's content is a plain string or a list of parts. */
  datatype Content = Plain(s: string) | Parts(parts: seq<Part>)

  datatype View = View(role: string, content: Content)

  const PLACEHOLDER := Text("(Previous turn, screen not shown)")

  // ----- counting -------------------------------------------------------------------

  function ImageCount(parts: seq<Part>): nat {
    if parts == [] then 0 else (if parts[0].Image? then 1 else 0) + ImageCount(parts[1..])
  }

  predicate HasImage(v: View) {
    v.role == "user" && v.content.Parts? && ImageCount(v.content.parts) > 0
  }

  function Count(views: seq<View>): nat {
    if views == [] then 0 else (if HasImage(views[0]) then 1 else 0) + Count(views[1..])
  }

  function Min(a: int, b: int): int { if a <= b then a else b }
  function Max(a: int, b: int): int { if a >= b then a else b }

  // ----- hiding in place ----------------------------------------------------------------

  function FirstImage(parts: seq<Part>): (k: nat)
    ensures k <= |parts|
    ensures k < |parts| ==> parts[k].Image?
    ensures forall j | 0 <= j < k :: parts[j].Text?
    ensures k < |parts| <==> ImageCount(parts) > 0
  {
    if parts == [] || parts[0].Image? then 0 else 1 + FirstImage(parts[1..])
  }

  /** The message with its first image replaced; one without an image is left alone. */
  function HideFirst(v: View): View {
    if !HasImage(v) then v else
      v.(content := Parts(v.content.parts[FirstImage(v.content.parts) := PLACEHOLDER]))
  }

  /** The view at index i after hiding: hidden if `window` image messages come after it. */
  function Shown(views: seq<View>, window: int, i: nat): View
    requires i < |views|
  {
    if Count(views[i + 1..]) < window then views[i] else HideFirst(views[i])
  }

  class Message {
    const role: string
    var content: Content

    constructor (role: string, content: Content)
      ensures this.role == role && this.content == content
    {
      this.role := role;
      this.content := content;
    }

    function AsView(): View
      reads this
    {
      View(role, content)
    }
  }

  function Views(messages: seq<Message>): (r: seq<View>)
    reads messages
    ensures |r| == |messages| && forall i | 0 <= i < |r| :: r[i] == messages[i].AsView()
  {
    seq(|messages|, i requires 0 <= i < |messages| reads messages => messages[i].AsView())
  }

  method HideHistoryImages(messages: seq<Message>, window: int)
    requires forall i, j | 0 <= i < j < |messages| :: messages[i] != messages[j]
    modifies messages
    ensures forall i | 0 <= i < |messages| :: messages[i].AsView() == Shown(old(Views(messages)), window, i)
  {
    ghost var views := Views(messages);
    var used := 0;
    var idx := |messages|;
    while idx > 0
      invariant 0 <= idx <= |messages|
      invariant used == Min(Max(window, 0), Count(views[idx..]))
      invariant forall i | 0 <= i < idx :: messages[i].AsView() == views[i]
      invariant forall i | idx <= i < |messages| :: messages[i].AsView() == Shown(views, window, i)
    {
      idx := idx - 1;
      var message := messages[idx];
      assert views[idx..][1..] == views[idx + 1..] && views[idx..][0] == views[idx];
      if message.role == "user" && message.content.Parts? {
        var parts := message.content.parts;
        var k := FirstImage(parts);
        if k < |parts| {
          if used < window {
            used := used + 1;
          } else {
            message.content := Parts(parts[k := PLACEHOLDER]);
          }
        }
      }
    }
  }

  function Hidden(views: seq<View>, window: int): (r: seq<View>)
    ensures |r| == |views|
  {
    seq(|views|, i requires 0 <= i < |views| => Shown(views, window, i))
  }

  // ----- what hiding keeps ------------------------------------------------------------------

  /** Hiding replaces at most one part of a message, an image; all other parts stay in place. */
  lemma HidingKeepsOtherParts(v: View)
    ensures var h := HideFirst(v);
            && h.role == v.role && (h.content.Parts? <==> v.content.Parts?)
            && (v.content.Plain? ==> h == v)
            && (v.content.Parts? ==> |h.content.parts| == |v.content.parts|)
            && (v.content.Parts? ==>
                  forall j | 0 <= j < |v.content.parts| && v.content.parts[j].Text? ::
                    h.content.parts[j] == v.content.parts[j])
  {
  }

  lemma {:induction false} CountWithout(parts: seq<Part>, k: nat)
    requires k < |parts| && parts[k].Image?
    ensures ImageCount(parts[k := PLACEHOLDER]) == ImageCount(parts) - 1
  {
    var replaced := parts[k := PLACEHOLDER];
    if k == 0 {
      assert replaced[1..] == parts[1..];
    } else {
      assert replaced[1..] == parts[1..][k - 1 := PLACEHOLDER];
      CountWithout(parts[1..], k - 1);
    }
  }

  lemma HiddenHasImageIff(v: View)
    requires HasImage(v)
    ensures HasImage(HideFirst(v)) <==> ImageCount(v.content.parts) > 1
  {
    CountWithout(v.content.parts, FirstImage(v.content.parts));
  }

  /** No image message older than the window shows more than one image. */
  ghost predicate OldOnesAreSingle(views: seq<View>, window: int) {
    forall i | 0 <= i < |views| && HasImage(views[i]) && Count(views[i + 1..]) >= window ::
      ImageCount(views[i].content.parts) == 1
  }

  lemma ShownLater(views: seq<View>, window: int)
    requires views != []
    ensures Hidden(views, window)[1..] == Hidden(views[1..], window)
    ensures Hidden(views, window)[0] == Shown(views, window, 0)
  {
    forall i | 0 <= i < |views| - 1 ensures Shown(views, window, i + 1) == Shown(views[1..], window, i) {
      assert views[1..][i + 1..] == views[i + 2..];
    }
  }

  lemma OldOnesLater(views: seq<View>, window: int)
    requires views != []
    ensures OldOnesAreSingle(views, window) <==>
      OldOnesAreSingle(views[1..], window) &&
      (HasImage(views[0]) && Count(views[1..]) >= window ==> ImageCount(views[0].content.parts) == 1)
  {
    assert forall i {:trigger views[1..][i]} | 0 <= i < |views| - 1 :: views[1..][i + 1..] == views[i + 2..];
    if OldOnesAreSingle(views, window) {
      forall i | 0 <= i < |views| - 1 && HasImage(views[1..][i]) && Count(views[1..][i + 1..]) >= window
        ensures ImageCount(views[1..][i].content.parts) == 1
      {
        assert HasImage(views[i + 1]) && Count(views[i + 1 + 1..]) >= window;
      }
    }
  }

  /** Exactly the most recent min(window, n) of the n image messages still show an image, unless
      an older message had several: then, and only then, more are shown. */
  lemma {:induction false} ShownCount(views: seq<View>, window: int)
    requires window >= 0
    ensures Count(Hidden(views, window)) >= Min(window, Count(views))
    ensures Count(Hidden(views, window)) == Min(window, Count(views)) <==> OldOnesAreSingle(views, window)
  {
    if views != [] {
      ShownLater(views, window);
      OldOnesLater(views, window);
      ShownCount(views[1..], window);
      if HasImage(views[0]) {
        HiddenHasImageIff(views[0]);
      }
    }
  }

  // ----- dropping whole messages --------------------------------------------------------------

  /** Indices of the first n messages that satisfy p. */
  function Positions(views: seq<View>, p: View -> bool, n: nat): (r: seq<nat>)
    requires n <= |views|
    ensures forall i :: i in r <==> 0 <= i < n && p(views[i])
  {
    if n == 0 then [] else
      var before := Positions(views, p, n - 1);
      if p(views[n - 1]) then before + [n - 1] else before
  }

  function Without(views: seq<View>, removed: set<nat>, n: nat): seq<View>
    requires n <= |views|
  {
    if n == 0 then [] else
      var before := Without(views, removed, n - 1);
      if n - 1 in removed then before else before + [views[n - 1]]
  }

  /** `xs[:-window]`, the positions that fall out of the window; all of them without one. */
  function OldPositions(positions: seq<nat>, window: int): seq<nat> {
    if window > 0 then positions[..Max(0, |positions| - window)] else positions
  }

  function DropOld(views: seq<View>, window: int, p: View -> bool): seq<View> {
    var old_ := OldPositions(Positions(views, p, |views|), window);
    Without(views, set i | i in old_, |views|)
  }

  predicate IsToolImage(v: View) {
    v.role == "tool" && v.content.Parts? && v.content.parts != [] && v.content.parts[0].Image?
  }

  function DropOldImageMessages(views: seq<View>, window: int): seq<View> {
    DropOld(views, window, HasImage)
  }

  function DropOldToolImages(views: seq<View>, window: int): seq<View> {
    DropOld(views, window, IsToolImage)
  }

  function Select(views: seq<View>, p: View -> bool): seq<View> {
    if views == [] then [] else
      var before := Select(views[..|views| - 1], p);
      if p(views[|views| - 1]) then before + [views[|views| - 1]] else before
  }

  lemma SelectAppend(views: seq<View>, v: View, p: View -> bool)
    ensures Select(views + [v], p) == if p(v) then Select(views, p) + [v] else Select(views, p)
  {
    assert (views + [v])[..|views + [v]| - 1] == views;
  }

  lemma {:induction false} PositionsRank(views: seq<View>, p: View -> bool, n: nat, m: nat)
    requires n <= m <= |views|
    ensures |Positions(views, p, n)| <= |Positions(views, p, m)|
    ensures Positions(views, p, m)[..|Positions(views, p, n)|] == Positions(views, p, n)
    decreases m
  {
    if n < m {
      PositionsRank(views, p, n, m - 1);
    }
  }

  /** An index is among the positions at its rank. */
  lemma PositionAtRank(views: seq<View>, p: View -> bool, i: nat, n: nat)
    requires i < n <= |views| && p(views[i])
    ensures |Positions(views, p, i)| < |Positions(views, p, n)|
    ensures Positions(views, p, n)[|Positions(views, p, i)|] == i
    decreases n
  {
    if i < n - 1 {
      PositionAtRank(views, p, i, n - 1);
    }
  }

  lemma EarlierIsSmaller(views: seq<View>, p: View -> bool, i: nat, n: nat, j: nat)
    requires i <= n <= |views| && j < |Positions(views, p, i)| <= |Positions(views, p, n)|
    ensures Positions(views, p, n)[j] < i
  {
    PositionsRank(views, p, i, n);
    var before := Positions(views, p, i);
    assert Positions(views, p, n)[..|before|][j] == before[j] && before[j] in before;
  }

  lemma RemovedIff(views: seq<View>, p: View -> bool, k: nat, i: nat)
    requires i < |views| && k <= |Positions(views, p, |views|)|
    ensures i in Positions(views, p, |views|)[..k] <==> p(views[i]) && |Positions(views, p, i)| < k
  {
    var all, rank := Positions(views, p, |views|), |Positions(views, p, i)|;
    PositionsRank(views, p, i, |views|);
    if p(views[i]) {
      PositionAtRank(views, p, i, |views|);
    }
    if i in all[..k] {
      var j: nat :| j < k && all[j] == i;
      assert all[j] in all;
      if j < rank {
        EarlierIsSmaller(views, p, i, |views|, j);
      }
    }
  }

  function Not(p: View -> bool): View -> bool { v => !p(v) }

  lemma {:induction false} RankIsCount(views: seq<View>, p: View -> bool, n: nat)
    requires n <= |views|
    ensures |Select(views[..n], p)| == |Positions(views, p, n)|
  {
    if n > 0 {
      RankIsCount(views, p, n - 1);
      assert views[..n] == views[..n - 1] + [views[n - 1]];
      SelectAppend(views[..n - 1], views[n - 1], p);
    }
  }

  /** The removed positions are those of the first k messages that satisfy p. */
  ghost predicate RemovesFirst(views: seq<View>, removed: set<nat>, p: View -> bool, k: nat) {
    forall i | 0 <= i < |views| :: i in removed <==> p(views[i]) && |Positions(views, p, i)| < k
  }

  lemma {:induction false} OthersStay(views: seq<View>, removed: set<nat>, p: View -> bool, k: nat, n: nat)
    requires n <= |views| && RemovesFirst(views, removed, p, k)
    ensures Select(Without(views, removed, n), Not(p)) == Select(views[..n], Not(p))
  {
    if n > 0 {
      var before, v := Without(views, removed, n - 1), views[n - 1];
      OthersStay(views, removed, p, k, n - 1);
      assert views[..n] == views[..n - 1] + [v];
      SelectAppend(views[..n - 1], v, Not(p));
      SelectAppend(before, v, Not(p));
    }
  }

  lemma {:induction false} RecentStay(views: seq<View>, removed: set<nat>, p: View -> bool, k: nat, n: nat)
    requires n <= |views| && RemovesFirst(views, removed, p, k)
    ensures Select(Without(views, removed, n), p) == FromRank(Select(views[..n], p), k)
  {
    if n > 0 {
      RecentStay(views, removed, p, k, n - 1);
      RankIsCount(views, p, n - 1);
      RecentStep(Without(views, removed, n - 1), views[..n - 1], views[n - 1], p, k);
      OneMoreView(views, n);
    }
  }

  lemma OneMoreView(views: seq<View>, n: nat)
    requires 0 < n <= |views|
    ensures views[..n - 1] + [views[n - 1]] == views[..n]
  {
  }

  lemma RecentStep(kept: seq<View>, views: seq<View>, v: View, p: View -> bool, k: nat)
    requires Select(kept, p) == FromRank(Select(views, p), k)
    ensures var more := if p(v) && |Select(views, p)| < k then kept else kept + [v];
            Select(more, p) == FromRank(Select(views + [v], p), k)
  {
    SelectAppend(views, v, p);
    SelectAppend(kept, v, p);
    FromRankAppend(Select(views, p), v, k);
  }

  function FromRank(images: seq<View>, k: nat): seq<View> {
    images[Min(k, |images|)..]
  }

  lemma FromRankAppend(images: seq<View>, v: View, k: nat)
    ensures FromRank(images + [v], k) == if |images| < k then FromRank(images, k) else FromRank(images, k) + [v]
  {
  }

  lemma {:induction false} SelectOfBoth(a: seq<View>, b: seq<View>, p: View -> bool)
    ensures Select(a + b, p) == Select(a, p) + Select(b, p)
  {
    if b == [] {
      assert a + b == a;
    } else {
      var front, last := b[..|b| - 1], b[|b| - 1];
      SelectOfBoth(a, front, p);
      assert a + b == (a + front) + [last];
      SelectAppend(a + front, last, p);
    }
  }

  /** The messages up to the n-th, in their order, without those that satisfy p and have `window`
      or more such messages after them. */
  function Kept(views: seq<View>, p: View -> bool, window: nat, n: nat): seq<View>
    requires n <= |views|
  {
    if n == 0 then [] else
      var before, v := Kept(views, p, window, n - 1), views[n - 1];
      if p(v) && |Select(views[n..], p)| >= window then before else before + [v]
  }

  lemma LaterCount(views: seq<View>, p: View -> bool, i: nat)
    requires i < |views| && p(views[i])
    ensures |Select(views, p)| == |Positions(views, p, i)| + 1 + |Select(views[i + 1..], p)|
  {
    SelectOfBoth(views[..i + 1], views[i + 1..], p);
    assert views == views[..i + 1] + views[i + 1..];
    assert views[..i + 1] == views[..i] + [views[i]];
    SelectAppend(views[..i], views[i], p);
    RankIsCount(views, p, i);
  }

  lemma RemovedIffLater(views: seq<View>, removed: set<nat>, p: View -> bool, window: nat, i: nat)
    requires i < |views|
    requires RemovesFirst(views, removed, p, Max(0, |Select(views, p)| - window))
    ensures i in removed <==> p(views[i]) && |Select(views[i + 1..], p)| >= window
  {
    if p(views[i]) {
      LaterCount(views, p, i);
    }
  }

  lemma {:induction false} WithoutIsKept(views: seq<View>, removed: set<nat>, p: View -> bool, window: nat, n: nat)
    requires n <= |views|
    requires RemovesFirst(views, removed, p, Max(0, |Select(views, p)| - window))
    ensures Without(views, removed, n) == Kept(views, p, window, n)
  {
    if n > 0 {
      WithoutIsKept(views, removed, p, window, n - 1);
      RemovedIffLater(views, removed, p, window, n - 1);
    }
  }

  /** The positions that are removed. */
  lemma OldAreFirst(views: seq<View>, window: int, p: View -> bool) returns (removed: set<nat>, k: nat)
    ensures k == |Select(views, p)| - Min(Max(window, 0), |Select(views, p)|)
    ensures DropOld(views, window, p) == Without(views, removed, |views|) && RemovesFirst(views, removed, p, k)
  {
    var positions := Positions(views, p, |views|);
    var old_ := OldPositions(positions, window);
    removed, k := set i | i in old_, |old_|;
    assert views[..|views|] == views && positions[..|positions|] == positions;
    RankIsCount(views, p, |views|);
    forall i | 0 <= i < |views| ensures i in removed <==> p(views[i]) && |Positions(views, p, i)| < k {
      RemovedIff(views, p, k, i);
    }
  }

  /** Dropping keeps every message that p does not concern, and of those it does concern exactly
      the most recent min(window, n); all that is kept is in the order of the history. */
  lemma DropKeepsRecent(views: seq<View>, window: int, p: View -> bool)
    ensures var kept, images := DropOld(views, window, p), Select(views, p);
            && kept == Kept(views, p, Max(window, 0), |views|)
            && Select(kept, Not(p)) == Select(views, Not(p))
            && Select(kept, p) == images[|images| - Min(Max(window, 0), |images|)..]
  {
    var removed, k := OldAreFirst(views, window, p);
    assert views[..|views|] == views;
    OthersStay(views, removed, p, k, |views|);
    RecentStay(views, removed, p, k, |views|);
    WithoutIsKept(views, removed, p, Max(window, 0), |views|);
  }

  /** A user's message with an image anywhere in its parts, and a tool's message that starts with
      one. */
  lemma KindsAre(v: View)
    ensures HasImage(v) <==>
              v.role == "user" && v.content.Parts? && exists i: nat :: i < |v.content.parts| && v.content.parts[i].Image?
    ensures IsToolImage(v) <==>
              v.role == "tool" && v.content.Parts? && |v.content.parts| > 0 && v.content.parts[0].Image?
  {
    if v.content.Parts? {
      var k := FirstImage(v.content.parts);
    }
  }

  /** The two kinds of message that are dropped: any message with an image, and tool messages that
      start with one. */
  lemma DroppedKindsKeepRecent(views: seq<View>, window: int)
    ensures DropOldImageMessages(views, window) == Kept(views, HasImage, Max(window, 0), |views|)
    ensures Select(DropOldImageMessages(views, window), Not(HasImage)) == Select(views, Not(HasImage))
    ensures var images := Select(views, HasImage);
            Select(DropOldImageMessages(views, window), HasImage)
            == images[|images| - Min(Max(window, 0), |images|)..]
    ensures DropOldToolImages(views, window) == Kept(views, IsToolImage, Max(window, 0), |views|)
    ensures Select(DropOldToolImages(views, window), Not(IsToolImage)) == Select(views, Not(IsToolImage))
    ensures var images := Select(views, IsToolImage);
            Select(DropOldToolImages(views, window), IsToolImage)
            == images[|images| - Min(Max(window, 0), |images|)..]
  {
    DropKeepsRecent(views, window, HasImage);
    DropKeepsRecent(views, window, IsToolImage);
  }

  // ----- the GUI-Owl history ----------------------------------------------------------------------

  datatype Turn = Turn(observation: string, summary: string, rawResponse: string)

  /** A message of the GUI-Owl prompt. The first user message lists the early steps as numbered
      text; `StepMessage` is the assistant's raw response to one step. */
  datatype OwlMessage =
    | System
    | FirstUser(steps: seq<(nat, string)>, observation: string)
    | StepMessage(response: string)
    | Screen(observation: string)

  function StepTexts(history: seq<Turn>, n: nat): seq<(nat, string)>
    requires n <= |history|
  {
    seq(n, i requires 0 <= i < n => (i + 1, history[i].summary))
  }

  /** The observations of all past steps, then the current one. */
  function Observations(history: seq<Turn>, current: string): (r: seq<string>)
    ensures |r| == |history| + 1
  {
    seq(|history|, i requires 0 <= i < |history| => history[i].observation) + [current]
  }

  function RawResponses(history: seq<Turn>): (r: seq<string>)
    ensures |r| == |history|
  {
    seq(|history|, i requires 0 <= i < |history| => history[i].rawResponse)
  }

  function ImageOf(m: OwlMessage): seq<string> {
    match m
    case FirstUser(_, observation) => [observation]
    case Screen(observation) => [observation]
    case _ => []
  }

  function ResponseOf(m: OwlMessage): seq<string> {
    if m.StepMessage? then [m.response] else []
  }

  function ImagesOf(messages: seq<OwlMessage>): seq<string> {
    if messages == [] then [] else ImagesOf(messages[..|messages| - 1]) + ImageOf(messages[|messages| - 1])
  }

  function ResponsesOf(messages: seq<OwlMessage>): seq<string> {
    if messages == [] then [] else ResponsesOf(messages[..|messages| - 1]) + ResponseOf(messages[|messages| - 1])
  }

  lemma OwlAppend(messages: seq<OwlMessage>, m: OwlMessage)
    ensures ImagesOf(messages + [m]) == ImagesOf(messages) + ImageOf(m)
    ensures ResponsesOf(messages + [m]) == ResponsesOf(messages) + ResponseOf(m)
  {
    assert (messages + [m])[..|messages + [m]| - 1] == messages;
  }

  /** After the first two messages, the raw response to each step comes before the screen that
      followed it. */
  ghost predicate Alternate(messages: seq<OwlMessage>, responses: seq<string>, observations: seq<string>, start: nat) {
    && (forall j: nat | 2 + 2 * j < |messages| && start + j < |responses| ::
          messages[2 + 2 * j] == StepMessage(responses[start + j]))
    && (forall j: nat | 3 + 2 * j < |messages| && start + j + 1 < |observations| ::
          messages[3 + 2 * j] == Screen(observations[start + j + 1]))
  }

  /** After the first messages, the steps from `start` up to `index` have been added. */
  ghost predicate Told(messages: seq<OwlMessage>, first: OwlMessage, responses: seq<string>, observations: seq<string>,
                       start: nat, index: nat)
    requires start <= index <= |responses| && |observations| == |responses| + 1
  {
    && |messages| == 2 + 2 * (index - start) && messages[0] == System && messages[1] == first
    && Alternate(messages, responses, observations, start)
    && ResponsesOf(messages) == responses[start..index]
    && ImagesOf(messages) == observations[start..index + 1]
  }

  lemma AlternateMore(messages: seq<OwlMessage>, responses: seq<string>, observations: seq<string>, start: nat, index: nat)
    requires start <= index < |responses| && |observations| == |responses| + 1
    requires |messages| == 2 + 2 * (index - start) && Alternate(messages, responses, observations, start)
    ensures Alternate(messages + [StepMessage(responses[index])] + [Screen(observations[index + 1])],
                      responses, observations, start)
  {
  }

  lemma OneMoreTold(messages: seq<OwlMessage>, more: seq<OwlMessage>, first: OwlMessage, responses: seq<string>,
                    observations: seq<string>, start: nat, index: nat)
    requires start <= index < |responses| && |observations| == |responses| + 1
    requires Told(messages, first, responses, observations, start, index)
    requires more == messages + [StepMessage(responses[index])] + [Screen(observations[index + 1])]
    ensures Told(more, first, responses, observations, start, index + 1)
  {
    AlternateMore(messages, responses, observations, start, index);
    StepAppended(messages, responses[index], observations[index + 1]);
    SliceGrows(responses, start, index);
    SliceGrows(observations, start, index + 1);
  }

  lemma SliceToEnd(s: seq<string>, i: nat)
    requires i <= |s|
    ensures s[i..|s|] == s[i..]
  {
  }

  /** The steps split at one point: those before it are told as text, each later one has its own
      message; the images are the min(window, steps + 1) most recent observations, in order, and
      at least one. */
  method BuildGuiOwlMessages(history: seq<Turn>, current: string, window: int)
    returns (messages: seq<OwlMessage>, ghost split: nat)
    ensures |history| - split == Min(Max(0, window - 1), |history|) && split <= |history|
    ensures |messages| == 2 + 2 * (|history| - split) && messages[0] == System && messages[1].FirstUser?
    ensures |messages[1].steps| == split
    ensures forall i: nat | i < split :: messages[1].steps[i] == (i + 1, history[i].summary)
    ensures messages[1].observation == if split == |history| then current else history[split].observation
    ensures forall j: nat | split + j < |history| ::
              && messages[2 + 2 * j] == StepMessage(history[split + j].rawResponse)
              && messages[3 + 2 * j] ==
                   Screen(if split + j + 1 == |history| then current else history[split + j + 1].observation)
    ensures ResponsesOf(messages) == RawResponses(history)[split..]
    ensures ImagesOf(messages) == Observations(history, current)[split..]
    ensures |ImagesOf(messages)| == Max(1, Min(window, |history| + 1))
  {
    var observations, responses := Observations(history, current), RawResponses(history);
    var keep := Min(Max(0, window - 1), |history|);
    var start := |history| - keep;
    split := start;
    var first := FirstUser(StepTexts(history, start), observations[start]);
    messages := TellSteps(first, responses, observations, start);
    AllTold(messages, first, history, current, start);
  }

  /** The first messages, and then the steps from `start` on. */
  method TellSteps(first: OwlMessage, responses: seq<string>, observations: seq<string>, start: nat)
    returns (messages: seq<OwlMessage>)
    requires start <= |responses| && |observations| == |responses| + 1
    requires first.FirstUser? && first.observation == observations[start]
    ensures Told(messages, first, responses, observations, start, |responses|)
  {
    messages := [System, first];
    for index := start to |responses|
      invariant messages == Telling(first, responses, observations, start, index)
    {
      messages := messages + [StepMessage(responses[index])] + [Screen(observations[index + 1])];
    }
    TellingIsTold(first, responses, observations, start, |responses|);
  }

  /** The messages when the steps from `start` up to `index` have been added. */
  function Telling(first: OwlMessage, responses: seq<string>, observations: seq<string>, start: nat, index: nat)
      : seq<OwlMessage>
    requires start <= index <= |responses| && |observations| == |responses| + 1
    decreases index
  {
    if index == start then [System, first] else
      Telling(first, responses, observations, start, index - 1)
      + [StepMessage(responses[index - 1])] + [Screen(observations[index])]
  }

  lemma {:induction false} TellingIsTold(first: OwlMessage, responses: seq<string>, observations: seq<string>,
                                         start: nat, index: nat)
    requires start <= index <= |responses| && |observations| == |responses| + 1
    requires first.FirstUser? && first.observation == observations[start]
    ensures Told(Telling(first, responses, observations, start, index), first, responses, observations, start, index)
    decreases index
  {
    if index == start {
      FirstTold(first, responses, observations, start);
    } else {
      TellingIsTold(first, responses, observations, start, index - 1);
      OneMoreTold(Telling(first, responses, observations, start, index - 1),
                  Telling(first, responses, observations, start, index), first, responses, observations, start, index - 1);
    }
  }

  lemma FirstTold(first: OwlMessage, responses: seq<string>, observations: seq<string>, start: nat)
    requires start <= |responses| && |observations| == |responses| + 1
    requires first.FirstUser? && first.observation == observations[start]
    ensures Told([System, first], first, responses, observations, start, start)
  {
    FirstMessages(first);
  }

  lemma AllTold(messages: seq<OwlMessage>, first: OwlMessage, history: seq<Turn>, current: string, start: nat)
    requires start <= |history|
    requires Told(messages, first, RawResponses(history), Observations(history, current), start, |history|)
    ensures forall j: nat | start + j < |history| ::
              && messages[2 + 2 * j] == StepMessage(history[start + j].rawResponse)
              && messages[3 + 2 * j] ==
                   Screen(if start + j + 1 == |history| then current else history[start + j + 1].observation)
    ensures ResponsesOf(messages) == RawResponses(history)[start..]
    ensures ImagesOf(messages) == Observations(history, current)[start..]
  {
    SliceToEnd(RawResponses(history), start);
    SliceToEnd(Observations(history, current), start);
    var observations, responses := Observations(history, current), RawResponses(history);
    forall j: nat | start + j < |history|
      ensures messages[2 + 2 * j] == StepMessage(responses[start + j])
      ensures messages[3 + 2 * j] == Screen(observations[start + j + 1])
    {
    }
  }

  lemma SliceGrows(s: seq<string>, i: nat, j: nat)
    requires i <= j < |s|
    ensures s[i..j + 1] == s[i..j] + [s[j]]
  {
  }

  lemma StepAppended(messages: seq<OwlMessage>, response: string, observation: string)
    ensures var longer := messages + [StepMessage(response)] + [Screen(observation)];
            ImagesOf(longer) == ImagesOf(messages) + [observation] &&
            ResponsesOf(longer) == ResponsesOf(messages) + [response]
  {
    OwlAppend(messages, StepMessage(response));
    OwlAppend(messages + [StepMessage(response)], Screen(observation));
  }

  lemma FirstMessages(first: OwlMessage)
    requires first.FirstUser?
    ensures ImagesOf([System, first]) == [first.observation] && ResponsesOf([System, first]) == []
  {
    assert [System, first][..1] == [System] && [System][..0] == [];
  }
}
