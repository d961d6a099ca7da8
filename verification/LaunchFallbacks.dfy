/** Running `am start` on the device: the primary command and the variants tried after it. */
module LaunchFallbacks {
  import opened Wrappers
  import opened ShellQuoting

  const WAIT := "-W"
  const COMPONENT := "-n"
  const PACKAGE := "-p"
  const DATA := "-d"

  // ----- dropping arguments -----------------------------------------------------------

  function WithoutWait(args: seq<string>): seq<string> {
    if args == [] then []
    else if args[0] == WAIT then WithoutWait(args[1..])
    else [args[0]] + WithoutWait(args[1..])
  }

  /** Each occurrence of the option goes, with the argument after it. */
  function WithoutOption(args: seq<string>, option: string): seq<string> {
    if args == [] then []
    else if args[0] != option then [args[0]] + WithoutOption(args[1..], option)
    else if |args| == 1 then []
    else WithoutOption(args[2..], option)
  }

  method DropOption(args: seq<string>, option: string) returns (trimmed: seq<string>)
    ensures trimmed == WithoutOption(args, option)
  {
    trimmed := [];
    var skipNext := false;
    var i := 0;
    while i < |args|
      invariant i <= |args|
      invariant trimmed + WithoutOption(Rest(args, i, skipNext), option) == WithoutOption(args, option)
    {
      RestSteps(args, i);
      if skipNext {
        skipNext := false;
      } else if args[i] == option {
        skipNext := true;
      } else {
        trimmed := trimmed + [args[i]];
      }
      i := i + 1;
    }
  }

  /** What the loop has still to look at. */
  function Rest(args: seq<string>, i: nat, skipNext: bool): seq<string>
    requires i <= |args|
  {
    if skipNext && i < |args| then args[i + 1..] else args[i..]
  }

  lemma RestSteps(args: seq<string>, i: nat)
    requires i < |args|
    ensures args[i..][0] == args[i] && args[i..][1..] == args[i + 1..]
    ensures i + 1 < |args| ==> args[i..][2..] == args[i + 1..][1..] == args[i + 2..]
  {
  }

  /** Some of the arguments, in their order. */
  predicate Subsequence(a: seq<string>, b: seq<string>) {
    a == [] || (b != [] && ((a[0] == b[0] && Subsequence(a[1..], b[1..])) || Subsequence(a, b[1..])))
  }

  lemma {:induction false} SubsequenceOfItself(a: seq<string>)
    ensures Subsequence(a, a)
  {
    if a != [] {
      SubsequenceOfItself(a[1..]);
    }
  }

  lemma {:induction false} SubsequenceIsTransitive(a: seq<string>, b: seq<string>, c: seq<string>)
    requires Subsequence(a, b) && Subsequence(b, c)
    ensures Subsequence(a, c)
    decreases |a| + |b| + |c|
  {
    if a != [] {
      if b[0] == c[0] && Subsequence(b[1..], c[1..]) {
        if a[0] == b[0] && Subsequence(a[1..], b[1..]) {
          SubsequenceIsTransitive(a[1..], b[1..], c[1..]);
        } else {
          SubsequenceIsTransitive(a, b[1..], c[1..]);
        }
      } else {
        SubsequenceIsTransitive(a, b, c[1..]);
      }
    }
  }

  lemma {:induction false} WithoutWaitIsSubsequence(args: seq<string>)
    ensures Subsequence(WithoutWait(args), args)
  {
    if args != [] {
      WithoutWaitIsSubsequence(args[1..]);
      assert ([args[0]] + WithoutWait(args[1..]))[1..] == WithoutWait(args[1..]);
    }
  }

  lemma {:induction false} WithoutOptionIsSubsequence(args: seq<string>, option: string)
    ensures Subsequence(WithoutOption(args, option), args)
  {
    if args == [] {
    } else if args[0] != option {
      WithoutOptionIsSubsequence(args[1..], option);
      assert ([args[0]] + WithoutOption(args[1..], option))[1..] == WithoutOption(args[1..], option);
    } else if |args| > 1 {
      WithoutOptionIsSubsequence(args[2..], option);
      assert args[1..][1..] == args[2..];
      assert Subsequence(WithoutOption(args, option), args[1..]);
    }
  }

  // ----- what is dropped ----------------------------------------------------------------

  /** An option of the command with its arguments. */
  datatype Switch = Switch(flag: string, values: seq<string>)

  function Written(switches: seq<Switch>): seq<string> {
    if switches == [] then [] else [switches[0].flag] + switches[0].values + Written(switches[1..])
  }

  function Without(switches: seq<Switch>, flag: string): seq<Switch> {
    if switches == [] then []
    else if switches[0].flag == flag then Without(switches[1..], flag)
    else [switches[0]] + Without(switches[1..], flag)
  }

  /** Every switch of this flag has one argument. */
  predicate TakesOne(switches: seq<Switch>, flag: string) {
    forall s | s in switches :: s.flag == flag ==> |s.values| == 1
  }

  lemma {:induction false} OptionIsGone(args: seq<string>, option: string)
    ensures option !in WithoutOption(args, option)
  {
    if args == [] {
    } else if args[0] != option {
      OptionIsGone(args[1..], option);
    } else if |args| > 1 {
      OptionIsGone(args[2..], option);
    }
  }

  lemma {:induction false} OthersAreKept(plain: seq<string>, args: seq<string>, option: string)
    requires option !in plain
    ensures WithoutOption(plain + args, option) == plain + WithoutOption(args, option)
  {
    if plain == [] {
      assert plain + args == args;
    } else {
      assert (plain + args)[1..] == plain[1..] + args && (plain + args)[0] == plain[0];
      OthersAreKept(plain[1..], args, option);
      assert [plain[0]] + (plain[1..] + WithoutOption(args, option)) == plain + WithoutOption(args, option);
    }
  }

  lemma {:induction false} SwitchIsDropped(switches: seq<Switch>, flag: string)
    requires TakesOne(switches, flag) && flag !in Written(Without(switches, flag))
    ensures WithoutOption(Written(switches), flag) == Written(Without(switches, flag))
  {
    if switches != [] {
      var s, rest := switches[0], switches[1..];
      if s.flag == flag {
        var args := Written(switches);
        assert args[0] == flag && args[2..] == Written(rest);
        SwitchIsDropped(rest, flag);
      } else {
        var kept := [s.flag] + s.values;
        assert Without(switches, flag)[1..] == Without(rest, flag);
        assert Written(Without(switches, flag)) == kept + Written(Without(rest, flag));
        SwitchIsDropped(rest, flag);
        OthersAreKept(kept, Written(rest), flag);
      }
    }
  }

  /** Dropping an option drops its switches, and them alone, exactly if the flag is nowhere an
      argument of another switch. */
  lemma DropIsExactIff(head: seq<string>, switches: seq<Switch>, flag: string)
    requires flag !in head && TakesOne(switches, flag)
    ensures WithoutOption(head + Written(switches), flag) == head + Written(Without(switches, flag))
            <==> flag !in Written(Without(switches, flag))
  {
    OptionIsGone(head + Written(switches), flag);
    OthersAreKept(head, Written(switches), flag);
    if flag !in Written(Without(switches, flag)) {
      SwitchIsDropped(switches, flag);
    }
  }

  /** A URI that reads like the option: the component, not the option, is left, as the URI. */
  lemma DropTearsAnArgument(component: string)
    requires component != COMPONENT
    ensures var switches := [Switch(DATA, [COMPONENT]), Switch(COMPONENT, [component])];
            && Without(switches, COMPONENT) == [Switch(DATA, [COMPONENT])]
            && WithoutOption(Written(switches), COMPONENT) == [DATA, component]
            && Written(Without(switches, COMPONENT)) == [DATA, COMPONENT]
  {
    var data, target := Switch(DATA, [COMPONENT]), Switch(COMPONENT, [component]);
    var switches := [data, target];
    assert switches[1..] == [target] && [target][1..] == [] && [data][1..] == [];
    assert Written([target]) == [COMPONENT, component];
    var args := [DATA, COMPONENT, COMPONENT, component];
    assert Written(switches) == args;
    assert args[1..] == [COMPONENT, COMPONENT, component] && args[1..][2..] == [component] && [component][1..] == [];
    assert WithoutOption([component], COMPONENT) == [component];
    assert Without([target], COMPONENT) == [];
    assert Without(switches, COMPONENT) == [data];
    assert Written([data]) == [DATA, COMPONENT];
  }

  lemma {:induction false} WaitIsGone(args: seq<string>)
    ensures WAIT !in WithoutWait(args) && (WithoutWait(args) == args <==> WAIT !in args)
  {
    if args != [] {
      WaitIsGone(args[1..]);
      assert args == [args[0]] + args[1..];
    }
  }

  lemma {:induction false} WaitsInBoth(head: seq<string>, rest: seq<string>)
    ensures WithoutWait(head + rest) == WithoutWait(head) + WithoutWait(rest)
  {
    if head == [] {
      assert head + rest == rest;
    } else {
      assert (head + rest)[1..] == head[1..] + rest;
      WaitsInBoth(head[1..], rest);
    }
  }

  /** The variants that do not wait leave out the wait flags of the command's head, and nothing of
      its switches, exactly if no switch has an argument that reads like that flag. */
  lemma NoWaitIsExactIff(head: seq<string>, switches: seq<Switch>)
    ensures WithoutWait(head + Written(switches)) == WithoutWait(head) + Written(switches)
            <==> WAIT !in Written(switches)
  {
    var rest := Written(switches);
    WaitsInBoth(head, rest);
    WaitIsGone(rest);
    assert (WithoutWait(head) + WithoutWait(rest))[|WithoutWait(head)|..] == WithoutWait(rest);
    assert (WithoutWait(head) + rest)[|WithoutWait(head)|..] == rest;
  }

  /** Of two text extras the first reads like the flag: it is lost, and its key takes the flag of
      the second for its value. */
  lemma NoWaitTearsAnExtra(action: string, key: string, other: string, value: string)
    requires action != WAIT && key != WAIT && other != WAIT && value != WAIT
    ensures WithoutWait(["am", "start", WAIT, "-a", action, "--es", key, WAIT, "--es", other, value])
            == ["am", "start", "-a", action, "--es", key, "--es", other, value]
  {
    var head, middle, rest := ["am", "start"], ["-a", action, "--es", key], ["--es", other, value];
    WaitIsGone(head);
    WaitIsGone(middle);
    WaitIsGone(rest);
    WaitBetween(middle, rest);
    WaitBetween(head, middle + ([WAIT] + rest));
    assert ["am", "start", WAIT, "-a", action, "--es", key, WAIT, "--es", other, value]
        == head + ([WAIT] + (middle + ([WAIT] + rest)));
  }

  lemma WaitBetween(a: seq<string>, b: seq<string>)
    ensures WithoutWait(a + ([WAIT] + b)) == WithoutWait(a) + WithoutWait(b)
  {
    WaitsInBoth(a, [WAIT] + b);
    assert ([WAIT] + b)[1..] == b;
  }

  // ----- the variants ---------------------------------------------------------------------

  datatype Name = Primary | NoWait | Implicit | ImplicitNoWait | BrowserRedirect | BrowserRedirectNoWait

  datatype Variant = Variant(name: Name, args: seq<string>)

  function IndexIn(args: seq<string>, arg: string): (i: nat)
    ensures i <= |args| && (i < |args| ==> args[i] == arg)
  {
    if args == [] || args[0] == arg then 0 else IndexIn(args[1..], arg) + 1
  }

  /** Lower case of the ASCII letters. No other character lowers to one of "http" or "https". */
  function Lower(s: string): string {
    if s == [] then []
    else [if 'A' <= s[0] <= 'Z' then s[0] - 'A' + 'a' else s[0]] + Lower(s[1..])
  }

  function BeforeColon(s: string): Option<string> {
    if s == [] then None
    else if s[0] == ':' then Some([])
    else match BeforeColon(s[1..])
      case None => None
      case Some(scheme) => Some([s[0]] + scheme)
  }

  function DataScheme(args: seq<string>): Option<string> {
    var i := IndexIn(args, DATA);
    if i + 1 >= |args| then None else
      match BeforeColon(args[i + 1])
      case None => None
      case Some(scheme) => Some(Lower(scheme))
  }

  predicate OpensBrowser(args: seq<string>) {
    PACKAGE in args && (DataScheme(args) == Some("http") || DataScheme(args) == Some("https"))
  }

  /** All that may be tried, in order, duplicates too. */
  function Candidates(args: seq<string>): seq<Variant> {
    [Variant(Primary, args), Variant(NoWait, WithoutWait(args))]
    + (if COMPONENT in args then
         var implicit := WithoutOption(args, COMPONENT);
         [Variant(Implicit, implicit), Variant(ImplicitNoWait, WithoutWait(implicit))]
       else [])
    + if OpensBrowser(args) then
        var redirect := WithoutOption(args, PACKAGE);
        [Variant(BrowserRedirect, redirect), Variant(BrowserRedirectNoWait, WithoutWait(redirect))]
      else []
  }

  predicate HasArgs(variants: seq<Variant>, args: seq<string>) {
    exists i: nat | i < |variants| :: variants[i].args == args
  }

  function Add(variants: seq<Variant>, v: Variant): seq<Variant> {
    if HasArgs(variants, v.args) then variants else variants + [v]
  }

  /** The candidates that differ from all before them. */
  function Deduped(candidates: seq<Variant>): seq<Variant> {
    if candidates == [] then [] else Add(Deduped(candidates[..|candidates| - 1]), candidates[|candidates| - 1])
  }

  method AddVariant(variants: seq<Variant>, name: Name, args: seq<string>) returns (r: seq<Variant>)
    ensures r == Add(variants, Variant(name, args))
  {
    for i := 0 to |variants|
      invariant forall k: nat | k < i :: variants[k].args != args
    {
      if variants[i].args == args {
        return variants;
      }
    }
    r := variants + [Variant(name, args)];
  }

  lemma DedupedOfMore(candidates: seq<Variant>, v: Variant)
    ensures Deduped(candidates + [v]) == Add(Deduped(candidates), v)
  {
    assert (candidates + [v])[..|candidates|] == candidates;
  }

  method AddTwo(variants: seq<Variant>, ghost sofar: seq<Variant>, name: Name, other: Name, args: seq<string>)
    returns (r: seq<Variant>)
    requires variants == Deduped(sofar)
    ensures r == Deduped(sofar + [Variant(name, args), Variant(other, WithoutWait(args))])
  {
    DedupedOfMore(sofar, Variant(name, args));
    DedupedOfMore(sofar + [Variant(name, args)], Variant(other, WithoutWait(args)));
    assert sofar + [Variant(name, args)] + [Variant(other, WithoutWait(args))]
        == sofar + [Variant(name, args), Variant(other, WithoutWait(args))];
    r := AddVariant(variants, name, args);
    r := AddVariant(r, other, WithoutWait(args));
  }

  method LaunchVariants(args: seq<string>) returns (variants: seq<Variant>)
    ensures variants == Deduped(Candidates(args))
  {
    ghost var sofar: seq<Variant> := [];
    variants := AddTwo([], sofar, Primary, NoWait, args);
    sofar := [Variant(Primary, args), Variant(NoWait, WithoutWait(args))];
    assert [] + sofar == sofar;
    if COMPONENT in args {
      var implicit := DropOption(args, COMPONENT);
      variants := AddTwo(variants, sofar, Implicit, ImplicitNoWait, implicit);
      sofar := sofar + [Variant(Implicit, implicit), Variant(ImplicitNoWait, WithoutWait(implicit))];
    } else {
      assert sofar + [] == sofar;
    }
    if OpensBrowser(args) {
      var redirect := DropOption(args, PACKAGE);
      variants := AddTwo(variants, sofar, BrowserRedirect, BrowserRedirectNoWait, redirect);
    } else {
      assert sofar + [] == sofar;
    }
  }

  // ----- what the variants are ---------------------------------------------------------------

  ghost predicate Distinct(variants: seq<Variant>) {
    forall i: nat, j: nat | i < j < |variants| :: variants[i].args != variants[j].args
  }

  lemma {:induction false} DedupedIsDistinct(candidates: seq<Variant>)
    ensures Distinct(Deduped(candidates))
  {
    if candidates != [] {
      DedupedIsDistinct(candidates[..|candidates| - 1]);
    }
  }

  /** Nothing new, nothing lost, and the first stays first. */
  lemma {:induction false} DedupedKeeps(candidates: seq<Variant>)
    ensures forall v | v in Deduped(candidates) :: v in candidates
    ensures forall v | v in candidates :: HasArgs(Deduped(candidates), v.args)
    ensures candidates != [] ==> Deduped(candidates) != [] && Deduped(candidates)[0] == candidates[0]
  {
    if candidates != [] {
      var front, last := candidates[..|candidates| - 1], candidates[|candidates| - 1];
      DedupedKeeps(front);
      var kept, all := Deduped(front), Deduped(candidates);
      assert forall i: nat | i < |kept| :: all[i] == kept[i];
      assert HasArgs(all, last.args) by {
        if !HasArgs(kept, last.args) {
          assert all[|kept|] == last;
        }
      }
      forall v | v in candidates ensures HasArgs(all, v.args) {
        if v in front {
          var i: nat :| i < |kept| && kept[i].args == v.args;
          assert all[i].args == v.args;
        }
      }
    }
  }

  lemma CandidatesAreSubsequences(args: seq<string>)
    ensures forall v | v in Candidates(args) :: Subsequence(v.args, args)
  {
    SubsequenceOfItself(args);
    WithoutWaitIsSubsequence(args);
    BothAreSubsequences(args, COMPONENT);
    BothAreSubsequences(args, PACKAGE);
  }

  lemma BothAreSubsequences(args: seq<string>, option: string)
    ensures Subsequence(WithoutOption(args, option), args)
    ensures Subsequence(WithoutWait(WithoutOption(args, option)), args)
  {
    var less := WithoutOption(args, option);
    WithoutOptionIsSubsequence(args, option);
    WithoutWaitIsSubsequence(less);
    SubsequenceIsTransitive(WithoutWait(less), less, args);
  }

  /** The variants differ pairwise, the first is the command itself, each only leaves arguments
      out of it, and everything that may be tried is among them. */
  lemma VariantsAreSound(args: seq<string>)
    ensures var variants := Deduped(Candidates(args));
            && Distinct(variants)
            && variants != [] && variants[0] == Variant(Primary, args)
            && (forall v | v in variants :: Subsequence(v.args, args))
            && (forall v | v in Candidates(args) :: HasArgs(variants, v.args))
  {
    DedupedIsDistinct(Candidates(args));
    DedupedKeeps(Candidates(args));
    CandidatesAreSubsequences(args);
  }

  // ----- which variants there are ------------------------------------------------------------

  /** The text begins with this lower-case scheme, in any case, and a colon. */
  ghost predicate HasScheme(uri: string, scheme: string) {
    |uri| > |scheme| && uri[|scheme|] == ':' && IsLowered(uri[..|scheme|], scheme)
  }

  predicate LowerWord(s: string) {
    forall i: nat | i < |s| :: 'a' <= s[i] <= 'z'
  }

  lemma {:induction false} LowerIff(s: string, scheme: string)
    requires LowerWord(scheme)
    ensures Lower(s) == scheme <==> |s| == |scheme| && IsLowered(s, scheme)
    decreases |s|
  {
    LowerLength(s);
    if s != [] && |s| == |scheme| {
      LowerIff(s[1..], scheme[1..]);
      assert scheme == [scheme[0]] + scheme[1..];
      AllFromFirst(s, scheme);
    }
  }

  ghost predicate IsLowered(s: string, scheme: string) {
    forall i: nat | i < |s| && i < |scheme| :: s[i] == scheme[i] || s[i] as int == scheme[i] as int - 32
  }

  lemma AllFromFirst(s: string, scheme: string)
    requires s != [] && |s| == |scheme|
    ensures IsLowered(s, scheme) <==>
              (s[0] == scheme[0] || s[0] as int == scheme[0] as int - 32) && IsLowered(s[1..], scheme[1..])
  {
    if IsLowered(s[1..], scheme[1..]) && (s[0] == scheme[0] || s[0] as int == scheme[0] as int - 32) {
      forall i: nat | i < |s| ensures s[i] == scheme[i] || s[i] as int == scheme[i] as int - 32 {
        assert i == 0 || (s[1..][i - 1] == s[i] && scheme[1..][i - 1] == scheme[i]);
      }
    }
  }

  lemma {:induction false} LowerLength(s: string)
    ensures |Lower(s)| == |s|
  {
    if s != [] {
      LowerLength(s[1..]);
    }
  }

  lemma {:induction false} BeforeColonIs(s: string)
    ensures BeforeColon(s) == None <==> ':' !in s
    ensures BeforeColon(s).Some? ==>
              var n := |BeforeColon(s).value|; n < |s| && s[n] == ':' && BeforeColon(s).value == s[..n] && ':' !in s[..n]
  {
    if s != [] {
      BeforeColonIs(s[1..]);
      assert s == [s[0]] + s[1..];
      if s[0] != ':' && BeforeColon(s[1..]).Some? {
        var n := |BeforeColon(s[1..]).value|;
        assert s[..n + 1] == [s[0]] + s[1..][..n];
      }
    }
  }

  lemma SchemeIff(uri: string, scheme: string)
    requires LowerWord(scheme) && ':' !in scheme
    ensures (BeforeColon(uri).Some? && Lower(BeforeColon(uri).value) == scheme) <==> HasScheme(uri, scheme)
  {
    BeforeColonIs(uri);
    if BeforeColon(uri).Some? {
      LowerIff(BeforeColon(uri).value, scheme);
    }
    if HasScheme(uri, scheme) {
      assert uri[|scheme|] in uri;
      var n := |BeforeColon(uri).value|;
      NoColonBefore(uri, scheme, n);
    }
  }

  lemma NoColonBefore(uri: string, scheme: string, n: nat)
    requires LowerWord(scheme) && HasScheme(uri, scheme) && n < |uri| && uri[n] == ':' && ':' !in uri[..n]
    ensures n == |scheme|
  {
    LoweredHasNoColon(uri[..|scheme|], scheme);
    InFront(uri, n, |scheme|);
    InFront(uri, |scheme|, n);
  }

  lemma LoweredHasNoColon(s: string, scheme: string)
    requires LowerWord(scheme) && |s| == |scheme| && IsLowered(s, scheme)
    ensures ':' !in s
  {
  }

  lemma InFront<T>(s: seq<T>, i: nat, n: nat)
    requires i < |s| && n <= |s|
    ensures i < n ==> s[i] in s[..n]
  {
    if i < n {
      assert s[..n][i] == s[i];
    }
  }

  /** The first "-d" has a web address after it. */
  ghost predicate HasWebData(args: seq<string>) {
    exists i: nat :: i + 1 < |args| && args[i] == "-d" && "-d" !in args[..i] &&
                     (HasScheme(args[i + 1], "http") || HasScheme(args[i + 1], "https"))
  }

  lemma {:induction false} IndexIsFirst(args: seq<string>, arg: string)
    ensures arg !in args[..IndexIn(args, arg)]
    ensures IndexIn(args, arg) == |args| <==> arg !in args
  {
    if args != [] && args[0] != arg {
      IndexIsFirst(args[1..], arg);
      var n := IndexIn(args[1..], arg);
      assert args[..n + 1] == [args[0]] + args[1..][..n];
      assert args == [args[0]] + args[1..];
    }
  }

  lemma OpensBrowserIff(args: seq<string>)
    ensures OpensBrowser(args) <==> "-p" in args && HasWebData(args)
  {
    var i := IndexIn(args, DATA);
    IndexIsFirst(args, DATA);
    if i + 1 < |args| {
      SchemeIff(args[i + 1], "http");
      SchemeIff(args[i + 1], "https");
    }
    if j: nat :| j + 1 < |args| && args[j] == "-d" && "-d" !in args[..j] &&
                 (HasScheme(args[j + 1], "http") || HasScheme(args[j + 1], "https")) {
      FirstIsFirst(args, i, j, DATA);
    }
  }

  lemma FirstIsFirst(args: seq<string>, i: nat, j: nat, arg: string)
    requires j < |args| && args[j] == arg && arg !in args[..j]
    requires i <= |args| && arg !in args[..i] && (i < |args| ==> args[i] == arg)
    ensures i == j
  {
    InFront(args, j, i);
    if i < |args| {
      InFront(args, i, j);
    }
  }

  function Rank(name: Name): nat {
    match name
    case Primary => 0
    case NoWait => 1
    case Implicit => 2
    case ImplicitNoWait => 3
    case BrowserRedirect => 4
    case BrowserRedirectNoWait => 5
  }

  /** What a name says of the arguments. */
  ghost predicate IsNamed(v: Variant, args: seq<string>) {
    match v.name
    case Primary => v.args == args
    case NoWait => v.args == WithoutWait(args)
    case Implicit => "-n" in args && v.args == WithoutOption(args, "-n")
    case ImplicitNoWait => "-n" in args && v.args == WithoutWait(WithoutOption(args, "-n"))
    case BrowserRedirect => "-p" in args && HasWebData(args) && v.args == WithoutOption(args, "-p")
    case BrowserRedirectNoWait =>
      "-p" in args && HasWebData(args) && v.args == WithoutWait(WithoutOption(args, "-p"))
  }

  ghost predicate InOrder(variants: seq<Variant>) {
    forall i: nat, j: nat | i < j < |variants| :: Rank(variants[i].name) < Rank(variants[j].name)
  }

  lemma CandidatesIff(args: seq<string>)
    ensures forall v :: v in Candidates(args) <==> IsNamed(v, args)
  {
    OpensBrowserIff(args);
  }

  lemma CandidatesInOrder(args: seq<string>)
    ensures InOrder(Candidates(args))
  {
  }

  lemma {:induction false} DedupedInOrder(candidates: seq<Variant>)
    requires InOrder(candidates)
    ensures InOrder(Deduped(candidates))
  {
    if candidates != [] {
      var front, last := candidates[..|candidates| - 1], candidates[|candidates| - 1];
      assert forall i: nat | i < |front| :: front[i] == candidates[i];
      DedupedInOrder(front);
      DedupedKeeps(front);
      forall v | v in Deduped(front) ensures Rank(v.name) < Rank(last.name) {
        var i: nat :| i < |front| && front[i] == v;
        assert candidates[i] == v;
      }
      AddedInOrder(Deduped(front), last);
    }
  }

  lemma AddedInOrder(variants: seq<Variant>, v: Variant)
    requires InOrder(variants) && forall w | w in variants :: Rank(w.name) < Rank(v.name)
    ensures InOrder(Add(variants, v))
  {
  }

  /** The variants are what their names say, come in the order of the names, and everything that a
      name can say is tried: without waiting; without the component, if there is one; and without
      the package, if there is one and the first data is a web address. */
  lemma VariantsAreNamed(args: seq<string>)
    ensures var variants := Deduped(Candidates(args));
            && InOrder(variants)
            && (forall v | v in variants :: IsNamed(v, args))
            && (forall v | IsNamed(v, args) :: HasArgs(variants, v.args))
  {
    CandidatesIff(args);
    CandidatesInOrder(args);
    DedupedInOrder(Candidates(args));
    DedupedKeeps(Candidates(args));
  }

  // ----- trying them --------------------------------------------------------------------------

  /** Tries the variants until one works; an answer is the device's output, None for an error or a
      timeout, and some outputs count as failed. The shell reads each command as the variant's own
      arguments; the commands are those of the variants up to and including the first that
      works, or of all of them. */
  method TryVariants(args: seq<string>, device: nat -> Option<string>, failed: string -> bool)
    returns (winner: Option<(Name, string)>, commands: seq<string>)
    ensures var variants := Deduped(Candidates(args));
            && |commands| <= |variants|
            && (forall i: nat | i < |commands| :: Tokenise(commands[i]) == Some(variants[i].args))
            && (forall i: nat | i < |commands| - 1 :: device(i) == None || failed(device(i).value))
            && (winner == None ==>
                  |commands| == |variants| &&
                  forall i: nat | i < |commands| :: device(i) == None || failed(device(i).value))
            && (winner.Some? ==>
                  && commands != [] && device(|commands| - 1).Some? && !failed(device(|commands| - 1).value)
                  && winner.value == (variants[|commands| - 1].name, device(|commands| - 1).value))
  {
    var variants := LaunchVariants(args);
    commands := [];
    while |commands| < |variants|
      invariant |commands| <= |variants|
      invariant forall i: nat | i < |commands| :: Tokenise(commands[i]) == Some(variants[i].args)
      invariant forall i: nat | i < |commands| :: device(i) == None || failed(device(i).value)
    {
      var i := |commands|;
      CommandLineIsRead(variants[i].args);
      commands := commands + [CommandLine(variants[i].args)];
      var answer := device(i);
      if answer.Some? && !failed(answer.value) {
        return Some((variants[i].name, answer.value)), commands;
      }
    }
    winner := None;
  }
}
