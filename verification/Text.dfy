/** The Python `str` operations that the memory store's printer and parser are made of,
    on sequences of characters. */
module Text {
  import opened Wrappers

  // ----- character classes --------------------------------------------------

  /** `str.isspace`, the class that `str.strip` removes. */
  predicate IsSpace(c: char) {
    var n := c as int;
    0x09 <= n <= 0x0d || 0x1c <= n <= 0x20 || n == 0x85 || n == 0xa0 || n == 0x1680
    || 0x2000 <= n <= 0x200a || n == 0x2028 || n == 0x2029 || n == 0x202f || n == 0x205f || n == 0x3000
  }

  /** The characters at which `str.splitlines` ends a line. */
  predicate IsLineBreak(c: char) {
    var n := c as int;
    0x0a <= n <= 0x0d || 0x1c <= n <= 0x1e || n == 0x85 || n == 0x2028 || n == 0x2029
  }

  predicate OneLine(s: string) {
    forall c | c in s :: !IsLineBreak(c)
  }

  predicate AllSpace(s: string) {
    forall c | c in s :: IsSpace(c)
  }

  // ----- strip ---------------------------------------------------------------

  /** The first index from `i` on that is not whitespace. */
  function SkipSpace(s: string, i: nat): (k: nat)
    requires i <= |s|
    ensures i <= k <= |s|
    ensures k < |s| ==> !IsSpace(s[k])
    decreases |s| - i
  {
    if i < |s| && IsSpace(s[i]) then SkipSpace(s, i + 1) else i
  }

  /** The last index from `j` down to `i` that whitespace does not precede. */
  function DropSpace(s: string, i: nat, j: nat): (k: nat)
    requires i <= j <= |s|
    ensures i <= k <= j
    ensures i < k ==> !IsSpace(s[k - 1])
    decreases j
  {
    if i < j && IsSpace(s[j - 1]) then DropSpace(s, i, j - 1) else j
  }

  function Strip(s: string): (r: string)
    ensures Stripped(r)
  {
    var i := SkipSpace(s, 0);
    var j := DropSpace(s, i, |s|);
    s[i..j]
  }

  predicate Stripped(s: string) {
    s != "" ==> !IsSpace(s[0]) && !IsSpace(s[|s| - 1])
  }

  lemma {:induction false} SkipSpaceTo(s: string, i: nat, k: nat)
    requires i <= k <= |s|
    requires forall j | i <= j < k :: IsSpace(s[j])
    requires k < |s| ==> !IsSpace(s[k])
    ensures SkipSpace(s, i) == k
    decreases k - i
  {
    if i < k {
      SkipSpaceTo(s, i + 1, k);
    }
  }

  lemma {:induction false} DropSpaceTo(s: string, i: nat, k: nat, j: nat)
    requires i <= k <= j <= |s|
    requires forall m | k <= m < j :: IsSpace(s[m])
    requires i < k ==> !IsSpace(s[k - 1])
    ensures DropSpace(s, i, j) == k
    decreases j
  {
    if k < j {
      DropSpaceTo(s, i, k, j - 1);
    }
  }

  /** A stripped text is recovered from any padding. */
  lemma StripPadded(left: string, s: string, right: string)
    requires AllSpace(left) && Stripped(s) && AllSpace(right)
    ensures Strip(left + s + right) == s
  {
    var t := left + s + right;
    if s == "" {
      SkipSpaceTo(t, 0, |t|);
    } else {
      SkipSpaceTo(t, 0, |left|);
      DropSpaceTo(t, |left|, |left| + |s|, |t|);
      assert t[|left|..|left| + |s|] == s;
    }
  }

  lemma StripIsIdentity(s: string)
    requires Stripped(s)
    ensures Strip(s) == s
  {
    assert "" + s + "" == s;
    StripPadded("", s, "");
  }

  /** `part` is a contiguous piece of `s`. */
  ghost predicate Within(part: string, s: string) {
    exists left: string, right: string :: left + part + right == s
  }

  lemma WithinTransitive(a: string, b: string, c: string)
    requires Within(a, b) && Within(b, c)
    ensures Within(a, c)
  {
    var l1, r1 :| l1 + a + r1 == b;
    var l2, r2 :| l2 + b + r2 == c;
    assert (l2 + l1) + a + (r1 + r2) == c;
  }

  lemma SliceIsWithin(s: string, i: nat, j: nat)
    requires i <= j <= |s|
    ensures Within(s[i..j], s)
  {
    assert s[..i] + s[i..j] + s[j..] == s;
  }

  lemma StripIsWithin(s: string)
    ensures Within(Strip(s), s)
  {
    var i := SkipSpace(s, 0);
    SliceIsWithin(s, i, DropSpace(s, i, |s|));
  }

  lemma StripChars(s: string)
    ensures forall c | c in Strip(s) :: c in s
  {
    StripIsWithin(s);
    var left, right :| left + Strip(s) + right == s;
  }

  // ----- lines ---------------------------------------------------------------

  /** Length of the first line, its terminator excluded. */
  function LineLength(s: string): (n: nat)
    ensures n <= |s|
    ensures n < |s| ==> IsLineBreak(s[n])
    ensures OneLine(s[..n])
  {
    if s == "" || IsLineBreak(s[0]) then 0 else
      var n := LineLength(s[1..]);
      assert s[..n + 1] == [s[0]] + s[1..][..n];
      n + 1
  }

  /** `str.splitlines`: carriage return and newline together end one line. */
  function SplitLines(s: string): (lines: seq<string>)
    decreases |s|
    ensures s != "" ==> lines != []
    ensures forall line | line in lines :: OneLine(line)
  {
    if s == "" then [] else
      var n := LineLength(s);
      var rest := if n == |s| then ""
                  else if s[n] == '\r' && n + 1 < |s| && s[n + 1] == '\n' then s[n + 2..]
                  else s[n + 1..];
      [s[..n]] + SplitLines(rest)
  }

  function Join(separator: string, parts: seq<string>): string {
    if parts == [] then ""
    else if |parts| == 1 then parts[0]
    else parts[0] + separator + Join(separator, parts[1..])
  }

  lemma {:induction false} JoinAppend(separator: string, a: seq<string>, b: seq<string>)
    requires a != [] && b != []
    ensures Join(separator, a + b) == Join(separator, a) + separator + Join(separator, b)
  {
    if |a| == 1 {
      assert (a + b)[1..] == b;
    } else {
      assert (a + b)[1..] == a[1..] + b;
      JoinAppend(separator, a[1..], b);
    }
  }

  lemma {:induction false} LineLengthOf(line: string, rest: string)
    requires OneLine(line)
    requires rest != "" ==> IsLineBreak(rest[0])
    ensures LineLength(line + rest) == |line|
  {
    if line == "" {
      assert line + rest == rest;
    } else {
      assert (line + rest)[1..] == line[1..] + rest;
      LineLengthOf(line[1..], rest);
    }
  }

  lemma SplitFirstLine(line: string, rest: string)
    requires OneLine(line)
    ensures SplitLines(line + "\n" + rest) == [line] + SplitLines(rest)
  {
    var s := line + "\n" + rest;
    assert s == line + ("\n" + rest);
    LineLengthOf(line, "\n" + rest);
    assert s[..|line|] == line && s[|line| + 1..] == rest;
  }

  /** Any line break but a carriage return ends a line by itself. */
  lemma SplitAtBreak(line: string, c: char, rest: string)
    requires OneLine(line) && IsLineBreak(c) && c != '\r'
    ensures SplitLines(line + ([c] + rest)) == [line] + SplitLines(rest)
  {
    var s := line + ([c] + rest);
    LineLengthOf(line, [c] + rest);
    assert s[..|line|] == line && s[|line| + 1..] == rest;
  }

  /** The text is empty or ends with a line break. */
  predicate EndsLine(s: string) {
    s == "" || IsLineBreak(s[|s| - 1])
  }

  /** Where the text goes on after its first line. */
  function AfterLine(s: string, n: nat): (k: nat)
    requires n < |s|
    ensures n < k <= |s|
  {
    if s[n] == '\r' && n + 1 < |s| && s[n + 1] == '\n' then n + 2 else n + 1
  }

  lemma SplitStep(s: string, n: nat)
    requires n == LineLength(s) < |s|
    ensures SplitLines(s) == [s[..n]] + SplitLines(s[AfterLine(s, n)..])
  {
  }

  lemma LastOfOneLine(s: string)
    requires s != ""
    ensures OneLine(s) ==> !IsLineBreak(s[|s| - 1])
  {
    assert s[|s| - 1] in s;
  }

  lemma LineIsShorter(s: string)
    requires s != "" && IsLineBreak(s[|s| - 1])
    ensures LineLength(s) < |s|
  {
    LastOfOneLine(s);
    assert s[..|s|] == s;
  }

  lemma FirstLineOfBoth(a: string, b: string)
    requires LineLength(a) < |a|
    ensures LineLength(a + b) == LineLength(a)
  {
    var n := LineLength(a);
    assert a + b == a[..n] + (a[n..] + b);
    LineLengthOf(a[..n], a[n..] + b);
  }

  /** What follows a first text neither shortens nor lengthens its first line. */
  lemma AfterLineOfBoth(a: string, b: string, n: nat)
    requires n < |a| && (b != "" ==> b[0] != '\n' || a[n] != '\r' || n + 1 < |a|)
    ensures AfterLine(a + b, n) == AfterLine(a, n)
  {
    assert (a + b)[n] == a[n];
    if n + 1 < |a| {
      assert (a + b)[n + 1] == a[n + 1];
    }
  }

  lemma CutBoth(a: string, b: string, i: nat)
    requires i <= |a|
    ensures (a + b)[..i] == a[..i] && (a + b)[i..] == a[i..] + b
  {
  }

  lemma LastStays(a: string, cut: nat)
    requires cut <= |a|
    ensures a[cut..] != "" ==> a[cut..][|a[cut..]| - 1] == a[|a| - 1]
  {
  }

  lemma SplitLater(a: string, b: string, n: nat)
    requires n == LineLength(a) == LineLength(a + b) < |a|
    requires b != "" ==> b[0] != '\n' || a[n] != '\r' || n + 1 < |a|
    ensures SplitLines(a) == [a[..n]] + SplitLines(a[AfterLine(a, n)..])
    ensures SplitLines(a + b) == [a[..n]] + SplitLines(a[AfterLine(a, n)..] + b)
  {
    SplitStep(a, n);
    SplitStep(a + b, n);
    AfterLineOfBoth(a, b, n);
    CutBoth(a, b, n);
    CutBoth(a, b, AfterLine(a, n));
  }

  lemma FirstThenBoth(first: string, a: seq<string>, b: seq<string>)
    ensures [first] + (a + b) == ([first] + a) + b
  {
  }

  /** Lines of two texts, the first of which ends a line. */
  lemma {:induction false} SplitBoth(a: string, b: string)
    requires EndsLine(a) && (b != "" ==> b[0] != '\n')
    ensures SplitLines(a + b) == SplitLines(a) + SplitLines(b)
    decreases |a|
  {
    if a == "" {
      assert a + b == b;
    } else {
      LineIsShorter(a);
      var n := LineLength(a);
      var later := a[AfterLine(a, n)..];
      LastStays(a, AfterLine(a, n));
      FirstLineOfBoth(a, b);
      SplitLater(a, b, n);
      SplitBoth(later, b);
      FirstThenBoth(a[..n], SplitLines(later), SplitLines(b));
    }
  }

  /** A newline after a last line ends it and begins no other. */
  lemma {:induction false} SplitTerminated(a: string)
    requires a != "" && !IsLineBreak(a[|a| - 1])
    ensures SplitLines(a + "\n") == SplitLines(a)
    decreases |a|
  {
    var n := LineLength(a);
    if n == |a| {
      OnlyLineTerminated(a);
    } else {
      LastStays(a, AfterLine(a, n));
      SplitTerminated(a[AfterLine(a, n)..]);
      LaterTerminated(a, n);
    }
  }

  lemma LaterTerminated(a: string, n: nat)
    requires n == LineLength(a) < |a| && !IsLineBreak(a[|a| - 1])
    requires SplitLines(a[AfterLine(a, n)..] + "\n") == SplitLines(a[AfterLine(a, n)..])
    ensures SplitLines(a + "\n") == SplitLines(a)
  {
    FirstLineOfBoth(a, "\n");
    SplitLater(a, "\n", n);
  }

  lemma OnlyLineTerminated(a: string)
    requires a != "" && LineLength(a) == |a|
    ensures SplitLines(a + "\n") == SplitLines(a)
  {
    assert a[..|a|] == a;
    SplitOnlyLine(a);
    SplitFirstLine(a, "");
    assert a + "\n" + "" == a + "\n";
  }

  lemma SplitOnlyLine(line: string)
    requires OneLine(line) && line != ""
    ensures SplitLines(line) == [line]
  {
    LineLengthOf(line, "");
    assert line + "" == line;
  }

  /** Newline-joined lines split back into the same lines. */
  lemma {:induction false} SplitLinesOfJoin(lines: seq<string>)
    requires lines != [] && lines[|lines| - 1] != ""
    requires forall line | line in lines :: OneLine(line)
    ensures SplitLines(Join("\n", lines)) == lines
  {
    var line := lines[0];
    assert OneLine(line);
    if |lines| == 1 {
      SplitOnlyLine(line);
    } else {
      var rest := lines[1..];
      SplitLinesOfJoin(rest);
      SplitFirstLine(line, Join("\n", rest));
    }
  }

  // ----- split and partition at a character ----------------------------------

  function IndexOf(s: string, c: char): (k: nat)
    ensures k <= |s| && c !in s[..k]
    ensures k < |s| ==> s[k] == c
    ensures c in s <==> k < |s|
  {
    if s == "" || s[0] == c then 0 else
      var k := IndexOf(s[1..], c);
      assert s[..k + 1] == [s[0]] + s[1..][..k];
      k + 1
  }

  lemma {:induction false} IndexOfFirst(a: string, c: char, b: string)
    requires c !in a
    ensures IndexOf(a + [c] + b, c) == |a|
  {
    if a != "" {
      assert (a + [c] + b)[1..] == a[1..] + [c] + b;
      IndexOfFirst(a[1..], c, b);
    }
  }

  /** `str.split(c)`. */
  function SplitOn(s: string, c: char): (parts: seq<string>)
    ensures parts != []
    decreases |s|
  {
    var k := IndexOf(s, c);
    if k == |s| then [s] else [s[..k]] + SplitOn(s[k + 1..], c)
  }

  lemma {:induction false} SplitOnChars(s: string, c: char)
    ensures forall p | p in SplitOn(s, c) :: c !in p && forall d | d in p :: d in s
    decreases |s|
  {
    var k := IndexOf(s, c);
    if k < |s| {
      SplitOnChars(s[k + 1..], c);
    }
  }

  // ----- decimal integers ------------------------------------------------------

  predicate IsDigit(c: char) { '0' <= c <= '9' }

  function ShowNat(n: nat): (s: string)
    ensures s != "" && forall c | c in s :: IsDigit(c)
  {
    if n < 10 then [('0' as int + n) as char] else ShowNat(n / 10) + [('0' as int + n % 10) as char]
  }

  function ShowInt(n: int): (s: string)
    ensures s != "" && forall c | c in s :: IsDigit(c) || c == '-'
  {
    if n < 0 then "-" + ShowNat(-n) else ShowNat(n)
  }

  /** Digits with single underscores between them, as `int` reads them. */
  function ReadDigits(s: string, value: nat, afterDigit: bool): Option<nat>
    decreases |s|
  {
    if s == "" then (if afterDigit then Some(value) else None)
    else if IsDigit(s[0]) then ReadDigits(s[1..], value * 10 + (s[0] as int - '0' as int), true)
    else if s[0] == '_' && afterDigit then ReadDigits(s[1..], value, false)
    else None
  }

  predicate HasSign(s: string) {
    s != "" && (s[0] == '-' || s[0] == '+')
  }

  function ReadSigned(s: string): Option<int> {
    match ReadDigits(if HasSign(s) then s[1..] else s, 0, false)
    case None => None
    case Some(n) => var m: int := n; Some(if HasSign(s) && s[0] == '-' then -m else m)
  }

  /** `int(text)`: optional sign, then digits; None is its ValueError. */
  function ReadInt(text: string): Option<int> {
    ReadSigned(Strip(text))
  }

  lemma {:induction false} ReadDigitsOfShow(n: nat, tail: string)
    ensures ReadDigits(ShowNat(n) + tail, 0, false) == ReadDigits(tail, n, true)
    decreases n
  {
    var last := ('0' as int + n % 10) as char;
    var s := ShowNat(n) + tail;
    if n < 10 {
      assert s[1..] == tail;
      assert ReadDigits(s, 0, false) == ReadDigits(tail, n, true);
    } else {
      assert s == ShowNat(n / 10) + ([last] + tail);
      ReadDigitsOfShow(n / 10, [last] + tail);
      assert ([last] + tail)[1..] == tail;
      assert ReadDigits([last] + tail, n / 10, true) == ReadDigits(tail, n, true);
    }
  }

  predicate IsToken(s: string) {
    s != "" && Stripped(s) && OneLine(s)
  }

  lemma ShowIntIsToken(n: int)
    ensures IsToken(ShowInt(n))
  {
    assert forall c :: IsDigit(c) || c == '-' ==> !IsSpace(c) && !IsLineBreak(c);
  }

  /** Every integer is read back from its decimal text. */
  lemma ReadIntOfShow(n: int)
    ensures ReadInt(ShowInt(n)) == Some(n)
  {
    ShowIntIsToken(n);
    StripIsIdentity(ShowInt(n));
    ReadSignedOfShow(n);
  }

  lemma ReadSignedOfShow(n: int)
    ensures ReadSigned(ShowInt(n)) == Some(n)
  {
    var m: nat := if n < 0 then -n else n;
    ReadDigitsOfShow(m, "");
    assert ShowNat(m) + "" == ShowNat(m);
    if n < 0 {
      assert ("-" + ShowNat(m))[1..] == ShowNat(m);
    } else {
      assert IsDigit(ShowNat(m)[0]);
    }
  }

  // ----- universal newlines ----------------------------------------------------

  /** Text-mode reading: "\r\n" and "\r" arrive as "\n". */
  function ReadText(s: string): (r: string)
    ensures '\r' !in r
    ensures '\r' !in s ==> r == s
  {
    if s == "" then ""
    else if s[0] == '\r' then
      "\n" + ReadText(if |s| > 1 && s[1] == '\n' then s[2..] else s[1..])
    else [s[0]] + ReadText(s[1..])
  }
}
