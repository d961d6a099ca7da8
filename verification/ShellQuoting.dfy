/** Quoting arguments for the device shell, and the tokens its POSIX rules read back. */
module ShellQuoting {
  import opened Wrappers

  // ----- quoting: shlex.quote and " ".join ------------------------------------------------

  predicate Safe(c: char) {
    'a' <= c <= 'z' || 'A' <= c <= 'Z' || '0' <= c <= '9'
    || c == '_' || c == '@' || c == '%' || c == '+' || c == '=' || c == ':' || c == ',' || c == '.' || c == '/' || c == '-'
  }

  predicate AllSafe(s: string) {
    s == [] || (Safe(s[0]) && AllSafe(s[1..]))
  }

  /** Each single quote as '"'"'. */
  function Escape(s: string): string {
    if s == [] then []
    else (if s[0] == '\'' then ['\'', '"', '\'', '"', '\''] else [s[0]]) + Escape(s[1..])
  }

  function Quote(arg: string): string {
    if arg == [] then ['\'', '\'']
    else if AllSafe(arg) then arg
    else ['\''] + Escape(arg) + ['\'']
  }

  function CommandLine(args: seq<string>): string {
    if args == [] then []
    else if |args| == 1 then Quote(args[0])
    else Quote(args[0]) + [' '] + CommandLine(args[1..])
  }

  // ----- reading: sections 2.2.2, 2.2.3 and 2.3 of the Shell Command Language ---------------

  datatype Mode = Between | Bare | Single | Double

  predicate Blank(c: char) {
    c == ' ' || c == '\t'
  }

  /** Unquoted, these have a meaning of their own; section 2.2 lists them. */
  predicate Active(c: char) {
    c == '|' || c == '&' || c == ';' || c == '<' || c == '>' || c == '(' || c == ')' || c == '$' || c == '`'
    || c == '\\' || c == '\n' || c == '*' || c == '?' || c == '[' || c == '#' || c == '~'
  }

  /** These keep their meaning between double quotes. */
  predicate ActiveInDouble(c: char) {
    c == '$' || c == '`' || c == '\\'
  }

  /** The tokens so far, and the word being read. */
  datatype Scan = Scan(mode: Mode, word: string, tokens: seq<string>)

  function Next(scan: Scan, c: char): Option<Scan> {
    match scan.mode
    case Single => Some(if c == '\'' then scan.(mode := Bare) else scan.(word := scan.word + [c]))
    case Double =>
      if c == '"' then Some(scan.(mode := Bare))
      else if ActiveInDouble(c) then None
      else Some(scan.(word := scan.word + [c]))
    case _ =>
      if c == '\'' then Some(scan.(mode := Single))
      else if c == '"' then Some(scan.(mode := Double))
      else if Blank(c) then
        Some(Scan(Between, [], if scan.mode == Bare then scan.tokens + [scan.word] else scan.tokens))
      else if Active(c) then None
      else Some(Scan(Bare, scan.word + [c], scan.tokens))
  }

  function End(scan: Scan): Option<seq<string>> {
    match scan.mode
    case Between => Some(scan.tokens)
    case Bare => Some(scan.tokens + [scan.word])
    case _ => None
  }

  function ReadOn(s: string, scan: Scan): Option<seq<string>> {
    if s == [] then End(scan) else
      match Next(scan, s[0])
      case None => None
      case Some(next) => ReadOn(s[1..], next)
  }

  /** The words of a simple command, None if the text is anything more than that: operators,
      expansions, patterns, comments, or a quote that is not closed. */
  function Tokenise(s: string): Option<seq<string>> {
    ReadOn(s, Scan(Between, [], []))
  }

  // ----- reading back what was quoted ---------------------------------------------------------

  /** From one scan, the text leads to another whatever follows it. */
  ghost predicate Leads(s: string, scan: Scan, next: Scan) {
    forall rest :: ReadOn(s + rest, scan) == ReadOn(rest, next)
  }

  lemma CharacterLeads(c: char, scan: Scan, next: Scan)
    requires Next(scan, c) == Some(next)
    ensures Leads([c], scan, next)
  {
    forall rest ensures ReadOn([c] + rest, scan) == ReadOn(rest, next) {
      assert ([c] + rest)[1..] == rest;
    }
  }

  lemma NothingLeads(scan: Scan)
    ensures Leads([], scan, scan)
  {
    forall rest: string ensures ReadOn([] + rest, scan) == ReadOn(rest, scan) {
      assert [] + rest == rest;
    }
  }

  lemma LeadsOn(a: string, b: string, scan: Scan, middle: Scan, next: Scan)
    requires Leads(a, scan, middle) && Leads(b, middle, next)
    ensures Leads(a + b, scan, next)
  {
    forall rest ensures ReadOn(a + b + rest, scan) == ReadOn(rest, next) {
      assert a + b + rest == a + (b + rest);
    }
  }

  lemma {:induction false} SafeIsRead(a: string, word: string, tokens: seq<string>)
    requires AllSafe(a)
    ensures Leads(a, Scan(Bare, word, tokens), Scan(Bare, word + a, tokens))
  {
    var scan := Scan(Bare, word, tokens);
    if a == [] {
      NothingLeads(scan);
      assert word + a == word;
    } else {
      var middle := Scan(Bare, word + [a[0]], tokens);
      CharacterLeads(a[0], scan, middle);
      SafeIsRead(a[1..], middle.word, tokens);
      assert middle.word + a[1..] == word + a;
      LeadsOn([a[0]], a[1..], scan, middle, Scan(Bare, word + a, tokens));
      assert [a[0]] + a[1..] == a;
    }
  }

  lemma CharacterThen(c: char, s: string, scan: Scan, middle: Scan, next: Scan)
    requires Next(scan, c) == Some(middle) && Leads(s, middle, next)
    ensures Leads([c] + s, scan, next)
  {
    CharacterLeads(c, scan, middle);
    LeadsOn([c], s, scan, middle, next);
  }

  /** The five characters that stand for a single quote. */
  lemma EscapedQuoteIsRead(word: string, tokens: seq<string>)
    ensures Leads(['\'', '"', '\'', '"', '\''], Scan(Single, word, tokens), Scan(Single, word + ['\''], tokens))
  {
    var quoted := word + ['\''];
    var s1, s2 := Scan(Bare, word, tokens), Scan(Double, word, tokens);
    var s3, s4, s5 := Scan(Double, quoted, tokens), Scan(Bare, quoted, tokens), Scan(Single, quoted, tokens);
    CharacterLeads('\'', s4, s5);
    CharacterThen('"', ['\''], s3, s4, s5);
    CharacterThen('\'', ['"'] + ['\''], s2, s3, s5);
    CharacterThen('"', ['\''] + (['"'] + ['\'']), s1, s2, s5);
    CharacterThen('\'', ['"'] + (['\''] + (['"'] + ['\''])), Scan(Single, word, tokens), s1, s5);
    assert ['\''] + (['"'] + (['\''] + (['"'] + ['\'']))) == ['\'', '"', '\'', '"', '\''];
  }

  lemma {:induction false} EscapedIsRead(a: string, word: string, tokens: seq<string>)
    ensures Leads(Escape(a), Scan(Single, word, tokens), Scan(Single, word + a, tokens))
  {
    var scan := Scan(Single, word, tokens);
    if a == [] {
      NothingLeads(scan);
      assert word + a == word;
    } else {
      var middle := Scan(Single, word + [a[0]], tokens);
      var head := if a[0] == '\'' then ['\'', '"', '\'', '"', '\''] else [a[0]];
      if a[0] == '\'' {
        EscapedQuoteIsRead(word, tokens);
      } else {
        CharacterLeads(a[0], scan, middle);
      }
      EscapedIsRead(a[1..], middle.word, tokens);
      assert middle.word + a[1..] == word + a;
      LeadsOn(head, Escape(a[1..]), scan, middle, Scan(Single, word + a, tokens));
    }
  }

  lemma SafeIsPlain(c: char)
    requires Safe(c)
    ensures c != '\'' && c != '"' && !Blank(c) && !Active(c)
  {
  }

  lemma BareIsRead(arg: string, tokens: seq<string>)
    requires arg != [] && AllSafe(arg)
    ensures Leads(arg, Scan(Between, [], tokens), Scan(Bare, arg, tokens))
  {
    var start, first := Scan(Between, [], tokens), Scan(Bare, [arg[0]], tokens);
    assert start.word + [arg[0]] == [arg[0]];
    SafeIsPlain(arg[0]);
    SafeIsRead(arg[1..], [arg[0]], tokens);
    assert [arg[0]] + arg[1..] == arg;
    CharacterThen(arg[0], arg[1..], start, first, Scan(Bare, arg, tokens));
  }

  lemma EnclosedIsRead(arg: string, tokens: seq<string>)
    ensures Leads(['\''] + Escape(arg) + ['\''], Scan(Between, [], tokens), Scan(Bare, arg, tokens))
  {
    var open, close := Scan(Single, [], tokens), Scan(Single, arg, tokens);
    EscapedIsRead(arg, [], tokens);
    assert [] + arg == arg;
    CharacterThen('\'', Escape(arg), Scan(Between, [], tokens), open, close);
    CharacterLeads('\'', close, Scan(Bare, arg, tokens));
    LeadsOn(['\''] + Escape(arg), ['\''], Scan(Between, [], tokens), close, Scan(Bare, arg, tokens));
  }

  /** A quoted argument is read as that argument, whatever follows. */
  lemma QuotedIsRead(arg: string, tokens: seq<string>)
    ensures Leads(Quote(arg), Scan(Between, [], tokens), Scan(Bare, arg, tokens))
  {
    if arg != [] && AllSafe(arg) {
      BareIsRead(arg, tokens);
    } else {
      EnclosedIsRead(arg, tokens);
      assert arg == [] ==> ['\''] + Escape(arg) + ['\''] == Quote(arg);
    }
  }

  lemma LastIsRead(arg: string, tokens: seq<string>)
    ensures ReadOn(Quote(arg), Scan(Between, [], tokens)) == Some(tokens + [arg])
  {
    QuotedIsRead(arg, tokens);
    assert Quote(arg) + [] == Quote(arg);
  }

  lemma ArgumentIsRead(arg: string, tokens: seq<string>)
    ensures Leads(Quote(arg) + [' '], Scan(Between, [], tokens), Scan(Between, [], tokens + [arg]))
  {
    QuotedIsRead(arg, tokens);
    CharacterLeads(' ', Scan(Bare, arg, tokens), Scan(Between, [], tokens + [arg]));
    LeadsOn(Quote(arg), [' '], Scan(Between, [], tokens), Scan(Bare, arg, tokens), Scan(Between, [], tokens + [arg]));
  }

  lemma {:induction false} ArgumentsAreRead(args: seq<string>, tokens: seq<string>)
    ensures ReadOn(CommandLine(args), Scan(Between, [], tokens)) == Some(tokens + args)
  {
    if args == [] {
      assert tokens + args == tokens;
    } else if |args| == 1 {
      LastIsRead(args[0], tokens);
      assert args == [args[0]];
    } else {
      ArgumentIsRead(args[0], tokens);
      ArgumentsAreRead(args[1..], tokens + [args[0]]);
      assert tokens + [args[0]] + args[1..] == tokens + args;
    }
  }

  /** The shell reads back exactly the arguments, whatever they contain. */
  lemma CommandLineIsRead(args: seq<string>)
    ensures Tokenise(CommandLine(args)) == Some(args)
  {
    ArgumentsAreRead(args, []);
    assert [] + args == args;
  }

  // ----- what is quoted, and what is refused ------------------------------------------------

  lemma FirstOrLater(s: string)
    requires s != []
    ensures s[0] in s && forall c :: c in s <==> c == s[0] || c in s[1..]
  {
    assert s == [s[0]] + s[1..];
  }

  const PLAIN: set<char> := {'_', '@', '%', '+', '=', ':', ',', '.', '/', '-'}

  lemma {:induction false} AllSafeIff(s: string)
    ensures AllSafe(s) <==>
              forall c | c in s :: 'a' <= c <= 'z' || 'A' <= c <= 'Z' || '0' <= c <= '9' || c in PLAIN
  {
    if s != [] {
      AllSafeIff(s[1..]);
      FirstOrLater(s);
    }
  }

  /** An argument is left bare exactly if it is of letters, digits and the ten other characters that
      mean nothing to a shell, and not empty. */
  lemma BareIff(arg: string)
    ensures Quote(arg) == arg <==>
              arg != "" &&
              forall c | c in arg :: 'a' <= c <= 'z' || 'A' <= c <= 'Z' || '0' <= c <= '9' || c in PLAIN
  {
    AllSafeIff(arg);
    if arg != [] && !AllSafe(arg) {
      EscapeIsLonger(arg);
    }
  }

  lemma {:induction false} EscapeIsLonger(s: string)
    ensures |Escape(s)| >= |s|
  {
    if s != [] {
      EscapeIsLonger(s[1..]);
    }
  }

  const ACTIVE: set<char> :=
    {'|', '&', ';', '<', '>', '(', ')', '$', '`', '\\', '\n', '*', '?', '[', '#', '~'}

  lemma {:induction false} WordGoesOn(s: string, word: string)
    requires forall c | c in s :: c !in {'\'', '"', ' ', '\t'}
    ensures ReadOn(s, Scan(Bare, word, [])) ==
            if exists c | c in s :: c in ACTIVE then None else Some([word + s])
    decreases |s|
  {
    if s == [] {
      assert word + s == word && [] + [word] == [word];
    } else {
      FirstOrLater(s);
      NextOfWord(s[0], word);
      if !(s[0] in ACTIVE) {
        WordGoesOn(s[1..], word + [s[0]]);
        assert word + [s[0]] + s[1..] == word + s;
      }
    }
  }

  lemma NextOfWord(c: char, word: string)
    requires c !in {'\'', '"', ' ', '\t'}
    ensures Next(Scan(Bare, word, []), c) == if c in ACTIVE then None else Some(Scan(Bare, word + [c], []))
  {
  }

  /** Without quotes and blanks, a text is one word exactly if none of the characters in it has a
      meaning of its own; otherwise it is refused. */
  lemma WordIff(s: string)
    requires s != "" && forall c | c in s :: c !in {'\'', '"', ' ', '\t'}
    ensures Tokenise(s) == if exists c | c in s :: c in ACTIVE then None else Some([s])
  {
    FirstOrLater(s);
    WordGoesOn(s[1..], [s[0]]);
    assert [] + [s[0]] == [s[0]] && [s[0]] + s[1..] == s;
  }

  /** Blanks around words are no words, and a quote that is not closed is refused. */
  lemma BlanksAndQuotes(s: string)
    ensures Tokenise([' '] + s) == Tokenise(s)
    ensures '\'' !in s ==> Tokenise(['\''] + s) == None
  {
    assert ([' '] + s)[1..] == s && (['\''] + s)[1..] == s;
    if '\'' !in s {
      OpenQuote(s, [], []);
    }
  }

  lemma {:induction false} OpenQuote(s: string, word: string, tokens: seq<string>)
    requires '\'' !in s
    ensures ReadOn(s, Scan(Single, word, tokens)) == None
    decreases |s|
  {
    if s != [] {
      FirstOrLater(s);
      OpenQuote(s[1..], word + [s[0]], tokens);
    }
  }
}
