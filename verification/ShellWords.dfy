/** Quoting for a POSIX shell (pkg/incus/state.go) and the word splitter of the read-only executor
    (pkg/remote/readonly.go). */
module ShellWords {
  import opened Text

  // ---------------------------------------------------------------- quoting

  /** Every single quote becomes '\'' . */
  function Escape(s: string): string {
    if s == "" then "" else (if s[0] == '\'' then "'\\''" else [s[0]]) + Escape(s[1..])
  }

  function ShQuote(s: string): string {
    "'" + Escape(s) + "'"
  }

  // -------------------------------------------------------------- splitting

  predicate IsBare(c: char) {
    'a' <= c <= 'z' || 'A' <= c <= 'Z' || '0' <= c <= '9' || c in "_.,:/=@%+-"
  }

  /** Where a scan is: the finished words, the word being read, and whether one is. */
  datatype Scan = Scan(words: seq<string>, cur: string, inWord: bool) {
    function Flush(): Scan {
      if inWord then Scan(words + [cur], "", false) else this
    }
    function Take(text: string): Scan {
      Scan(words, cur + text, true)
    }
  }

  const START := Scan([], "", false)

  /** The words of s after a scan, or None when s has anything but the accepted subset. */
  function ScanRest(s: string, at: Scan): Option<seq<string>>
    decreases |s|
  {
    if s == "" then Some(at.Flush().words)
    else if s[0] == ' ' then ScanRest(s[1..], at.Flush())
    else if s[0] == '\'' then
      var j := IndexOf(s[1..], '\'');
      if j == |s| - 1 then None else ScanRest(s[j + 2..], at.Take(s[1..j + 1]))
    else if s[0] == '\\' && |s| > 1 && s[1] == '\'' then ScanRest(s[2..], at.Take("'"))
    else if IsBare(s[0]) then ScanRest(s[1..], at.Take([s[0]]))
    else None
  }

  function WordsOf(s: string): Option<seq<string>> {
    ScanRest(s, START)
  }

  // One step of a scan at the ith character of s.

  lemma ScanSpace(s: string, i: nat, at: Scan)
    requires i < |s| && s[i] == ' '
    ensures ScanRest(s[i..], at) == ScanRest(s[i + 1..], at.Flush())
  {
    assert s[i..][1..] == s[i + 1..];
  }

  lemma ScanBareStep(s: string, i: nat, at: Scan)
    requires i < |s| && IsBare(s[i])
    ensures ScanRest(s[i..], at) == ScanRest(s[i + 1..], at.Take([s[i]]))
  {
    assert s[i..][1..] == s[i + 1..];
  }

  lemma ScanEscape(s: string, i: nat, at: Scan)
    requires i + 1 < |s| && s[i] == '\\' && s[i + 1] == '\''
    ensures ScanRest(s[i..], at) == ScanRest(s[i + 2..], at.Take("'"))
  {
    assert s[i..][2..] == s[i + 2..];
  }

  lemma ScanStops(s: string, i: nat, at: Scan)
    requires i < |s| && s[i] != ' ' && s[i] != '\'' && !IsBare(s[i])
    requires !(s[i] == '\\' && i + 1 < |s| && s[i + 1] == '\'')
    ensures ScanRest(s[i..], at) == None
  {
  }

  lemma ScanQuote(s: string, i: nat, at: Scan)
    requires i < |s| && s[i] == '\''
    ensures var j := IndexOf(s[i + 1..], '\'');
      ScanRest(s[i..], at) == if j == |s[i + 1..]| then None else ScanRest(s[i + j + 2..], at.Take(s[i + 1..i + 1 + j]))
  {
    var rest, j := s[i..], IndexOf(s[i + 1..], '\'');
    assert rest[1..] == s[i + 1..];
    if j < |s[i + 1..]| {
      assert rest[1..j + 1] == s[i + 1..i + 1 + j] && rest[j + 2..] == s[i + j + 2..];
    }
  }

  /** What is left to scan gives the words of the whole. */
  ghost predicate Leads(s: string, i: nat, at: Scan, goal: Option<seq<string>>) {
    i <= |s| && ScanRest(s[i..], at) == goal
  }

  /** One round of the loop: the scan after it and the place of the next, or None where the command is refused. */
  function Round(s: string, i: nat, at: Scan): Option<(Scan, nat)>
    requires i < |s|
  {
    if s[i] == ' ' then Some((at.Flush(), i + 1))
    else if s[i] == '\'' then
      var j := IndexOf(s[i + 1..], '\'');
      if j == |s[i + 1..]| then None else Some((at.Take(s[i + 1..i + 1 + j]), i + j + 2))
    else if s[i] == '\\' && i + 1 < |s| && s[i + 1] == '\'' then Some((at.Take("'"), i + 2))
    else if IsBare(s[i]) then Some((at.Take([s[i]]), i + 1))
    else None
  }

  ghost predicate RoundIs(s: string, i: nat, at: Scan)
    requires i < |s|
  {
    match Round(s, i, at)
    case None => ScanRest(s[i..], at) == None
    case Some((next, k)) => i < k <= |s| && ScanRest(s[i..], at) == ScanRest(s[k..], next)
  }

  lemma QuoteRound(s: string, i: nat, at: Scan)
    requires i < |s| && s[i] == '\''
    ensures RoundIs(s, i, at)
  {
    ScanQuote(s, i, at);
  }

  lemma EscapeRound(s: string, i: nat, at: Scan)
    requires i + 1 < |s| && s[i] == '\\' && s[i + 1] == '\''
    ensures RoundIs(s, i, at)
  {
    ScanEscape(s, i, at);
  }

  lemma PlainRound(s: string, i: nat, at: Scan)
    requires i < |s| && (s[i] == ' ' || IsBare(s[i]))
    ensures RoundIs(s, i, at)
  {
    if s[i] == ' ' {
      ScanSpace(s, i, at);
    } else {
      ScanBareStep(s, i, at);
    }
  }

  lemma OtherRound(s: string, i: nat, at: Scan)
    requires i < |s| && s[i] != ' ' && s[i] != '\'' && !IsBare(s[i])
    requires !(s[i] == '\\' && i + 1 < |s| && s[i + 1] == '\'')
    ensures RoundIs(s, i, at)
  {
    ScanStops(s, i, at);
  }

  lemma EveryRound(s: string, i: nat, at: Scan)
    requires i < |s|
    ensures RoundIs(s, i, at)
  {
    if s[i] == '\'' {
      QuoteRound(s, i, at);
    } else if s[i] == '\\' && i + 1 < |s| && s[i + 1] == '\'' {
      EscapeRound(s, i, at);
    } else if s[i] == ' ' || IsBare(s[i]) {
      PlainRound(s, i, at);
    } else {
      OtherRound(s, i, at);
    }
  }

  lemma RoundLeads(s: string, i: nat, at: Scan, goal: Option<seq<string>>)
    requires i < |s| && Leads(s, i, at, goal)
    ensures match Round(s, i, at)
      case None => goal == None
      case Some((next, k)) => i < k <= |s| && Leads(s, k, next, goal)
  {
    EveryRound(s, i, at);
  }

  lemma AllLead(s: string)
    ensures Leads(s, 0, START, WordsOf(s))
    ensures forall at, goal :: Leads(s, |s|, at, goal) ==> goal == Some(at.Flush().words)
  {
    assert s[0..] == s && s[|s|..] == "";
  }

  method SplitWords(s: string) returns (words: seq<string>, ok: bool)
    ensures ok <==> WordsOf(s).Some?
    ensures ok ==> WordsOf(s) == Some(words)
  {
    words, ok := [], true;
    var cur, inWord, i := "", false, 0;
    ghost var goal := WordsOf(s);
    AllLead(s);
    while i < |s|
      invariant 0 <= i <= |s|
      invariant inWord || cur == ""
      invariant Leads(s, i, Scan(words, cur, inWord), goal)
    {
      var c := s[i];
      RoundLeads(s, i, Scan(words, cur, inWord), goal);
      if c == ' ' {
        if inWord {
          words, cur, inWord := words + [cur], "", false;
        }
      } else if c == '\'' {
        inWord := true;
        var j := IndexOf(s[i + 1..], '\'');
        if j == |s[i + 1..]| {
          return [], false;
        }
        cur := cur + s[i + 1..i + 1 + j];
        i := i + j + 1;
      } else if c == '\\' && i + 1 < |s| && s[i + 1] == '\'' {
        inWord, cur := true, cur + "'";
        i := i + 1;
      } else if IsBare(c) {
        inWord, cur := true, cur + [c];
      } else {
        return [], false;
      }
      i := i + 1;
    }
    if inWord {
      words := words + [cur];
    }
  }

  // -------------------------------------------------------------- round trip

  lemma {:induction false} EscapeConcat(a: string, b: string)
    ensures Escape(a + b) == Escape(a) + Escape(b)
  {
    if a == "" {
      assert a + b == b;
    } else {
      assert (a + b)[1..] == a[1..] + b;
      EscapeConcat(a[1..], b);
    }
  }

  lemma {:induction false} EscapeUnquoted(a: string)
    requires '\'' !in a
    ensures Escape(a) == a
  {
    if a != "" {
      EscapeUnquoted(a[1..]);
      assert a == [a[0]] + a[1..];
    }
  }

  /** A quoted run without quotes inside is taken whole. */
  lemma ScanQuotedRun(a: string, rest: string, at: Scan)
    requires '\'' !in a
    ensures ScanRest("'" + a + "'" + rest, at) == ScanRest(rest, at.Take(a))
  {
    var s := "'" + a + "'" + rest;
    assert s[1..] == a + ['\''] + rest;
    IndexOfSplit(a, '\'', rest);
    assert s[1..|a| + 1] == a && s[|a| + 2..] == rest;
  }

  /** What quoting makes of text up to its first single quote and of what follows it. */
  lemma EscapeFirstQuote(a: string, b: string)
    requires '\'' !in a
    ensures Escape(a + "'" + b) == a + "'\\''" + Escape(b)
  {
    EscapeConcat(a + "'", b);
    EscapeConcat(a, "'");
    EscapeUnquoted(a);
    assert Escape("'") == "'\\''";
  }

  lemma ScanEscapedQuote(rest: string, at: Scan)
    ensures ScanRest("\\'" + rest, at) == ScanRest(rest, at.Take("'"))
  {
    assert ("\\'" + rest)[2..] == rest;
  }

  /** Quoting makes any string one word, whatever it holds. */
  lemma {:induction false} ScanShQuote(text: string, rest: string, at: Scan)
    ensures ScanRest(ShQuote(text) + rest, at) == ScanRest(rest, at.Take(text))
    decreases |text|
  {
    var i := IndexOf(text, '\'');
    var a := text[..i];
    if i == |text| {
      assert text == a;
      EscapeUnquoted(a);
      ScanQuotedRun(a, rest, at);
    } else {
      ScanShQuoteStep(a, text[i + 1..], rest, at);
      assert text == a + "'" + text[i + 1..];
      ScanShQuote(text[i + 1..], rest, at.Take(a + "'"));
      assert at.cur + (a + "'") + text[i + 1..] == at.cur + text;
    }
  }

  lemma ScanShQuoteStep(a: string, b: string, rest: string, at: Scan)
    requires '\'' !in a
    ensures ScanRest(ShQuote(a + "'" + b) + rest, at) == ScanRest(ShQuote(b) + rest, at.Take(a + "'"))
  {
    var tail := ShQuote(b) + rest;
    ScanQuotedRun(a, "\\'" + tail, at);
    ScanEscapedQuote(tail, at.Take(a));
    assert at.cur + a + "'" == at.cur + (a + "'");
    ShQuoteAtQuote(a, b, rest);
  }

  lemma ShQuoteAtQuote(a: string, b: string, rest: string)
    requires '\'' !in a
    ensures ShQuote(a + "'" + b) + rest == "'" + a + "'" + ("\\'" + (ShQuote(b) + rest))
  {
    EscapeFirstQuote(a, b);
    assert "'\\''" == "'" + "\\'" + "'";
  }

  /** One word of a command a client builds: as written, or quoted. */
  datatype Word = Bare(text: string) | Quoted(text: string) {
    function Render(): string {
      if Bare? then text else ShQuote(text)
    }
    predicate Valid() {
      Bare? ==> text != "" && forall c :: c in text ==> IsBare(c)
    }
  }

  function Rendered(words: seq<Word>): seq<string> {
    if words == [] then [] else [words[0].Render()] + Rendered(words[1..])
  }

  function CommandLine(words: seq<Word>): string {
    Join(Rendered(words), ' ')
  }

  function Texts(words: seq<Word>): seq<string> {
    if words == [] then [] else [words[0].text] + Texts(words[1..])
  }

  predicate AllValid(words: seq<Word>) {
    words == [] || (words[0].Valid() && AllValid(words[1..]))
  }

  lemma {:induction false} ScanBare(text: string, rest: string, at: Scan)
    requires text != "" && forall c :: c in text ==> IsBare(c)
    ensures ScanRest(text + rest, at) == ScanRest(rest, at.Take(text))
  {
    assert (text + rest)[1..] == text[1..] + rest;
    assert IsBare(text[0]);
    if |text| == 1 {
      assert text == [text[0]] && text[1..] + rest == rest;
    } else {
      ScanBare(text[1..], rest, at.Take([text[0]]));
      assert at.Take([text[0]]).Take(text[1..]) == at.Take(text) by {
        assert at.cur + [text[0]] + text[1..] == at.cur + text;
      }
    }
  }

  lemma ScanWord(w: Word, rest: string, at: Scan)
    requires w.Valid()
    ensures ScanRest(w.Render() + rest, at) == ScanRest(rest, at.Take(w.text))
  {
    if w.Bare? {
      ScanBare(w.text, rest, at);
    } else {
      ScanShQuote(w.text, rest, at);
    }
  }

  lemma ScanLastWord(w: Word, done: seq<string>)
    requires w.Valid()
    ensures ScanRest(w.Render(), Scan(done, "", false)) == Some(done + [w.text])
  {
    assert w.Render() + "" == w.Render();
    ScanWord(w, "", Scan(done, "", false));
    assert "" + w.text == w.text;
  }

  lemma ScanFirstWord(w: Word, tail: string, done: seq<string>)
    requires w.Valid()
    ensures ScanRest(w.Render() + [' '] + tail, Scan(done, "", false))
         == ScanRest(tail, Scan(done + [w.text], "", false))
  {
    assert w.Render() + [' '] + tail == w.Render() + (" " + tail);
    assert (" " + tail)[1..] == tail && "" + w.text == w.text;
    ScanWord(w, " " + tail, Scan(done, "", false));
  }

  lemma CommandLineCons(w: Word, rest: seq<Word>)
    ensures CommandLine([w] + rest) == if rest == [] then w.Render() else w.Render() + [' '] + CommandLine(rest)
    ensures Texts([w] + rest) == [w.text] + Texts(rest)
  {
    assert ([w] + rest)[1..] == rest;
    assert Rendered([w] + rest) == [w.Render()] + Rendered(rest);
    assert Rendered([w] + rest)[1..] == Rendered(rest);
  }

  lemma {:induction false} ScanCommand(words: seq<Word>, done: seq<string>)
    requires AllValid(words)
    ensures ScanRest(CommandLine(words), Scan(done, "", false)) == Some(done + Texts(words))
    decreases |words|
  {
    if words == [] {
      assert done + [] == done;
    } else {
      ScanCommand(words[1..], done + [words[0].text]);
      ScanCommandStep(words[0], words[1..], done);
      assert words == [words[0]] + words[1..];
    }
  }

  lemma ScanCommandStep(w: Word, rest: seq<Word>, done: seq<string>)
    requires w.Valid()
    requires ScanRest(CommandLine(rest), Scan(done + [w.text], "", false)) == Some(done + [w.text] + Texts(rest))
    ensures ScanRest(CommandLine([w] + rest), Scan(done, "", false)) == Some(done + Texts([w] + rest))
  {
    CommandLineCons(w, rest);
    assert done + [w.text] + Texts(rest) == done + ([w.text] + Texts(rest));
    if rest == [] {
      ScanLastWord(w, done);
    } else {
      ScanFirstWord(w, CommandLine(rest), done);
    }
  }

  /** Splitting a built command gives back exactly its words. */
  lemma CommandWords(words: seq<Word>)
    requires AllValid(words)
    ensures WordsOf(CommandLine(words)) == Some(Texts(words))
  {
    ScanCommand(words, []);
    assert [] + Texts(words) == Texts(words);
  }

  function QuotedAll(args: seq<string>): seq<string> {
    if args == [] then [] else [ShQuote(args[0])] + QuotedAll(args[1..])
  }

  function AsQuoted(args: seq<string>): seq<Word> {
    if args == [] then [] else [Quoted(args[0])] + AsQuoted(args[1..])
  }

  lemma {:induction false} AsQuotedWords(args: seq<string>)
    ensures AllValid(AsQuoted(args)) && Texts(AsQuoted(args)) == args
    ensures Rendered(AsQuoted(args)) == QuotedAll(args)
  {
    if args != [] {
      AsQuotedWords(args[1..]);
    }
  }

  /** Every list of strings survives quoting, joining with spaces and splitting. */
  lemma ShQuoteRoundTrip(args: seq<string>)
    ensures WordsOf(Join(QuotedAll(args), ' ')) == Some(args)
  {
    AsQuotedWords(args);
    CommandWords(AsQuoted(args));
  }

  // ------------------------------------------------------------------- POSIX

  datatype Mode = Plain | InQuotes

  /** Characters that start an operator, an expansion, a pattern, a comment or double quotes outside
      quotes: section 2.2 of the POSIX.1-2017 Shell Command Language asks for them to be quoted. A
      newline ends the command (section 2.3). */
  predicate Special(c: char) {
    c in "|&;<>()$`\"\n*?[#~{}!"
  }

  /** Token recognition of section 2.3, one character at a time, with the escape character
      (section 2.2.1) and single quotes (section 2.2.2). None for a command that needs more than these. */
  function PosixRest(s: string, at: Scan, mode: Mode): Option<seq<string>>
    decreases |s|
  {
    if mode == InQuotes then
      if s == "" then None
      else if s[0] == '\'' then PosixRest(s[1..], at, Plain)
      else PosixRest(s[1..], at.Take([s[0]]), InQuotes)
    else if s == "" then Some(at.Flush().words)
    else if s[0] == '\\' then
      if |s| == 1 then None
      else if s[1] == '\n' then PosixRest(s[2..], at, Plain)
      else PosixRest(s[2..], at.Take([s[1]]), Plain)
    else if s[0] == '\'' then PosixRest(s[1..], at.Take(""), InQuotes)
    else if s[0] == ' ' || s[0] == '\t' then PosixRest(s[1..], at.Flush(), Plain)
    else if Special(s[0]) then None
    else PosixRest(s[1..], at.Take([s[0]]), Plain)
  }

  function PosixWords(s: string): Option<seq<string>> {
    PosixRest(s, START, Plain)
  }

  lemma {:induction false} PosixQuotedRun(a: string, rest: string, at: Scan)
    requires '\'' !in a && at.inWord
    ensures PosixRest(a + "'" + rest, at, InQuotes) == PosixRest(rest, at.Take(a), Plain)
  {
    var s := a + "'" + rest;
    if a == "" {
      assert s[1..] == rest && at.Take("") == at;
    } else {
      assert s[1..] == a[1..] + "'" + rest;
      PosixQuotedRun(a[1..], rest, at.Take([a[0]]));
      assert at.cur + [a[0]] + a[1..] == at.cur + a;
    }
  }

  /** A closed quote, read character by character. */
  lemma PosixQuote(s: string, at: Scan)
    requires s != "" && s[0] == '\'' && IndexOf(s[1..], '\'') < |s| - 1
    ensures var j := IndexOf(s[1..], '\'');
      PosixRest(s, at, Plain) == PosixRest(s[j + 2..], at.Take(s[1..j + 1]), Plain)
  {
    var j := IndexOf(s[1..], '\'');
    var a, rest := s[1..j + 1], s[j + 2..];
    assert s[1..] == a + "'" + rest && s[1..][..j] == a;
    PosixQuotedRun(a, rest, at.Take(""));
    assert at.Take("").Take(a) == at.Take(a);
  }

  lemma {:induction false} ScanIsPosix(s: string, at: Scan)
    requires ScanRest(s, at).Some?
    ensures PosixRest(s, at, Plain) == ScanRest(s, at)
    decreases |s|
  {
    if s != "" {
      if s[0] == ' ' {
        ScanIsPosix(s[1..], at.Flush());
      } else if s[0] == '\'' {
        var j := IndexOf(s[1..], '\'');
        PosixQuote(s, at);
        ScanIsPosix(s[j + 2..], at.Take(s[1..j + 1]));
      } else if s[0] == '\\' {
        ScanIsPosix(s[2..], at.Take("'"));
      } else {
        ScanIsPosix(s[1..], at.Take([s[0]]));
      }
    }
  }

  /** Every command the splitter accepts, a POSIX shell splits into the same words. */
  lemma AcceptedIsPosix(s: string)
    requires WordsOf(s).Some?
    ensures PosixWords(s) == WordsOf(s)
  {
    ScanIsPosix(s, START);
  }
}
