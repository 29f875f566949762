// The command line a client sends (client/client.go): the server gets one string and splits it into
// words by the quoting rules of the shell, so the client quotes every argument.
module Quote {
  import opened Wrappers
  import opened Text

  // ----- quoting -----

  /** `strings.ReplaceAll` for a one-character pattern. */
  function ReplaceAll(s: string, pattern: char, replacement: string): string {
    if s == "" then ""
    else (if s[0] == pattern then replacement else [s[0]]) + ReplaceAll(s[1..], pattern, replacement)
  }

  /** `quoteArg`: a quote ends the quoted text, stands in double quotes, and starts it again. */
  function QuoteArg(arg: string): string {
    "'" + ReplaceAll(arg, '\'', "'\"'\"'") + "'"
  }

  /** The command built so far, with the port of the file server if there is one. */
  function Prefix(cmd: string, port: nat): string {
    if port == 0 then cmd else cmd + "-port9p=" + Decimal(port)
  }

  // ----- the words of a command -----

  /** Where a splitter stands: outside quotes, after a backslash there, in single or double quotes, or
      after a backslash in double quotes. */
  datatype Mode = Plain | Escaped | Single | Double | DoubleEscaped

  /** The finished words, and the word under way if there is one. */
  datatype Lexer = Lexer(words: seq<string>, cur: Option<string>, mode: Mode)

  function Grow(cur: Option<string>, s: string): Option<string> {
    Some((if cur.Some? then cur.value else "") + s)
  }

  function Finish(l: Lexer): seq<string> {
    l.words + if l.cur.Some? then [l.cur.value] else []
  }

  predicate IsBlank(c: char) {
    c == ' ' || c == '\t' || c == '\n'
  }

  /** One character under the quoting rules of the POSIX.1-2017 Shell Command Language, sections
      2.2.1 to 2.2.3. Unquoted blanks end a word. */
  function Step(l: Lexer, c: char): Lexer {
    match l.mode
    case Plain =>
      if IsBlank(c) then Lexer(Finish(l), None, Plain)
      else if c == '\\' then l.(mode := Escaped)
      else if c == '\'' then l.(cur := Grow(l.cur, ""), mode := Single)
      else if c == '"' then l.(cur := Grow(l.cur, ""), mode := Double)
      else l.(cur := Grow(l.cur, [c]))
    case Escaped =>
      if c == '\n' then l.(mode := Plain) else l.(cur := Grow(l.cur, [c]), mode := Plain)
    case Single =>
      if c == '\'' then l.(mode := Plain) else l.(cur := Grow(l.cur, [c]))
    case Double =>
      if c == '"' then l.(mode := Plain)
      else if c == '\\' then l.(mode := DoubleEscaped)
      else l.(cur := Grow(l.cur, [c]))
    case DoubleEscaped =>
      if c == '\n' then l.(mode := Double)
      else if c == '$' || c == '`' || c == '"' || c == '\\' then l.(cur := Grow(l.cur, [c]), mode := Double)
      else l.(cur := Grow(l.cur, ['\\', c]), mode := Double)
  }

  function Run(l: Lexer, s: string): Lexer
    decreases |s|
  {
    if s == "" then l else Run(Step(l, s[0]), s[1..])
  }

  const START := Lexer([], None, Plain)

  /** The words of a line, if no quote is left open and no backslash is last. */
  function Words(line: string): Option<seq<string>> {
    var l := Run(START, line);
    if l.mode == Plain then Some(Finish(l)) else None
  }

  // ----- the splitter undoes the quoting -----

  lemma {:induction false} RunAppend(l: Lexer, a: string, b: string)
    ensures Run(l, a + b) == Run(Run(l, a), b)
    decreases |a|
  {
    if a == "" {
      assert a + b == b;
    } else {
      assert (a + b)[0] == a[0] && (a + b)[1..] == a[1..] + b;
      RunAppend(Step(l, a[0]), a[1..], b);
    }
  }

  lemma RunOne(l: Lexer, c: char)
    ensures Run(l, [c]) == Step(l, c)
  {
    assert [c][1..] == "";
  }

  /** A quoted quote, from inside single quotes to inside single quotes. */
  lemma RunQuotedQuote(l: Lexer)
    requires l.mode == Single && l.cur.Some?
    ensures Run(l, "'\"'\"'") == l.(cur := Some(l.cur.value + "'"))
  {
    var s := "'\"'\"'";
    var l1 := Step(l, '\'');
    var l2 := Step(l1, '"');
    var l3 := Step(l2, '\'');
    var l4 := Step(l3, '"');
    assert s[1..][1..][1..] == "\"'" && s[1..][1..] == "'\"'" && s[1..] == "\"'\"'";
    assert "\"'"[1..] == "'";
    assert l.cur.value + "" + "'" + "" == l.cur.value + "'";
    RunOne(l4, '\'');
    assert Run(l3, "\"'") == Run(l4, "'");
    assert Run(l2, "'\"'") == Run(l3, "\"'");
    assert Run(l1, "\"'\"'") == Run(l2, "'\"'");
  }

  lemma {:induction false} RunQuoted(l: Lexer, arg: string)
    requires l.mode == Single && l.cur.Some?
    ensures Run(l, ReplaceAll(arg, '\'', "'\"'\"'")) == l.(cur := Some(l.cur.value + arg))
    decreases |arg|
  {
    if arg == "" {
      assert l.cur.value + arg == l.cur.value;
    } else {
      var first := if arg[0] == '\'' then "'\"'\"'" else [arg[0]];
      var rest := ReplaceAll(arg[1..], '\'', "'\"'\"'");
      RunAppend(l, first, rest);
      if arg[0] == '\'' {
        RunQuotedQuote(l);
      } else {
        RunOne(l, arg[0]);
      }
      RunQuoted(l.(cur := Some(l.cur.value + [arg[0]])), arg[1..]);
      assert l.cur.value + [arg[0]] + arg[1..] == l.cur.value + arg;
    }
  }

  /** Between words, a quoted argument becomes the word under way. */
  lemma RunQuoteArg(words: seq<string>, arg: string)
    ensures Run(Lexer(words, None, Plain), QuoteArg(arg)) == Lexer(words, Some(arg), Plain)
  {
    var l := Lexer(words, None, Plain);
    var body := ReplaceAll(arg, '\'', "'\"'\"'");
    RunAppend(l, "'" + body, "'");
    RunAppend(l, "'", body);
    RunOne(l, '\'');
    RunQuoted(Lexer(words, Some(""), Single), arg);
    assert "" + arg == arg;
    RunOne(Lexer(words, Some(arg), Single), '\'');
  }

  function QuoteAll(args: seq<string>): seq<string> {
    seq(|args|, i requires 0 <= i < |args| => QuoteArg(args[i]))
  }

  lemma {:induction false} RunQuoteAll(words: seq<string>, args: seq<string>)
    ensures var l := Run(Lexer(words, None, Plain), Join(QuoteAll(args), " "));
            l.mode == Plain && Finish(l) == words + args
    decreases |args|
  {
    if args != [] {
      RunQuoteArg(words, args[0]);
      assert QuoteAll(args)[1..] == QuoteAll(args[1..]);
      if |args| == 1 {
        assert words + [args[0]] == words + args;
      } else {
        var l := Lexer(words, None, Plain);
        var q := QuoteArg(args[0]);
        var rest := Join(QuoteAll(args[1..]), " ");
        RunAppend(l, q + " ", rest);
        RunAppend(l, q, " ");
        RunOne(Lexer(words, Some(args[0]), Plain), ' ');
        RunQuoteAll(words + [args[0]], args[1..]);
        assert words + [args[0]] + args[1..] == words + args;
      }
    }
  }

  /** The words of the quoted arguments are the arguments, whatever characters they hold. */
  lemma QuotingRoundTrip(args: seq<string>)
    ensures Words(Join(QuoteAll(args), " ")) == Some(args)
  {
    RunQuoteAll([], args);
    assert [] + args == args;
  }

  /** After a command that leaves no quote open, the words of the line are the words of the command and
      then the arguments. */
  lemma CommandRoundTrip(cmd: string, args: seq<string>)
    requires Words(cmd).Some?
    ensures Words(cmd + (" " + Join(QuoteAll(args), " "))) == Some(Words(cmd).value + args)
  {
    var rest := Join(QuoteAll(args), " ");
    RunAppend(START, cmd, " " + rest);
    var l := Run(START, cmd);
    RunAppend(l, " ", rest);
    RunOne(l, ' ');
    RunQuoteAll(Finish(l), args);
  }

  // ----- the command of a session -----

  predicate IsLetter(c: char) {
    !IsBlank(c) && c != '\\' && c != '\'' && c != '"'
  }

  lemma {:induction false} RunLetters(words: seq<string>, cur: string, s: string)
    requires forall i | 0 <= i < |s| :: IsLetter(s[i])
    ensures Run(Lexer(words, Some(cur), Plain), s) == Lexer(words, Some(cur + s), Plain)
    decreases |s|
  {
    if s == "" {
      assert cur + s == cur;
    } else {
      RunLetters(words, cur + [s[0]], s[1..]);
      assert cur + [s[0]] + s[1..] == cur + s;
    }
  }

  lemma OneWord(w: string)
    requires w != "" && forall i | 0 <= i < |w| :: IsLetter(w[i])
    ensures Words(w) == Some([w])
  {
    assert Step(START, w[0]) == Lexer([], Some([w[0]]), Plain) by {
      assert "" + [w[0]] == [w[0]];
    }
    RunLetters([], [w[0]], w[1..]);
    assert [w[0]] + w[1..] == w;
    assert [] + [w] == [w];
  }

  lemma {:induction false} DecimalLetters(n: nat)
    ensures Decimal(n) != "" && forall i | 0 <= i < |Decimal(n)| :: '0' <= Decimal(n)[i] <= '9'
  {
    if n >= 10 {
      DecimalLetters(n / 10);
      DecimalLetters(n % 10);
    }
  }

  /** A new command is empty, so the server gets the port as a word of its own, then the arguments. */
  lemma SessionWords(port: nat, args: seq<string>)
    ensures Words(Prefix("", port) + (" " + Join(QuoteAll(args), " ")))
         == Some((if port == 0 then [] else ["-port9p=" + Decimal(port)]) + args)
  {
    var p := Prefix("", port);
    if port != 0 {
      DecimalLetters(port);
      var w := "-port9p=" + Decimal(port);
      assert p == w;
      forall i | 0 <= i < |w| ensures IsLetter(w[i]) {
      }
      OneWord(w);
    }
    CommandRoundTrip(p, args);
  }

  /** The end of `Start`: the arguments are quoted one by one and joined after the command. */
  method BuildCommand(command: string, port: nat, args: seq<string>) returns (cmd: string)
    ensures cmd == Prefix(command, port) + (" " + Join(QuoteAll(args), " "))
    ensures Words(Prefix(command, port)).Some?
            ==> Words(cmd) == Some(Words(Prefix(command, port)).value + args)
  {
    cmd := command;
    if port != 0 {
      cmd := cmd + "-port9p=" + Decimal(port);
    }
    if Words(Prefix(command, port)).Some? {
      CommandRoundTrip(Prefix(command, port), args);
    }
    var quoted := new string[|args|];
    for i := 0 to |args|
      invariant forall k | 0 <= k < i :: quoted[k] == QuoteArg(args[k])
    {
      quoted[i] := QuoteArg(args[i]);
    }
    assert quoted[..] == QuoteAll(args);
    cmd := cmd + (" " + Join(quoted[..], " "));
  }
}
