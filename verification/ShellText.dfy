/** Shell words: the quoting of `resticPreview.ts` and the tokenizer of `resticBackupCommand.ts`. */
module ShellText {
  import opened Wrappers

  /** What the JavaScript class `\s` matches. */
  predicate IsSpace(c: char) {
    || '\U{0009}' <= c <= '\U{000D}' || c == ' ' || c == '\U{00A0}' || c == '\U{1680}'
    || '\U{2000}' <= c <= '\U{200A}' || c == '\U{2028}' || c == '\U{2029}' || c == '\U{202F}'
    || c == '\U{205F}' || c == '\U{3000}' || c == '\U{FEFF}'
  }

  predicate IsPlain(c: char) {
    'A' <= c <= 'Z' || 'a' <= c <= 'z' || '0' <= c <= '9' || c in "_./:=+,%@-"
  }

  predicate AllPlain(s: string) {
    forall c | c in s :: IsPlain(c)
  }

  /** `value.replace(/'/g, "'\\''")` */
  function EscapeQuotes(s: string): string {
    if s == "" then "" else (if s[0] == '\'' then "'\\''" else [s[0]]) + EscapeQuotes(s[1..])
  }

  function ShellQuote(value: string): string {
    if value != "" && AllPlain(value) then value else "'" + EscapeQuotes(value) + "'"
  }

  function QuoteAll(args: seq<string>): seq<string> {
    seq(|args|, i requires 0 <= i < |args| => ShellQuote(args[i]))
  }

  function Join(words: seq<string>, separator: string): string {
    if |words| == 0 then ""
    else if |words| == 1 then words[0]
    else words[0] + separator + Join(words[1..], separator)
  }

  /** Length of the line continuation (backslash, optional CR, LF) that `s` starts with; 0 when it starts with none. */
  function ContinuationLength(s: string): (n: nat)
    ensures n <= |s|
  {
    if |s| >= 2 && s[0] == '\\' && s[1] == '\n' then 2
    else if |s| >= 3 && s[0] == '\\' && s[1] == '\r' && s[2] == '\n' then 3
    else 0
  }

  /** `raw.replace(/\\\r?\n/g, ' ')` */
  function Unfold(s: string): string {
    if s == "" then ""
    else if ContinuationLength(s) > 0 then " " + Unfold(s[ContinuationLength(s)..])
    else [s[0]] + Unfold(s[1..])
  }

  predicate HasContinuation(s: string) {
    exists i | 0 <= i < |s| :: ContinuationLength(s[i..]) > 0
  }

  datatype Lexer = Lexer(tokens: seq<string>, current: string, quote: Option<char>, escaped: bool)

  const FRESH := Lexer([], "", None, false)

  /** One turn of the tokenizer's loop. */
  function LexChar(l: Lexer, c: char): Lexer {
    if l.escaped then l.(current := l.current + [c], escaped := false)
    else if c == '\\' && l.quote != Some('\'') then l.(escaped := true)
    else if l.quote.Some? then
      if c == l.quote.value then l.(quote := None) else l.(current := l.current + [c])
    else if c == '"' || c == '\'' then l.(quote := Some(c))
    else if IsSpace(c) then
      if l.current != "" then l.(tokens := l.tokens + [l.current], current := "") else l
    else l.(current := l.current + [c])
  }

  function LexAll(l: Lexer, s: string): Lexer
    decreases |s|
  {
    if s == "" then l else LexAll(LexChar(l, s[0]), s[1..])
  }

  datatype LexError = UnclosedQuote

  function LexEnd(l: Lexer): Result<seq<string>, LexError> {
    var current := if l.escaped then l.current + "\\" else l.current;
    if l.quote.Some? then Failure(UnclosedQuote)
    else Success(if current != "" then l.tokens + [current] else l.tokens)
  }

  function Tokens(raw: string): Result<seq<string>, LexError> {
    LexEnd(LexAll(FRESH, Unfold(raw)))
  }

  method TokenizeShellLike(raw: string) returns (r: Result<seq<string>, LexError>)
    ensures r == Tokens(raw)
  {
    var input := Unfold(raw);
    var tokens: seq<string>, current := [], "";
    var quote: Option<char>, escaped := None, false;
    for i := 0 to |input|
      invariant LexAll(Lexer(tokens, current, quote, escaped), input[i..]) == LexAll(FRESH, input)
    {
      var c := input[i];
      assert input[i..][0] == c && input[i..][1..] == input[i + 1..];
      if escaped {
        current := current + [c];
        escaped := false;
      } else if c == '\\' && quote != Some('\'') {
        escaped := true;
      } else if quote.Some? {
        if c == quote.value {
          quote := None;
        } else {
          current := current + [c];
        }
      } else if c == '"' || c == '\'' {
        quote := Some(c);
      } else if IsSpace(c) {
        if current != "" {
          tokens := tokens + [current];
          current := "";
        }
      } else {
        current := current + [c];
      }
    }
    if escaped {
      current := current + "\\";
    }
    if quote.Some? {
      return Failure(UnclosedQuote);
    }
    if current != "" {
      tokens := tokens + [current];
    }
    r := Success(tokens);
  }

  /** The words a reader of the printed line gets back: continuations became spaces, empty words vanished. */
  function Survivors(args: seq<string>): seq<string> {
    if args == [] then []
    else (if args[0] == "" then [] else [Unfold(args[0])]) + Survivors(args[1..])
  }

  // ---- proofs ----

  lemma {:induction false} LexAppend(l: Lexer, s: string, t: string)
    ensures LexAll(l, s + t) == LexAll(LexAll(l, s), t)
    decreases |s|
  {
    if s == "" {
      assert s + t == t;
    } else {
      assert (s + t)[1..] == s[1..] + t;
      LexAppend(LexChar(l, s[0]), s[1..], t);
    }
  }

  /** What a text unfolds to at its start, and the text after that. */
  function UnfoldHead(s: string): string
    requires s != ""
  {
    if ContinuationLength(s) > 0 then " " else [s[0]]
  }

  function UnfoldRest(s: string): (rest: string)
    requires s != ""
    ensures |rest| < |s|
  {
    if ContinuationLength(s) > 0 then s[ContinuationLength(s)..] else s[1..]
  }

  lemma UnfoldStep(s: string)
    requires s != ""
    ensures Unfold(s) == UnfoldHead(s) + Unfold(UnfoldRest(s))
  {
  }

  /** The right part cannot complete a continuation begun in the left part. */
  predicate Joins(s: string, t: string) {
    s == "" || t == "" || (s[|s| - 1] != '\\' && s[|s| - 1] != '\r') || (t[0] != '\n' && t[0] != '\r')
  }

  lemma ContinuationStays(s: string, t: string)
    requires s != "" && Joins(s, t)
    ensures ContinuationLength(s + t) == ContinuationLength(s)
  {
    if t == "" { assert s + t == s; }
  }

  lemma HeadAndRestStay(s: string, t: string)
    requires s != "" && Joins(s, t)
    ensures UnfoldHead(s + t) == UnfoldHead(s) && UnfoldRest(s + t) == UnfoldRest(s) + t && Joins(UnfoldRest(s), t)
  {
    ContinuationStays(s, t);
    var k := if ContinuationLength(s) > 0 then ContinuationLength(s) else 1;
    assert (s + t)[k..] == s[k..] + t;
  }

  lemma ConcatAssociates(a: string, b: string, c: string)
    ensures a + (b + c) == (a + b) + c
  {
  }

  /** Unfolding splits wherever the right part cannot complete a continuation begun in the left part. */
  lemma {:induction false} UnfoldAppend(s: string, t: string)
    requires Joins(s, t)
    ensures Unfold(s + t) == Unfold(s) + Unfold(t)
    decreases |s|
  {
    if s == "" {
      assert s + t == t;
    } else {
      HeadAndRestStay(s, t);
      UnfoldAppend(UnfoldRest(s), t);
      UnfoldStep(s);
      UnfoldStep(s + t);
      ConcatAssociates(UnfoldHead(s), Unfold(UnfoldRest(s)), Unfold(t));
    }
  }

  lemma {:induction false} UnfoldFixed(s: string)
    ensures Unfold(s) == s <==> !HasContinuation(s)
    ensures s != "" ==> Unfold(s) != ""
    ensures |Unfold(s)| <= |s|
    decreases |s|
  {
    if s != "" {
      var n := ContinuationLength(s);
      if n > 0 {
        UnfoldFixed(s[n..]);
        assert s[0..] == s;
        assert |Unfold(s)| < |s|;
      } else {
        UnfoldFixed(s[1..]);
        assert forall i | 0 <= i < |s[1..]| :: s[1..][i..] == s[i + 1..];
        if HasContinuation(s) {
          var i :| 0 <= i < |s| && ContinuationLength(s[i..]) > 0;
          assert i > 0 by { assert s[0..] == s; }
          assert s[1..][i - 1..] == s[i..];
        }
        assert Unfold(s)[1..] == Unfold(s[1..]);
      }
    }
  }

  lemma {:induction false} EscapeFirst(s: string)
    requires s != ""
    ensures EscapeQuotes(s) != "" && EscapeQuotes(s)[0] == s[0]
  {
  }

  lemma EscapeConcat(c: char, rest: string)
    ensures EscapeQuotes([c] + rest) == (if c == '\'' then "'\\''" else [c]) + EscapeQuotes(rest)
  {
    assert ([c] + rest)[1..] == rest;
  }

  /** Escaping and unfolding commute: escaping neither makes nor breaks a continuation. */
  lemma {:induction false} UnfoldEscaped(s: string)
    ensures Unfold(EscapeQuotes(s)) == EscapeQuotes(Unfold(s))
    decreases |s|
  {
    if s != "" {
      var n := ContinuationLength(s);
      if n > 0 {
        UnfoldEscaped(s[n..]);
        EscapeOfContinuation(s);
        EscapeConcat(' ', Unfold(s[n..]));
      } else {
        UnfoldEscaped(s[1..]);
        EscapeConcat(s[0], Unfold(s[1..]));
        var rest := EscapeQuotes(s[1..]);
        if s[0] == '\'' {
          UnfoldAppend("'\\''", rest);
          UnfoldQuoteMark();
        } else {
          EscapeKeepsHead(s);
          var whole := EscapeQuotes(s);
          assert whole == [s[0]] + rest && whole[1..] == rest;
        }
      }
    }
  }

  lemma UnfoldQuoteMark()
    ensures Unfold("'\\''") == "'\\''"
  {
    var s := "'\\''";
    assert s[1..] == "\\''" && s[1..][1..] == "''" && s[1..][1..][1..] == "'";
    assert s[1..][1..][1..][1..] == "";
  }

  lemma EscapeOfContinuation(s: string)
    requires ContinuationLength(s) > 0
    ensures ContinuationLength(EscapeQuotes(s)) == ContinuationLength(s)
    ensures EscapeQuotes(s)[ContinuationLength(s)..] == EscapeQuotes(s[ContinuationLength(s)..])
  {
    var n := ContinuationLength(s);
    assert EscapeQuotes(s) == [s[0]] + EscapeQuotes(s[1..]);
    assert EscapeQuotes(s[1..]) == [s[1]] + EscapeQuotes(s[1..][1..]);
    assert s[1..][1..] == s[2..];
    if n == 3 {
      assert EscapeQuotes(s[2..]) == [s[2]] + EscapeQuotes(s[2..][1..]);
      assert s[2..][1..] == s[3..];
    }
  }

  lemma EscapeKeepsHead(s: string)
    requires s != "" && s[0] != '\'' && ContinuationLength(s) == 0
    ensures ContinuationLength(EscapeQuotes(s)) == 0
  {
    if |s| >= 2 {
      EscapeFirst(s[1..]);
      assert EscapeQuotes(s)[1] == s[1];
      if |s| >= 3 && s[1] == '\r' {
        assert s[1..][1..] == s[2..];
        EscapeFirst(s[2..]);
        assert EscapeQuotes(s[1..]) == [s[1]] + EscapeQuotes(s[2..]);
      }
    }
  }

  /** Inside single quotes the escaped text adds exactly the original characters. */
  lemma {:induction false} LexEscaped(l: Lexer, s: string)
    requires l.quote == Some('\'') && !l.escaped
    ensures LexAll(l, EscapeQuotes(s)) == l.(current := l.current + s)
    decreases |s|
  {
    if s == "" {
      assert l.current + s == l.current;
    } else {
      var next := l.(current := l.current + [s[0]]);
      var rest := EscapeQuotes(s[1..]);
      if s[0] == '\'' {
        LexAppend(l, "'\\''", rest);
        LexQuoteMark(l);
      } else {
        LexAppend(l, [s[0]], rest);
        assert LexAll(l, [s[0]]) == next;
      }
      LexEscaped(next, s[1..]);
      assert l.current + [s[0]] + s[1..] == l.current + s;
    }
  }

  lemma LexQuoteMark(l: Lexer)
    requires l.quote == Some('\'') && !l.escaped
    ensures LexAll(l, "'\\''") == l.(current := l.current + "'")
  {
    var s := "'\\''";
    var l1 := l.(quote := None);
    var l2 := l1.(escaped := true);
    var l3 := l1.(current := l.current + "'");
    assert s[1..] == "\\''" && s[1..][1..] == "''" && s[1..][1..][1..] == "'";
    assert LexChar(l, s[0]) == l1 && LexChar(l1, '\\') == l2 && LexChar(l2, '\'') == l3;
    assert LexChar(l3, '\'') == l.(current := l.current + "'");
    assert LexAll(l3, "'") == LexChar(l3, '\'');
    assert LexAll(l2, "''") == LexAll(l3, "'");
    assert LexAll(l1, "\\''") == LexAll(l2, "''");
  }

  lemma {:induction false} LexPlain(l: Lexer, s: string)
    requires AllPlain(s) && l.quote.None? && !l.escaped
    ensures LexAll(l, s) == l.(current := l.current + s)
    decreases |s|
  {
    if s == "" {
      assert l.current + s == l.current;
    } else {
      assert s[0] in s;
      var next := l.(current := l.current + [s[0]]);
      assert LexChar(l, s[0]) == next;
      assert AllPlain(s[1..]);
      LexPlain(next, s[1..]);
      assert l.current + [s[0]] + s[1..] == l.current + s;
    }
  }

  lemma PlainIsFixed(s: string)
    requires AllPlain(s)
    ensures Unfold(s) == s
  {
    UnfoldFixed(s);
    forall i | 0 <= i < |s| ensures ContinuationLength(s[i..]) == 0 {
      assert s[i] in s && IsPlain(s[i]);
    }
  }

  /** One printed word is lexed, wherever it stands outside quotes, as its unfolded value. */
  lemma LexQuoted(l: Lexer, value: string)
    requires l.quote.None? && !l.escaped
    ensures LexAll(l, Unfold(ShellQuote(value))) == l.(current := l.current + Unfold(value))
  {
    if value != "" && AllPlain(value) {
      PlainIsFixed(value);
      LexPlain(l, value);
    } else {
      var body := EscapeQuotes(Unfold(value));
      UnfoldQuoted(value);
      var inside := l.(quote := Some('\''));
      LexAppend(l, "'" + body, "'");
      LexAppend(l, "'", body);
      assert LexAll(l, "'") == inside;
      LexEscaped(inside, Unfold(value));
      var full := inside.(current := l.current + Unfold(value));
      assert LexAll(full, "'") == full.(quote := None);
    }
  }

  lemma UnfoldQuoted(value: string)
    requires value == "" || !AllPlain(value)
    ensures Unfold(ShellQuote(value)) == "'" + EscapeQuotes(Unfold(value)) + "'"
  {
    var escaped := EscapeQuotes(value);
    UnfoldAppend("'" + escaped, "'");
    UnfoldAppend("'", escaped);
    UnfoldEscaped(value);
    assert Unfold("'") == "'";
  }

  lemma QuoteEnds(value: string)
    ensures var q := ShellQuote(value); q != "" && q[0] != '\n' && q[0] != '\r'
    ensures var q := ShellQuote(value); q[|q| - 1] != '\\' && q[|q| - 1] != '\r'
  {
    var q := ShellQuote(value);
    if value != "" && AllPlain(value) {
      assert q[0] in value && q[|q| - 1] in value;
    }
  }

  lemma UnfoldWordAndSpace(word: string, tail: string)
    requires word != "" && word[|word| - 1] != '\\' && word[|word| - 1] != '\r'
    ensures Unfold(word + " " + tail) == (Unfold(word) + " ") + Unfold(tail)
  {
    UnfoldAppend(word + " ", tail);
    UnfoldAppend(word, " ");
    assert Unfold(" ") == " ";
  }

  /** Outside quotes a space closes the current word, or nothing when it is empty. */
  lemma LexClose(l: Lexer, word: string, tail: string, closed: Lexer)
    requires closed == LexChar(LexAll(l, word), ' ')
    ensures LexAll(l, (word + " ") + tail) == LexAll(closed, tail)
  {
    LexAppend(l, word + " ", tail);
    LexAppend(l, word, " ");
    assert LexAll(LexAll(l, word), " ") == closed;
  }

  /** A printed word followed by a space closes exactly that word, or nothing when it is empty. */
  lemma LexWordAndSpace(l: Lexer, value: string, tail: string)
    requires l.quote.None? && !l.escaped && l.current == ""
    ensures LexAll(l, Unfold(ShellQuote(value) + " " + tail))
         == LexAll(l.(tokens := l.tokens + Survivors([value])), Unfold(tail))
  {
    QuoteEnds(value);
    UnfoldWordAndSpace(ShellQuote(value), tail);
    LexQuoted(l, value);
    UnfoldFixed(value);
    assert l.current + Unfold(value) == Unfold(value);
    assert Survivors([value][1..]) == [];
    LexClose(l, Unfold(ShellQuote(value)), Unfold(tail), l.(tokens := l.tokens + Survivors([value])));
  }

  function PrintedLine(args: seq<string>): string {
    Join(QuoteAll(args), " ")
  }

  lemma PrintedHead(args: seq<string>)
    ensures |args| == 1 ==> PrintedLine(args) == ShellQuote(args[0])
    ensures |args| >= 2 ==> PrintedLine(args) == ShellQuote(args[0]) + " " + PrintedLine(args[1..])
  {
    if |args| >= 2 {
      assert QuoteAll(args)[1..] == QuoteAll(args[1..]);
    }
  }

  /** The lexer stands outside quotes and escapes, having read exactly `words`. */
  predicate HasRead(l: Lexer, words: seq<string>) {
    l.quote.None? && !l.escaped && (if l.current != "" then l.tokens + [l.current] else l.tokens) == words
  }

  lemma LexLastWord(l: Lexer, value: string)
    requires l.quote.None? && !l.escaped && l.current == ""
    ensures HasRead(LexAll(l, Unfold(ShellQuote(value))), l.tokens + Survivors([value]))
  {
    LexQuoted(l, value);
    UnfoldFixed(value);
    SurvivorsOfWord(value);
    assert l.current + Unfold(value) == Unfold(value);
    assert l.tokens + [] == l.tokens;
  }

  lemma SurvivorsOfWord(value: string)
    ensures Survivors([value]) == if value == "" then [] else [Unfold(value)]
  {
    assert Survivors([value][1..]) == [];
  }

  /** Lexing the rest of a printed line leaves no quote open, no escape pending, and the surviving words. */
  lemma {:induction false} LexPrinted(l: Lexer, args: seq<string>)
    requires l.quote.None? && !l.escaped && l.current == ""
    ensures HasRead(LexAll(l, Unfold(PrintedLine(args))), l.tokens + Survivors(args))
    decreases |args|
  {
    PrintedHead(args);
    if |args| == 0 {
      assert l.tokens + [] == l.tokens;
    } else if |args| == 1 {
      LexLastWord(l, args[0]);
      assert args == [args[0]];
    } else {
      LexWordAndSpace(l, args[0], PrintedLine(args[1..]));
      SurvivorsHead(l.tokens, args);
      LexPrinted(l.(tokens := l.tokens + Survivors([args[0]])), args[1..]);
    }
  }

  lemma {:induction false} SurvivorsHead(before: seq<string>, args: seq<string>)
    requires args != []
    ensures before + Survivors([args[0]]) + Survivors(args[1..]) == before + Survivors(args)
  {
    var first, rest := Survivors([args[0]]), Survivors(args[1..]);
    assert Survivors([args[0]][1..]) == [];
    assert first == if args[0] == "" then [] else [Unfold(args[0])];
    assert Survivors(args) == first + rest;
    assert before + first + rest == before + (first + rest);
  }

  /** For every list of words: the printed line always lexes, and gives the unfolded non-empty words in order. */
  lemma PrintedLineLexes(args: seq<string>)
    ensures Tokens(PrintedLine(args)) == Success(Survivors(args))
  {
    LexPrinted(FRESH, args);
    assert [] + Survivors(args) == Survivors(args);
  }

  predicate Printable(s: string) {
    s != "" && !HasContinuation(s)
  }

  lemma {:induction false} SurvivorsExact(args: seq<string>)
    ensures |Survivors(args)| <= |args|
    ensures Survivors(args) == args <==> forall s | s in args :: Printable(s)
  {
    if args != [] {
      SurvivorsExact(args[1..]);
      UnfoldFixed(args[0]);
      var tail := Survivors(args[1..]);
      assert args == [args[0]] + args[1..];
      assert (forall s | s in args :: Printable(s))
          <==> Printable(args[0]) && forall s | s in args[1..] :: Printable(s);
      if args[0] != "" {
        var all := Survivors(args);
        assert all[0] == Unfold(args[0]) && all[1..] == tail;
      }
    }
  }

  /** Quoting round trip, with the exact condition. */
  lemma QuotingRoundTrip(args: seq<string>)
    ensures Tokens(PrintedLine(args)) == Success(args) <==> forall s | s in args :: Printable(s)
  {
    PrintedLineLexes(args);
    SurvivorsExact(args);
  }
}
