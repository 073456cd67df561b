/** Command lines as people write them: words in double quotes, with backslashes or as the preview prints them, parted
    by spaces and line continuations. */
module ShellWords {
  import opened Wrappers
  import opened ShellText

  /** A backslash before each double quote and each backslash. */
  function EscapeDouble(s: string): string {
    if s == "" then "" else (if s[0] == '"' || s[0] == '\\' then ['\\', s[0]] else [s[0]]) + EscapeDouble(s[1..])
  }

  function DoubleQuote(value: string): string {
    "\"" + EscapeDouble(value) + "\""
  }

  /** A backslash before each character that is not plain. */
  function EscapeAll(s: string): string {
    if s == "" then "" else (if IsPlain(s[0]) then [s[0]] else ['\\', s[0]]) + EscapeAll(s[1..])
  }

  datatype Style = Previewed | Doubled | Escaped

  function Spelled(style: Style, value: string): string {
    match style
    case Previewed => ShellQuote(value)
    case Doubled => DoubleQuote(value)
    case Escaped => EscapeAll(value)
  }

  /** A word: plain text such as `--exclude=`, a value in some style, and after it a space and more blanks, each a space
      or a line continuation. */
  datatype Word = Word(prefix: string, style: Style, value: string, blanks: seq<bool>)

  function Text(word: Word): string {
    word.prefix + Spelled(word.style, word.value)
  }

  function Meaning(word: Word): string {
    word.prefix + word.value
  }

  function Meanings(words: seq<Word>): seq<string> {
    seq(|words|, i requires 0 <= i < |words| => Meaning(words[i]))
  }

  function Blanks(blanks: seq<bool>): string {
    if blanks == [] then "" else (if blanks[0] then "\\\n" else " ") + Blanks(blanks[1..])
  }

  function Line(words: seq<Word>): string {
    if |words| == 0 then ""
    else if |words| == 1 then Text(words[0])
    else Text(words[0]) + " " + (Blanks(words[0].blanks) + Line(words[1..]))
  }

  /** A backslash before a line feed would continue the line instead. */
  predicate Writable(word: Word) {
    AllPlain(word.prefix) && (word.style == Escaped ==> '\n' !in word.value)
  }

  predicate AllWritable(words: seq<Word>) {
    forall i | 0 <= i < |words| :: Writable(words[i])
  }

  // ---- one spelled value ----

  predicate Outside(l: Lexer) {
    l.quote.None? && !l.escaped
  }

  predicate Special(c: char) {
    c == '"' || c == '\\'
  }

  lemma EscapeDoubleHead(s: string)
    requires s != ""
    ensures EscapeDouble(s) != "" && EscapeDouble(s)[0] == if s[0] == '"' then '\\' else s[0]
    ensures !Special(s[0]) ==> EscapeDouble(s)[1..] == EscapeDouble(s[1..])
  {
  }

  lemma UnfoldChar(c: char, rest: string)
    requires ContinuationLength([c] + rest) == 0
    ensures Unfold([c] + rest) == [c] + Unfold(rest)
  {
    assert ([c] + rest)[1..] == rest;
  }

  /** What follows an escaped backslash does not end a continuation that was none. */
  lemma {:induction false} NoNewContinuation(s: string)
    requires s != "" && s[0] == '\\' && ContinuationLength(s) == 0
    ensures ContinuationLength([s[0]] + EscapeDouble(s[1..])) == 0
  {
    var rest := EscapeDouble(s[1..]);
    if |s| >= 2 {
      EscapeDoubleHead(s[1..]);
      if s[1] == '\r' && |s| >= 3 {
        assert s[1..][1..] == s[2..];
        EscapeDoubleHead(s[2..]);
        assert rest[1..] == EscapeDouble(s[2..]);
      }
    }
  }

  lemma {:induction false} UnfoldSpecial(s: string)
    requires s != "" && Special(s[0]) && ContinuationLength(s) == 0
    ensures Unfold(EscapeDouble(s)) == ['\\', s[0]] + Unfold(EscapeDouble(s[1..]))
  {
    var rest := EscapeDouble(s[1..]);
    assert EscapeDouble(s) == ['\\'] + ([s[0]] + rest);
    if s[0] == '\\' { NoNewContinuation(s); }
    UnfoldPair(s[0], rest);
  }

  lemma UnfoldPair(c: char, rest: string)
    requires c != '\n' && c != '\r' && ContinuationLength([c] + rest) == 0
    ensures Unfold(['\\'] + ([c] + rest)) == ['\\', c] + Unfold(rest)
  {
    UnfoldChar('\\', [c] + rest);
    UnfoldChar(c, rest);
    assert ['\\'] + ([c] + Unfold(rest)) == ['\\', c] + Unfold(rest);
  }

  lemma {:induction false} UnfoldContinued(s: string)
    requires ContinuationLength(s) > 0
    ensures Unfold(EscapeDouble(s)) == "\\ " + Unfold(EscapeDouble(s[ContinuationLength(s)..]))
  {
    var n := ContinuationLength(s);
    var tail, from := EscapeDouble(s[n..]), ['\\'] + EscapeDouble(s[1..]);
    EscapedContinuation(s);
    assert EscapeDouble(s) == ['\\'] + from;
    UnfoldChar('\\', from);
    UnfoldStep(from);
    assert "\\ " + Unfold(tail) == ['\\'] + (" " + Unfold(tail));
  }

  /** A continuation stays one after its escaped backslash. */
  lemma {:induction false} EscapedContinuation(s: string)
    requires ContinuationLength(s) > 0
    ensures var n, from := ContinuationLength(s), ['\\'] + EscapeDouble(s[1..]);
            ContinuationLength(from) == n && from[n..] == EscapeDouble(s[n..])
  {
    var n, rest := ContinuationLength(s), EscapeDouble(s[1..]);
    EscapeDoubleHead(s[1..]);
    assert s[1..][1..] == s[2..] && rest[1..] == EscapeDouble(s[2..]);
    if n == 3 {
      EscapeDoubleHead(s[2..]);
      assert s[2..][1..] == s[3..] && rest[2..] == EscapeDouble(s[3..]);
    }
    assert (['\\'] + rest)[n..] == rest[n - 1..];
  }

  lemma LexPair(l: Lexer, c: char, rest: string)
    requires !l.escaped && l.quote != Some('\'')
    ensures LexAll(l, ['\\', c] + rest) == LexAll(l.(current := l.current + [c]), rest)
  {
    var s := ['\\', c] + rest;
    assert s[1..] == [c] + rest && s[1..][1..] == rest && s[1..][0] == c;
  }

  lemma LexOne(l: Lexer, c: char, rest: string)
    ensures LexAll(l, [c] + rest) == LexAll(LexChar(l, c), rest)
  {
    assert ([c] + rest)[1..] == rest;
  }

  /** One character of the text, or one continuation, inside double quotes. */
  lemma {:induction false} DoubledStep(l: Lexer, s: string)
    requires l.quote == Some('"') && !l.escaped && s != ""
    ensures LexAll(l, Unfold(EscapeDouble(s)))
         == LexAll(l.(current := l.current + UnfoldHead(s)), Unfold(EscapeDouble(UnfoldRest(s))))
  {
    var after := Unfold(EscapeDouble(UnfoldRest(s)));
    if ContinuationLength(s) > 0 {
      UnfoldContinued(s);
      LexPair(l, ' ', after);
      assert "\\ " == ['\\', ' '] && [' '] == " ";
    } else if Special(s[0]) {
      UnfoldSpecial(s);
      LexPair(l, s[0], after);
    } else {
      DoubledPlain(l, s);
    }
  }

  lemma {:induction false} DoubledPlain(l: Lexer, s: string)
    requires l.quote == Some('"') && !l.escaped && s != "" && !Special(s[0])
    ensures LexAll(l, Unfold(EscapeDouble(s)))
         == LexAll(l.(current := l.current + [s[0]]), Unfold(EscapeDouble(s[1..])))
  {
    var rest := EscapeDouble(s[1..]);
    assert EscapeDouble(s) == [s[0]] + rest;
    UnfoldChar(s[0], rest);
    LexOne(l, s[0], Unfold(rest));
  }

  /** Inside double quotes the escaped text adds the unfolded characters. */
  lemma {:induction false} LexDoubled(l: Lexer, s: string)
    requires l.quote == Some('"') && !l.escaped
    ensures LexAll(l, Unfold(EscapeDouble(s))) == l.(current := l.current + Unfold(s))
    decreases |s|
  {
    if s == "" {
      assert l.current + "" == l.current;
    } else {
      var head, rest := UnfoldHead(s), UnfoldRest(s);
      DoubledStep(l, s);
      LexDoubled(l.(current := l.current + head), rest);
      UnfoldStep(s);
      ConcatAssociates(l.current, head, Unfold(rest));
    }
  }

  lemma UnfoldDoubleQuote(value: string)
    ensures Unfold(DoubleQuote(value)) == "\"" + (Unfold(EscapeDouble(value)) + "\"")
    ensures Unfold("\"" + EscapeDouble(value)) == "\"" + Unfold(EscapeDouble(value))
  {
    var escaped := EscapeDouble(value);
    UnfoldAppend(escaped, "\"");
    UnfoldChar('"', escaped + "\"");
    UnfoldChar('"', escaped);
    UnfoldChar('"', "");
    assert ['"'] + "" == "\"";
    assert DoubleQuote(value) == ['"'] + (escaped + "\"");
  }

  lemma LexDoubleQuote(l: Lexer, value: string)
    requires Outside(l)
    ensures LexAll(l, Unfold(DoubleQuote(value))) == l.(current := l.current + Unfold(value))
  {
    var body := Unfold(EscapeDouble(value));
    var inside := l.(quote := Some('"'));
    UnfoldDoubleQuote(value);
    LexOne(l, '"', body + "\"");
    LexAppend(inside, body, "\"");
    LexDoubled(inside, value);
    var full := inside.(current := l.current + Unfold(value));
    LexOne(full, '"', "");
    assert ['"'] + "" == "\"";
  }

  lemma {:induction false} EscapeAllFixed(s: string)
    requires '\n' !in s
    ensures '\n' !in EscapeAll(s)
  {
    if s != "" {
      assert s[0] in s;
      EscapeAllFixed(s[1..]);
    }
  }

  lemma NoLineFeed(s: string)
    requires '\n' !in s
    ensures !HasContinuation(s) && Unfold(s) == s
  {
    forall i | 0 <= i < |s| ensures ContinuationLength(s[i..]) == 0 {
      assert forall k | 0 <= k < |s[i..]| :: s[i..][k] in s;
    }
    UnfoldFixed(s);
  }

  /** Outside quotes a backslash keeps the next character in the word, whatever it is. */
  lemma {:induction false} LexEscapedAll(l: Lexer, s: string)
    requires Outside(l)
    ensures LexAll(l, EscapeAll(s)) == l.(current := l.current + s)
    decreases |s|
  {
    if s == "" {
      assert l.current + "" == l.current;
    } else {
      EscapedStep(l, s);
      LexEscapedAll(l.(current := l.current + [s[0]]), s[1..]);
      ConcatAssociates(l.current, [s[0]], s[1..]);
      assert [s[0]] + s[1..] == s;
    }
  }

  lemma {:induction false} EscapedStep(l: Lexer, s: string)
    requires Outside(l) && s != ""
    ensures LexAll(l, EscapeAll(s)) == LexAll(l.(current := l.current + [s[0]]), EscapeAll(s[1..]))
  {
    if IsPlain(s[0]) {
      LexOne(l, s[0], EscapeAll(s[1..]));
    } else {
      LexPair(l, s[0], EscapeAll(s[1..]));
    }
  }

  lemma LexSpelled(l: Lexer, style: Style, value: string)
    requires Outside(l) && (style == Escaped ==> '\n' !in value)
    ensures LexAll(l, Unfold(Spelled(style, value))) == l.(current := l.current + Unfold(value))
  {
    match style {
      case Previewed => LexQuoted(l, value);
      case Doubled => LexDoubleQuote(l, value);
      case Escaped =>
        EscapeAllFixed(value);
        NoLineFeed(value);
        NoLineFeed(EscapeAll(value));
        LexEscapedAll(l, value);
    }
  }

  /** Plain text before anything unfolds by itself. */
  lemma UnfoldAfterPlain(prefix: string, tail: string)
    requires AllPlain(prefix)
    ensures Unfold(prefix + tail) == prefix + Unfold(tail)
  {
    if prefix != "" { assert prefix[|prefix| - 1] in prefix; }
    UnfoldAppend(prefix, tail);
    PlainIsFixed(prefix);
  }

  lemma {:induction false} LexAfterPlain(l: Lexer, prefix: string, body: string, meaning: string)
    requires Outside(l) && AllPlain(prefix)
    requires var next := l.(current := l.current + prefix);
             LexAll(next, body) == next.(current := next.current + meaning)
    ensures LexAll(l, prefix + body) == l.(current := l.current + (prefix + meaning))
  {
    LexAppend(l, prefix, body);
    LexPlain(l, prefix);
    ConcatAssociates(l.current, prefix, meaning);
  }

  lemma {:induction false} LexWord(l: Lexer, word: Word)
    requires Outside(l) && Writable(word)
    ensures LexAll(l, Unfold(Text(word))) == l.(current := l.current + Unfold(Meaning(word)))
  {
    var spelled := Spelled(word.style, word.value);
    UnfoldAfterPlain(word.prefix, spelled);
    UnfoldAfterPlain(word.prefix, word.value);
    LexSpelled(l.(current := l.current + word.prefix), word.style, word.value);
    LexAfterPlain(l, word.prefix, Unfold(spelled), Unfold(word.value));
  }

  // ---- words and blanks ----

  lemma {:induction false} UnfoldBlank(blanks: seq<bool>, tail: string)
    requires blanks != []
    ensures Unfold(Blanks(blanks) + tail) == [' '] + Unfold(Blanks(blanks[1..]) + tail)
  {
    var rest := Blanks(blanks[1..]) + tail;
    if blanks[0] {
      var all := "\\\n" + rest;
      assert Blanks(blanks) + tail == all && all[2..] == rest;
      UnfoldStep(all);
    } else {
      assert Blanks(blanks) + tail == [' '] + rest;
      UnfoldChar(' ', rest);
    }
  }

  lemma {:induction false} LexBlanks(l: Lexer, blanks: seq<bool>, tail: string)
    requires Outside(l) && l.current == ""
    ensures LexAll(l, Unfold(Blanks(blanks) + tail)) == LexAll(l, Unfold(tail))
    decreases |blanks|
  {
    if blanks == [] {
      assert "" + tail == tail;
    } else {
      UnfoldBlank(blanks, tail);
      LexOne(l, ' ', Unfold(Blanks(blanks[1..]) + tail));
      LexBlanks(l, blanks[1..], tail);
    }
  }

  lemma UnfoldAtSpace(text: string, tail: string)
    ensures Unfold(text + " " + tail) == (Unfold(text) + " ") + Unfold(tail)
  {
    UnfoldAppend(text + " ", tail);
    UnfoldAppend(text, " ");
    assert Unfold(" ") == " ";
  }

  lemma {:induction false} LexWordAndSpaceAs(l: Lexer, word: Word)
    requires Outside(l) && l.current == "" && Writable(word)
    ensures LexChar(LexAll(l, Unfold(Text(word))), ' ') == l.(tokens := l.tokens + Survivors([Meaning(word)]))
  {
    var meaning := Meaning(word);
    LexWord(l, word);
    UnfoldFixed(meaning);
    assert l.current + Unfold(meaning) == Unfold(meaning);
    SurvivorsOfWord(meaning);
    assert l.tokens + [] == l.tokens;
  }

  lemma {:induction false} LexWordAndBlanks(l: Lexer, word: Word, tail: string)
    requires Outside(l) && l.current == "" && Writable(word)
    ensures LexAll(l, Unfold(Text(word) + " " + (Blanks(word.blanks) + tail)))
         == LexAll(l.(tokens := l.tokens + Survivors([Meaning(word)])), Unfold(tail))
  {
    var text, rest := Text(word), Blanks(word.blanks) + tail;
    var next := l.(tokens := l.tokens + Survivors([Meaning(word)]));
    UnfoldAtSpace(text, rest);
    LexWordAndSpaceAs(l, word);
    LexClose(l, Unfold(text), Unfold(rest), next);
    LexBlanks(next, word.blanks, tail);
  }

  lemma LexLast(l: Lexer, word: Word)
    requires Outside(l) && l.current == "" && Writable(word)
    ensures HasRead(LexAll(l, Unfold(Text(word))), l.tokens + Survivors([Meaning(word)]))
  {
    LexWord(l, word);
    UnfoldFixed(Meaning(word));
    SurvivorsOfWord(Meaning(word));
    assert l.current + Unfold(Meaning(word)) == Unfold(Meaning(word));
    assert l.tokens + [] == l.tokens;
  }

  lemma MeaningsHead(words: seq<Word>)
    requires words != []
    ensures Meanings(words) != [] && Meanings(words)[0] == Meaning(words[0])
    ensures Meanings(words)[1..] == Meanings(words[1..])
  {
  }

  lemma {:induction false} LexLine(l: Lexer, words: seq<Word>)
    requires Outside(l) && l.current == "" && AllWritable(words)
    ensures HasRead(LexAll(l, Unfold(Line(words))), l.tokens + Survivors(Meanings(words)))
    decreases |words|
  {
    if |words| == 0 {
      assert l.tokens + [] == l.tokens;
    } else {
      MeaningsHead(words);
      SurvivorsHead(l.tokens, Meanings(words));
      if |words| == 1 {
        LexLast(l, words[0]);
        assert l.tokens + Survivors([Meaning(words[0])]) + [] == l.tokens + Survivors([Meaning(words[0])]);
      } else {
        LexWordAndBlanks(l, words[0], Line(words[1..]));
        LexLine(l.(tokens := l.tokens + Survivors([Meaning(words[0])])), words[1..]);
      }
    }
  }

  /** However its words are spelled and parted, a written line reads as the unfolded non-empty words in order. */
  lemma WrittenLineLexes(words: seq<Word>)
    requires AllWritable(words)
    ensures Tokens(Line(words)) == Success(Survivors(Meanings(words)))
  {
    LexLine(FRESH, words);
    assert [] + Survivors(Meanings(words)) == Survivors(Meanings(words));
  }

  /** It reads as the words themselves if and only if none is empty or holds a line continuation. */
  lemma WrittenRoundTrip(words: seq<Word>)
    requires AllWritable(words)
    ensures Tokens(Line(words)) == Success(Meanings(words))
            <==> forall i | 0 <= i < |words| :: Printable(Meaning(words[i]))
  {
    WrittenLineLexes(words);
    SurvivorsExact(Meanings(words));
    assert forall i | 0 <= i < |words| :: Meanings(words)[i] == Meaning(words[i]);
  }

  function DoubleQuoteAll(args: seq<string>): seq<string> {
    seq(|args|, i requires 0 <= i < |args| => DoubleQuote(args[i]))
  }

  function AsWords(args: seq<string>): seq<Word> {
    seq(|args|, i requires 0 <= i < |args| => Word("", Doubled, args[i], []))
  }

  lemma {:induction false} DoubledLine(args: seq<string>)
    ensures Line(AsWords(args)) == Join(DoubleQuoteAll(args), " ") && Meanings(AsWords(args)) == args
    decreases |args|
  {
    if args != [] {
      DoubledLine(args[1..]);
      assert AsWords(args)[1..] == AsWords(args[1..]) && DoubleQuoteAll(args)[1..] == DoubleQuoteAll(args[1..]);
      assert forall i | 0 <= i < |args| :: Meanings(AsWords(args))[i] == "" + args[i] == args[i];
      assert Text(AsWords(args)[0]) == DoubleQuote(args[0]);
      assert "" + Line(AsWords(args[1..])) == Line(AsWords(args[1..]));
    }
  }

  /** Double-quoted words read back under the condition for single-quoted ones. */
  lemma DoubleQuotingRoundTrip(args: seq<string>)
    ensures Tokens(Join(DoubleQuoteAll(args), " ")) == Success(args) <==> forall s | s in args :: Printable(s)
  {
    DoubledLine(args);
    WrittenLineLexes(AsWords(args));
    SurvivorsExact(args);
  }

  // ---- quotes and backslashes that are left open ----

  /** A quote that is not closed is an error, whatever words come before it and whatever its text holds. */
  lemma OpenQuoteFails(prefix: string, value: string)
    requires AllPlain(prefix)
    ensures Tokens(prefix + "\"" + EscapeDouble(value)) == Failure(UnclosedQuote)
    ensures Tokens(prefix + "'" + EscapeQuotes(value)) == Failure(UnclosedQuote)
  {
    OpenDouble(FRESH, prefix, value);
    OpenSingle(FRESH, prefix, value);
  }

  lemma OpenDouble(l: Lexer, prefix: string, value: string)
    requires Outside(l) && AllPlain(prefix)
    ensures LexAll(l, Unfold(prefix + "\"" + EscapeDouble(value))).quote == Some('"')
  {
    var body := Unfold(EscapeDouble(value));
    var before := l.(current := l.current + prefix);
    var inside := before.(quote := Some('"'));
    assert prefix + "\"" + EscapeDouble(value) == prefix + ("\"" + EscapeDouble(value));
    UnfoldAfterPlain(prefix, "\"" + EscapeDouble(value));
    UnfoldDoubleQuote(value);
    LexAppend(l, prefix, "\"" + body);
    LexPlain(l, prefix);
    LexOne(before, '"', body);
    LexDoubled(inside, value);
  }

  lemma OpenSingle(l: Lexer, prefix: string, value: string)
    requires Outside(l) && AllPlain(prefix)
    ensures LexAll(l, Unfold(prefix + "'" + EscapeQuotes(value))).quote == Some('\'')
  {
    var body := EscapeQuotes(Unfold(value));
    var before := l.(current := l.current + prefix);
    var inside := before.(quote := Some('\''));
    assert prefix + "'" + EscapeQuotes(value) == prefix + ("'" + EscapeQuotes(value));
    UnfoldAfterPlain(prefix, "'" + EscapeQuotes(value));
    UnfoldChar('\'', EscapeQuotes(value));
    UnfoldEscaped(value);
    LexAppend(l, prefix, "'" + body);
    LexPlain(l, prefix);
    LexOne(before, '\'', body);
    LexEscaped(inside, Unfold(value));
  }

  /** The same after any written words. */
  lemma {:induction false} OpenQuoteAfterWords(l: Lexer, words: seq<Word>, prefix: string, value: string)
    requires Outside(l) && l.current == "" && AllWritable(words) && AllPlain(prefix)
    ensures LexAll(l, Unfold(Before(words) + (prefix + "\"" + EscapeDouble(value)))).quote == Some('"')
    ensures LexAll(l, Unfold(Before(words) + (prefix + "'" + EscapeQuotes(value)))).quote == Some('\'')
    decreases |words|
  {
    var double, single := prefix + "\"" + EscapeDouble(value), prefix + "'" + EscapeQuotes(value);
    if words == [] {
      assert "" + double == double && "" + single == single;
      OpenDouble(l, prefix, value);
      OpenSingle(l, prefix, value);
    } else {
      BeforeHead(words, double);
      BeforeHead(words, single);
      LexWordAndBlanks(l, words[0], Before(words[1..]) + double);
      LexWordAndBlanks(l, words[0], Before(words[1..]) + single);
      OpenQuoteAfterWords(l.(tokens := l.tokens + Survivors([Meaning(words[0])])), words[1..], prefix, value);
    }
  }

  /** Words with the blanks after each. */
  function Before(words: seq<Word>): string {
    if words == [] then "" else Text(words[0]) + " " + (Blanks(words[0].blanks) + Before(words[1..]))
  }

  lemma BeforeHead(words: seq<Word>, tail: string)
    requires words != []
    ensures Before(words) + tail
         == Text(words[0]) + " " + (Blanks(words[0].blanks) + (Before(words[1..]) + tail))
  {
    assert Before(words) == Text(words[0]) + " " + (Blanks(words[0].blanks) + Before(words[1..]));
  }

  lemma OpenQuoteFailsAfter(words: seq<Word>, prefix: string, value: string)
    requires AllWritable(words) && AllPlain(prefix)
    ensures Tokens(Before(words) + (prefix + "\"" + EscapeDouble(value))) == Failure(UnclosedQuote)
    ensures Tokens(Before(words) + (prefix + "'" + EscapeQuotes(value))) == Failure(UnclosedQuote)
  {
    OpenQuoteAfterWords(FRESH, words, prefix, value);
  }

  /** A backslash at the very end stays. */
  lemma {:induction false} TrailingBackslash(text: string)
    requires AllPlain(text)
    ensures Tokens(text + "\\") == Success([text + "\\"])
  {
    UnfoldAfterPlain(text, "\\");
    assert Unfold("\\") == "\\";
    LexAppend(FRESH, text, "\\");
    LexPlain(FRESH, text);
    var l := FRESH.(current := FRESH.current + text);
    LexOne(l, '\\', "");
    assert ['\\'] + "" == "\\" && FRESH.current + text == text && [] + [text + "\\"] == [text + "\\"];
  }
}
