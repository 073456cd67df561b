/** Reading a stored log back: the second cut, the marker of the first one, and the counts that come out. */
module LogReadBack {
  import opened Wrappers
  import opened OutputText
  import opened OutputBuffer

  const DEFAULT_LOG_OUTPUT_LIMIT: nat := 64 * 1024

  const MAX_LOG_OUTPUT_LIMIT: nat := 256 * 1024

  function ClampLogOutputLimit(limit: int): nat {
    if limit <= 0 then DEFAULT_LOG_OUTPUT_LIMIT
    else if limit > MAX_LOG_OUTPUT_LIMIT then MAX_LOG_OUTPUT_LIMIT
    else limit
  }

  /** One output column as the query selects it: its tail, its length, its newlines. */
  datatype FieldView = FieldView(value: string, bytes: nat, lines: nat)

  function Select(stored: string, limit: nat): FieldView {
    FieldView(LastN(stored, limit), |stored|, Newlines(stored))
  }

  datatype LogOutput = LogOutput(text: string, meta: OutputMeta)

  function NormalizeLogOutput(w: Words, field: FieldView): LogOutput {
    if field.value == "" && field.bytes == 0 && field.lines == 0 then LogOutput("", OutputMeta(false, 0, 0))
    else
      var marker := ParseOutputTruncationMarker(w, field.value);
      if marker.Some? then LogOutput(field.value, marker.value)
      else
        var bytes := if field.bytes == 0 then |field.value| else field.bytes;
        var lines := if field.lines == 0 then CountOutputLines(field.value) else field.lines;
        if |field.value| < bytes
            then LogOutput(AppendOutputTruncationMarker(w, field.value, bytes, lines), OutputMeta(true, bytes, lines))
        else LogOutput(field.value, OutputMeta(false, bytes, lines))
  }

  function ReadBack(w: Words, stored: string, limit: int): LogOutput {
    NormalizeLogOutput(w, Select(stored, ClampLogOutputLimit(limit)))
  }

  // ---- where a marker can be found ----

  /** What the proofs need of the marker's fixed texts. */
  predicate Sound(w: Words) {
    && w.opening != "" && w.middle != "" && '\n' !in w.opening && '\n' !in w.middle && !IsDigit(w.middle[0])
    && w.opening[0] !in w.opening[1..] && w.opening[0] !in w.middle && !IsDigit(w.opening[0])
  }

  lemma WordsAreSound()
    ensures Sound(WORDS)
  {
    var rest := "autorestic-" + "output-" + "truncated] " + "original_bytes=";
    RestLacks('[');
    RestLacks('\n');
    assert WORDS.opening == "[" + rest && WORDS.opening[1..] == rest;
    assert WORDS.middle[0] == ' ';
  }

  lemma RestLacks(c: char)
    requires c == '[' || c == '\n'
    ensures c !in "autorestic-" + "output-" + "truncated] " + "original_bytes="
  {
    NotInConcat(c, "autorestic-", "output-");
    NotInConcat(c, "autorestic-" + "output-", "truncated] ");
    NotInConcat(c, "autorestic-" + "output-" + "truncated] ", "original_bytes=");
  }

  lemma {:induction false} DigitRunStops(digits: string, rest: string)
    requires AllDigits(digits) && (rest == "" || !IsDigit(rest[0]))
    ensures DigitRun(digits + rest) == |digits|
  {
    if digits == "" {
      assert digits + rest == rest;
    } else {
      assert (digits + rest)[1..] == digits[1..] + rest;
      DigitRunStops(digits[1..], rest);
    }
  }

  lemma {:induction false} DigitRunLocal(a: string, rest: string)
    requires rest == "" || rest[0] == '\n'
    ensures DigitRun(a + rest) == DigitRun(a)
    decreases |a|
  {
    if a == "" {
      assert a + rest == rest;
    } else {
      assert (a + rest)[1..] == a[1..] + rest;
      DigitRunLocal(a[1..], rest);
    }
  }

  /** A text without newlines starts a line exactly when it starts the line and all that follows. */
  lemma PrefixLocal(part: string, line: string, rest: string)
    requires '\n' !in part && (rest == "" || rest[0] == '\n')
    ensures part <= line + rest <==> part <= line
    ensures part <= line ==> (line + rest)[|part|..] == line[|part|..] + rest
  {
    if |part| > |line| && rest != "" {
      assert (line + rest)[|line|] == '\n' && part[|line|] != '\n';
    }
  }

  lemma LinesLocal(line: string, rest: string)
    requires rest == "" || rest[0] == '\n'
    ensures MatchLines(line + rest) == MatchLines(line)
  {
    DigitRunLocal(line, rest);
    var k := DigitRun(line);
    assert (line + rest)[..k] == line[..k];
    assert k < |line| ==> (line + rest)[k] == line[k];
  }

  lemma NumbersLocal(w: Words, line: string, rest: string)
    requires Sound(w) && (rest == "" || rest[0] == '\n')
    ensures MatchNumbers(w, line + rest) == MatchNumbers(w, line)
  {
    var n := DigitRun(line);
    DigitRunLocal(line, rest);
    assert (line + rest)[..n] == line[..n] && (line + rest)[n..] == line[n..] + rest;
    PrefixLocal(w.middle, line[n..], rest);
    if w.middle <= line[n..] { LinesLocal(line[n..][|w.middle|..], rest); }
  }

  /** A match lies within one line. */
  lemma MatchLocal(w: Words, line: string, rest: string)
    requires Sound(w) && (rest == "" || rest[0] == '\n')
    ensures MatchHere(w, line + rest) == MatchHere(w, line)
  {
    PrefixLocal(w.opening, line, rest);
    if w.opening <= line { NumbersLocal(w, line[|w.opening|..], rest); }
  }

  lemma MatchInFirstLine(w: Words, text: string, rest: string)
    requires Sound(w) && Terminated(text)
    ensures MatchHere(w, text + rest) == MatchHere(w, text)
  {
    var k := LineEnd(text);
    var line, after := text[..k], text[k..];
    assert text == line + after && text + rest == line + (after + rest);
    MatchLocal(w, line, after);
    MatchLocal(w, line, after + rest);
  }

  /** In text that ends a line and text that follows it, the marker found is the first text's, or else the second's. */
  lemma {:induction false} FindAfter(w: Words, text: string, rest: string)
    requires Sound(w) && (text == "" || Terminated(text))
    ensures FindMarker(w, text + rest) == if FindMarker(w, text).Some? then FindMarker(w, text) else FindMarker(w, rest)
    decreases |text|
  {
    if text == "" {
      assert text + rest == rest;
    } else {
      MatchInFirstLine(w, text, rest);
      assert (text + rest)[1..] == text[1..] + rest;
      if MatchHere(w, text).None? { FindAfter(w, text[1..], rest); }
    }
  }

  lemma {:induction false} NoneInSuffix(w: Words, text: string, k: nat)
    requires FindMarker(w, text) == None && k <= |text|
    ensures FindMarker(w, text[k..]) == None
    decreases |text|
  {
    if k > 0 {
      NoneInSuffix(w, text[1..], k - 1);
      assert text[1..][k - 1..] == text[k..];
    } else {
      assert text[0..] == text;
    }
  }

  lemma {:induction false} NoneInTail(w: Words, text: string, n: nat)
    requires FindMarker(w, text) == None
    ensures FindMarker(w, LastN(text, n)) == None
  {
    var tail := LastN(text, n);
    assert tail == text || (|text| > n && tail == text[|text| - n..]);
    if tail != text { NoneInSuffix(w, text, |text| - n); }
  }

  lemma {:induction false} NoneWithoutOpening(w: Words, text: string)
    requires Sound(w) && w.opening[0] !in text
    ensures FindMarker(w, text) == None
  {
    if text != "" { NoneWithoutOpening(w, text[1..]); }
  }

  lemma NumbersFound(w: Words, bytes: string, lines: string)
    requires Sound(w) && AllDigits(bytes) && AllDigits(lines) && bytes != "" && lines != ""
    ensures MatchNumbers(w, bytes + (w.middle + (lines + "\n"))) == Some((bytes, lines))
  {
    var b := lines + "\n";
    var a := w.middle + b;
    DigitRunStops(lines, "\n");
    assert b[..|lines|] == lines;
    DigitRunStops(bytes, a);
    assert (bytes + a)[..|bytes|] == bytes && (bytes + a)[|bytes|..] == a;
    assert a[|w.middle|..] == b;
  }

  /** The marker that is printed is the marker that is found. */
  lemma MarkerIsFound(w: Words, bytes: nat, lines: nat)
    requires Sound(w)
    ensures FindMarker(w, Marker(w, bytes, lines)) == Some((Decimal(bytes), Decimal(lines)))
  {
    DecimalValue(bytes);
    DecimalValue(lines);
    NumbersFound(w, Decimal(bytes), Decimal(lines));
    var numbers := Decimal(bytes) + (w.middle + (Decimal(lines) + "\n"));
    assert Marker(w, bytes, lines)[|w.opening|..] == numbers;
  }

  /** Printing and parsing the marker after terminated text without one gives the numbers back. */
  lemma MarkerRoundTrip(w: Words, text: string, bytes: nat, lines: nat)
    requires Sound(w) && (text == "" || Terminated(text)) && FindMarker(w, text) == None
    requires bytes < 0x8000_0000_0000_0000 && lines < 0x8000_0000_0000_0000
    ensures ParseOutputTruncationMarker(w, AppendOutputTruncationMarker(w, text, bytes, lines))
            == Some(OutputMeta(true, bytes, lines))
  {
    AppendToTerminated(w, text, bytes, lines);
    FindAfter(w, text, Marker(w, bytes, lines));
    MarkerIsFound(w, bytes, lines);
    ParseDecimal(bytes);
    ParseDecimal(lines);
  }

  lemma ParseDecimal(n: nat)
    requires n < 0x8000_0000_0000_0000
    ensures AllDigits(Decimal(n)) && ParseInt(Decimal(n)) == Some(n)
  {
    DecimalValue(n);
  }

  lemma AppendToTerminated(w: Words, text: string, bytes: nat, lines: nat)
    requires text == "" || Terminated(text)
    ensures AppendOutputTruncationMarker(w, text, bytes, lines) == text + Marker(w, bytes, lines)
  {
  }

  lemma NotInConcat(c: char, a: string, b: string)
    requires c !in a && c !in b
    ensures c !in a + b
  {
  }

  /** The opening character stands only at the front of a marker. */
  lemma MarkerOpensOnce(w: Words, bytes: nat, lines: nat, k: nat)
    requires Sound(w) && 0 < k <= |Marker(w, bytes, lines)|
    ensures w.opening[0] !in Marker(w, bytes, lines)[k..]
  {
    DecimalValue(bytes);
    DecimalValue(lines);
    var c := w.opening[0];
    var numbers := Decimal(bytes) + (w.middle + (Decimal(lines) + "\n"));
    NotInConcat(c, Decimal(lines), "\n");
    NotInConcat(c, w.middle, Decimal(lines) + "\n");
    NotInConcat(c, Decimal(bytes), w.middle + (Decimal(lines) + "\n"));
    NotInConcat(c, w.opening[1..], numbers);
    assert Marker(w, bytes, lines)[1..] == w.opening[1..] + numbers;
    assert Marker(w, bytes, lines)[k..] == Marker(w, bytes, lines)[1..][k - 1..];
  }

  lemma MarkerNewlines(w: Words, bytes: nat, lines: nat)
    ensures Terminated(Marker(w, bytes, lines)) && Newlines(Marker(w, bytes, lines)) > 0
  {
    var m := Marker(w, bytes, lines);
    assert m[|m| - 1] == '\n';
    NewlinesBound(m);
  }

  // ---- what a reader is told ----

  lemma SuffixOfConcat(a: string, b: string, n: nat)
    ensures n >= |b| ==> LastN(a + b, n) == LastN(a, n - |b|) + b
    ensures n < |b| ==> LastN(a + b, n) == b[|b| - n..]
  {
  }

  /** What is stored of output over the limit. */
  function StoredCut(w: Words, whole: string): string {
    LastN(whole, STORED_OUTPUT_LIMIT) + Marker(w, |whole|, Newlines(whole))
  }

  /** Output that was stored whole. */
  lemma WholeReadBack(w: Words, whole: string, limit: int)
    requires (whole == "" || Terminated(whole)) && FindMarker(w, whole) == None
    ensures var n := ClampLogOutputLimit(limit);
            ReadBack(w, whole, limit).meta == OutputMeta(|whole| > n, |whole|, Newlines(whole))
            && ReadBack(w, whole, limit).text ==
               if |whole| > n then AppendOutputTruncationMarker(w, LastN(whole, n), |whole|, Newlines(whole)) else whole
  {
    NewlinesBound(whole);
    NoneInTail(w, whole, ClampLogOutputLimit(limit));
  }

  lemma TailEnds(whole: string, n: nat)
    requires whole == "" || Terminated(whole)
    ensures LastN(whole, n) == "" || Terminated(LastN(whole, n))
  {
  }

  /** Output that was stored cut: the marker survives the second cut when the limit leaves room for it. */
  lemma CutReadBack(w: Words, whole: string, limit: int)
    requires Sound(w) && Terminated(whole) && FindMarker(w, whole) == None && |whole| < 0x8000_0000_0000_0000
    requires ClampLogOutputLimit(limit) >= |Marker(w, |whole|, Newlines(whole))|
    ensures ReadBack(w, StoredCut(w, whole), limit)
            == LogOutput(LastN(StoredCut(w, whole), ClampLogOutputLimit(limit)),
                OutputMeta(true, |whole|, Newlines(whole)))
  {
    var n, marker := ClampLogOutputLimit(limit), Marker(w, |whole|, Newlines(whole));
    var tail := LastN(whole, STORED_OUTPUT_LIMIT);
    var kept := LastN(tail, n - |marker|);
    NoneInTail(w, whole, STORED_OUTPUT_LIMIT);
    NoneInTail(w, tail, n - |marker|);
    TailEnds(whole, STORED_OUTPUT_LIMIT);
    TailEnds(tail, n - |marker|);
    SuffixOfConcat(tail, marker, n);
    NewlinesBound(whole);
    MarkerRoundTrip(w, kept, |whole|, Newlines(whole));
    MarkerNewlines(w, |whole|, Newlines(whole));
  }

  /** With less room, the reader is told the size of what was stored. */
  lemma TooSmallReadBack(w: Words, whole: string, limit: int)
    requires Sound(w) && ClampLogOutputLimit(limit) < |Marker(w, |whole|, Newlines(whole))|
    ensures ReadBack(w, StoredCut(w, whole), limit).meta
            == OutputMeta(true, |StoredCut(w, whole)|, Newlines(StoredCut(w, whole)))
  {
    var n, marker := ClampLogOutputLimit(limit), Marker(w, |whole|, Newlines(whole));
    var tail := LastN(whole, STORED_OUTPUT_LIMIT);
    SuffixOfConcat(tail, marker, n);
    MarkerOpensOnce(w, |whole|, Newlines(whole), |marker| - n);
    NoneWithoutOpening(w, marker[|marker| - n..]);
    NewlinesAppend(tail, marker);
    MarkerNewlines(w, |whole|, Newlines(whole));
  }

  predicate TrueCounts(meta: OutputMeta, whole: string) {
    meta.originalBytes == |whole| && meta.originalLines == Newlines(whole)
  }

  lemma CutIsMarked(whole: string, lines: nat, limit: nat)
    requires limit > 0 && Terminated(whole) && |whole| > limit
    ensures Persisted(limit, whole, lines) == LastN(whole, limit) + Marker(WORDS, |whole|, lines)
  {
    TailEnds(whole, limit);
    AppendToTerminated(WORDS, LastN(whole, limit), |whole|, lines);
  }

  lemma StoredIs(whole: string)
    requires whole == "" || Terminated(whole)
    ensures Persisted(STORED_OUTPUT_LIMIT, whole, Newlines(whole)) == if |whole| > STORED_OUTPUT_LIMIT
            then StoredCut(WORDS, whole) else whole
  {
    if |whole| > STORED_OUTPUT_LIMIT { CutIsMarked(whole, Newlines(whole), STORED_OUTPUT_LIMIT); }
  }

  /** The true counts come back exactly when nothing was cut at storing, or the limit has room for the marker, or the
      stored text happens to have the size and the lines of the original; and what no stage cut comes back
      unchanged. */
  lemma ReadBackExactly(whole: string, limit: int)
    requires (whole == "" || Terminated(whole)) && FindMarker(WORDS, whole) == None && |whole| < 0x8000_0000_0000_0000
    ensures var stored := Persisted(STORED_OUTPUT_LIMIT, whole, Newlines(whole));
            var back := ReadBack(WORDS, stored, limit);
            && (TrueCounts(back.meta, whole) <==>
                  || |whole| <= STORED_OUTPUT_LIMIT
                  || ClampLogOutputLimit(limit) >= |Marker(WORDS, |whole|, Newlines(whole))|
                  || (|stored| == |whole| && Newlines(stored) == Newlines(whole)))
            && (back.meta.truncated <==> |whole| > STORED_OUTPUT_LIMIT || |whole| > ClampLogOutputLimit(limit))
            && (!back.meta.truncated ==> back.text == whole)
  {
    WordsAreSound();
    StoredIs(whole);
    if |whole| <= STORED_OUTPUT_LIMIT {
      WholeReadBack(WORDS, whole, limit);
    } else if ClampLogOutputLimit(limit) >= |Marker(WORDS, |whole|, Newlines(whole))| {
      CutReadBack(WORDS, whole, limit);
    } else {
      TooSmallReadBack(WORDS, whole, limit);
    }
  }

  // ---- output that holds markers of its own ----

  /** What a reader gets of the output itself. */
  function KeptText(w: Words, whole: string, limit: nat): string
    requires |whole| <= STORED_OUTPUT_LIMIT || limit >= |Marker(w, |whole|, Newlines(whole))|
  {
    if |whole| <= STORED_OUTPUT_LIMIT then LastN(whole, limit)
    else LastN(LastN(whole, STORED_OUTPUT_LIMIT), limit - |Marker(w, |whole|, Newlines(whole))|)
  }

  /** The first marker in the kept output is believed; without one the counts are true; one whose numbers do not fit
      64 bits leaves the size and lines of what was stored. */
  function Told(w: Words, kept: string, whole: OutputMeta, stored: OutputMeta): OutputMeta {
    var marker := ParseOutputTruncationMarker(w, kept);
    if FindMarker(w, kept).None? then whole else if marker.Some? then marker.value else stored
  }

  lemma AnyCutReadBack(w: Words, whole: string, limit: int)
    requires Sound(w) && Terminated(whole) && STORED_OUTPUT_LIMIT < |whole| < 0x8000_0000_0000_0000
    requires ClampLogOutputLimit(limit) >= |Marker(w, |whole|, Newlines(whole))|
    ensures var n, stored := ClampLogOutputLimit(limit), StoredCut(w, whole);
            ReadBack(w, stored, limit).meta
            == Told(w, KeptText(w, whole, n), OutputMeta(true, |whole|, Newlines(whole)),
                OutputMeta(|stored| > n, |stored|, Newlines(stored)))
  {
    var n, marker := ClampLogOutputLimit(limit), Marker(w, |whole|, Newlines(whole));
    var tail := LastN(whole, STORED_OUTPUT_LIMIT);
    TailEnds(whole, STORED_OUTPUT_LIMIT);
    TailEnds(tail, n - |marker|);
    SuffixOfConcat(tail, marker, n);
    NewlinesBound(whole);
    ParseAfter(w, KeptText(w, whole, n), |whole|, Newlines(whole));
    StoredSize(w, whole);
    NormalizeTells(w, Select(StoredCut(w, whole), n));
  }

  lemma NormalizeTells(w: Words, field: FieldView)
    requires field.bytes > 0 && field.lines > 0
    ensures var marker := ParseOutputTruncationMarker(w, field.value);
            NormalizeLogOutput(w, field).meta
            == if marker.Some? then marker.value else OutputMeta(|field.value| < field.bytes, field.bytes, field.lines)
  {
  }

  lemma ParseAfter(w: Words, kept: string, bytes: nat, lines: nat)
    requires Sound(w) && (kept == "" || Terminated(kept))
    requires bytes < 0x8000_0000_0000_0000 && lines < 0x8000_0000_0000_0000
    ensures ParseOutputTruncationMarker(w, kept + Marker(w, bytes, lines))
            == if FindMarker(w, kept).None? then Some(OutputMeta(true, bytes, lines))
                else ParseOutputTruncationMarker(w, kept)
  {
    FindAfter(w, kept, Marker(w, bytes, lines));
    MarkerIsFound(w, bytes, lines);
    ParseDecimal(bytes);
    ParseDecimal(lines);
  }

  lemma StoredSize(w: Words, whole: string)
    ensures |StoredCut(w, whole)| > 0 && Newlines(StoredCut(w, whole)) > 0
  {
    NewlinesAppend(LastN(whole, STORED_OUTPUT_LIMIT), Marker(w, |whole|, Newlines(whole)));
    MarkerNewlines(w, |whole|, Newlines(whole));
  }

  lemma AnyWholeReadBack(w: Words, whole: string, limit: int)
    requires (whole == "" || Terminated(whole)) && FindMarker(w, "") == None
    ensures var n := ClampLogOutputLimit(limit);
            var counts := OutputMeta(|whole| > n, |whole|, Newlines(whole));
            ReadBack(w, whole, limit).meta == Told(w, LastN(whole, n), counts, counts)
  {
    NewlinesBound(whole);
  }

  /** The marker of the first cut fits in what is read, or there was no first cut. */
  predicate MarkerFits(w: Words, whole: string, limit: nat) {
    |whole| <= STORED_OUTPUT_LIMIT || limit >= |Marker(w, |whole|, Newlines(whole))|
  }

  /** What a reader is told of any terminated output at any limit, cut or not, markers of its own included: what `Told`
      says when the marker fits, and the size and lines of what was stored when it does not. */
  lemma AnyOutputReadBack(whole: string, limit: int)
    requires (whole == "" || Terminated(whole)) && |whole| < 0x8000_0000_0000_0000
    ensures var n, stored := ClampLogOutputLimit(limit), Persisted(STORED_OUTPUT_LIMIT, whole, Newlines(whole));
            var cut := |whole| > STORED_OUTPUT_LIMIT || |whole| > n;
            var ofStored := OutputMeta(|stored| > n, |stored|, Newlines(stored));
            ReadBack(WORDS, stored, limit).meta ==
            if MarkerFits(WORDS, whole, n)
            then Told(WORDS, KeptText(WORDS, whole, n), OutputMeta(cut, |whole|, Newlines(whole)), ofStored)
            else ofStored
  {
    WordsAreSound();
    StoredIs(whole);
    if |whole| <= STORED_OUTPUT_LIMIT {
      NoneWithoutOpening(WORDS, "");
      AnyWholeReadBack(WORDS, whole, limit);
    } else if MarkerFits(WORDS, whole, ClampLogOutputLimit(limit)) {
      AnyCutReadBack(WORDS, whole, limit);
    } else {
      TooSmallReadBack(WORDS, whole, limit);
    }
  }

  /** Why the text must hold no marker of its own: one that it does hold is believed. */
  lemma MarkerInOutputIsBelieved(whole: string, limit: int)
    requires |whole| <= STORED_OUTPUT_LIMIT && |whole| <= ClampLogOutputLimit(limit)
    requires ParseOutputTruncationMarker(WORDS, whole).Some?
    ensures ReadBack(WORDS, Persisted(STORED_OUTPUT_LIMIT, whole, Newlines(whole)), limit)
            == LogOutput(whole, ParseOutputTruncationMarker(WORDS, whole).value)
  {
    if whole == "" { WordsAreSound(); }
  }

  // ---- the marker and the limits, said by their texts and numbers ----

  /** Numbers are written without leading zeros. */
  lemma {:induction false} DecimalLeads(n: nat)
    ensures n > 0 ==> Decimal(n)[0] != '0'
    ensures n == 0 ==> Decimal(n) == "0"
  {
    if n >= 10 {
      DecimalLeads(n / 10);
      DecimalValue(n / 10);
      assert Decimal(n)[0] == Decimal(n / 10)[0];
    }
  }

  lemma MarkerText(bytes: nat, lines: nat)
    ensures Marker(WORDS, bytes, lines)
         == "[" + "autorestic-" + "output-" + "truncated] " + "original_bytes=" + Decimal(bytes)
            + " original_lines=" + Decimal(lines) + "\n"
  {
  }

  /** A log is read at 64 KiB unless told otherwise, and at 256 KiB at most. */
  lemma ReadLimits(w: Words, stored: string, limit: int)
    ensures limit <= 0 ==> ReadBack(w, stored, limit) == ReadBack(w, stored, 65536)
    ensures limit > 262144 ==> ReadBack(w, stored, limit) == ReadBack(w, stored, 262144)
    ensures 0 < limit <= 262144 && |stored| <= limit ==>
              ReadBack(w, stored, limit) == NormalizeLogOutput(w, FieldView(stored, |stored|, Newlines(stored)))
  {
  }

  /** A command's output is stored whole up to 128 KiB. */
  lemma StoredWhole(whole: string, lines: nat)
    ensures Persisted(STORED_OUTPUT_LIMIT, whole, lines)
         == if |whole| <= 131072 then whole
            else AppendOutputTruncationMarker(WORDS, whole[|whole| - 131072..], |whole|, lines)
  {
  }
}
