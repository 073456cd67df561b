/** Text as bytes, one character each; its lines; and the marker that stands in for cut output. */
module OutputText {
  import opened Wrappers

  function LastN(s: string, n: nat): string {
    if |s| <= n then s else s[|s| - n..]
  }

  function Newlines(s: string): nat {
    if s == "" then 0 else Newlines(s[..|s| - 1]) + if s[|s| - 1] == '\n' then 1 else 0
  }

  predicate Terminated(s: string) {
    s != "" && s[|s| - 1] == '\n'
  }

  function CountOutputLines(text: string): nat {
    if text == "" then 0 else if Terminated(text) then Newlines(text) else Newlines(text) + 1
  }

  function Concat(pieces: seq<string>): string
    decreases |pieces|
  {
    if pieces == [] then "" else Concat(pieces[..|pieces| - 1]) + pieces[|pieces| - 1]
  }

  lemma {:induction false} NewlinesAppend(a: string, b: string)
    ensures Newlines(a + b) == Newlines(a) + Newlines(b)
    decreases |b|
  {
    if b == "" {
      assert a + b == a;
    } else {
      assert (a + b)[..|a + b| - 1] == a + b[..|b| - 1];
      NewlinesAppend(a, b[..|b| - 1]);
    }
  }

  lemma {:induction false} NewlinesBound(s: string)
    ensures Newlines(s) <= |s| && (Newlines(s) == 0 <==> '\n' !in s)
  {
    if s != "" {
      NewlinesBound(s[..|s| - 1]);
      assert s == s[..|s| - 1] + [s[|s| - 1]];
    }
  }

  /** Cutting after every write keeps the same tail as cutting once. */
  lemma TailOfTail(whole: string, text: string, limit: nat)
    ensures LastN(LastN(whole, limit) + text, limit) == LastN(whole + text, limit)
  {
  }

  // ---- decimal numbers ----

  function Digit(d: nat): char
    requires d < 10
  {
    ('0' as int + d) as char
  }

  predicate IsDigit(c: char) {
    '0' <= c <= '9'
  }

  predicate AllDigits(s: string) {
    forall i | 0 <= i < |s| :: IsDigit(s[i])
  }

  function Decimal(n: nat): string {
    if n < 10 then [Digit(n)] else Decimal(n / 10) + [Digit(n % 10)]
  }

  function Value(digits: string): nat
    requires AllDigits(digits)
  {
    if digits == "" then 0 else Value(digits[..|digits| - 1]) * 10 + (digits[|digits| - 1] as int - '0' as int)
  }

  /** `strconv.ParseInt` on what `\d+` matched: larger numbers do not fit 64 bits. */
  function ParseInt(digits: string): Option<nat>
    requires AllDigits(digits)
  {
    if Value(digits) < 0x8000_0000_0000_0000 then Some(Value(digits)) else None
  }

  lemma {:induction false} DecimalValue(n: nat)
    ensures Decimal(n) != "" && AllDigits(Decimal(n)) && Value(Decimal(n)) == n
  {
    if n >= 10 {
      DecimalValue(n / 10);
      var s := Decimal(n / 10) + [Digit(n % 10)];
      assert s[..|s| - 1] == Decimal(n / 10);
    } else {
      assert [Digit(n)][..0] == "";
    }
  }

  // ---- the truncation marker ----

  /** The fixed texts of the marker: before the number of bytes, and between the two numbers. */
  datatype Words = Words(opening: string, middle: string)

  /** The opening is written in short pieces, so that what characters it holds can be told piece by piece. */
  const WORDS := Words("[" + "autorestic-" + "output-" + "truncated] " + "original_bytes=", " original_lines=")

  function Marker(w: Words, bytes: nat, lines: nat): string {
    w.opening + (Decimal(bytes) + (w.middle + (Decimal(lines) + "\n")))
  }

  function AppendOutputTruncationMarker(w: Words, text: string, bytes: nat, lines: nat): string {
    (if text != "" && !Terminated(text) then text + "\n" else text) + Marker(w, bytes, lines)
  }

  function DigitRun(s: string): (n: nat)
    ensures n <= |s| && AllDigits(s[..n]) && (n < |s| ==> !IsDigit(s[n]))
  {
    if s == "" || !IsDigit(s[0]) then 0
    else
      var n := DigitRun(s[1..]);
      assert s[..n + 1] == [s[0]] + s[1..][..n];
      n + 1
  }

  /** A match of the marker pattern at the start of `s`: the two groups of digits, at the end of the text or of a
      line. */
  function MatchHere(w: Words, s: string): (m: Option<(string, string)>)
    ensures m.Some? ==> AllDigits(m.value.0) && AllDigits(m.value.1)
  {
    if w.opening <= s then MatchNumbers(w, s[|w.opening|..]) else None
  }

  function MatchNumbers(w: Words, s: string): (m: Option<(string, string)>)
    ensures m.Some? ==> AllDigits(m.value.0) && AllDigits(m.value.1)
  {
    var n := DigitRun(s);
    if n == 0 || !(w.middle <= s[n..]) then None
    else
      var lines := MatchLines(s[n..][|w.middle|..]);
      if lines.None? then None else Some((s[..n], lines.value))
  }

  function MatchLines(s: string): (m: Option<string>)
    ensures m.Some? ==> AllDigits(m.value)
  {
    var k := DigitRun(s);
    if k == 0 || (k < |s| && s[k] != '\n') then None else Some(s[..k])
  }

  /** The leftmost match in the text. */
  function FindMarker(w: Words, s: string): (m: Option<(string, string)>)
    ensures m.Some? ==> AllDigits(m.value.0) && AllDigits(m.value.1)
  {
    if MatchHere(w, s).Some? then MatchHere(w, s) else if s == "" then None else FindMarker(w, s[1..])
  }

  datatype OutputMeta = OutputMeta(truncated: bool, originalBytes: nat, originalLines: nat)

  function ParseOutputTruncationMarker(w: Words, text: string): Option<OutputMeta> {
    var m := FindMarker(w, text);
    if m.None? || ParseInt(m.value.0).None? || ParseInt(m.value.1).None? then None
    else Some(OutputMeta(true, ParseInt(m.value.0).value, ParseInt(m.value.1).value))
  }
}
