/** The bounded log buffers of the executor and the buffers of one command's output. */
module OutputBuffer {
  import opened Wrappers
  import opened OutputText

  const STORED_OUTPUT_LIMIT: nat := 128 * 1024

  /** Each write is counted on its own. */
  function LineTotal(pieces: seq<string>): nat
    decreases |pieces|
  {
    if pieces == [] then 0 else LineTotal(pieces[..|pieces| - 1]) + CountOutputLines(pieces[|pieces| - 1])
  }

  /** What a buffer with this limit shows of a text whose lines were counted so. */
  function Persisted(limit: int, whole: string, lines: nat): string {
    if limit > 0 && |whole| > limit then AppendOutputTruncationMarker(WORDS, LastN(whole, limit), |whole|, lines)
        else whole
  }

  class BoundedOutputBuffer {
    const limit: int
    var tail: string
    var originalBytes: nat
    var originalLines: nat
    var truncated: bool
    ghost var whole: string

    /** The buffer is the whole output, cut once. */
    ghost predicate Valid()
      reads this
    {
      && originalBytes == |whole|
      && tail == (if limit > 0 then LastN(whole, limit) else whole)
      && (truncated <==> limit > 0 && |whole| > limit)
    }

    constructor (limit: int)
      ensures Valid() && this.limit == limit && whole == "" && originalLines == 0
    {
      this.limit := limit;
      tail, originalBytes, originalLines, truncated, whole := "", 0, 0, false, "";
    }

    method WriteString(text: string)
      requires Valid()
      modifies this
      ensures Valid() && whole == old(whole) + text && originalLines == old(originalLines) + CountOutputLines(text)
    {
      if limit > 0 { TailOfTail(whole, text, limit); }
      whole := whole + text;
      if text == "" {
        return;
      }
      originalBytes := originalBytes + |text|;
      originalLines := originalLines + CountOutputLines(text);
      tail := tail + text;
      if limit <= 0 {
        return;
      }
      if |tail| <= limit {
        return;
      }
      truncated := true;
      tail := tail[|tail| - limit..];
    }

    method String() returns (s: string)
      requires Valid()
      ensures s == Persisted(limit, whole, originalLines)
    {
      if !truncated {
        return tail;
      }
      s := AppendOutputTruncationMarker(WORDS, tail, originalBytes, originalLines);
    }
  }

  /** Any sequence of writes: the tail of the concatenation, and exact totals. */
  method WriteAll(b: BoundedOutputBuffer, pieces: seq<string>)
    requires b.Valid() && b.whole == "" && b.originalLines == 0
    modifies b
    ensures b.Valid() && b.whole == Concat(pieces) && b.originalLines == LineTotal(pieces)
  {
    var i := 0;
    while i < |pieces|
      invariant 0 <= i <= |pieces| && b.Valid()
      invariant b.whole == Concat(pieces[..i]) && b.originalLines == LineTotal(pieces[..i])
    {
      PrefixGrows(pieces, i);
      b.WriteString(pieces[i]);
      i := i + 1;
    }
    assert pieces[..i] == pieces;
  }

  lemma PrefixGrows(pieces: seq<string>, i: nat)
    requires i < |pieces|
    ensures Concat(pieces[..i + 1]) == Concat(pieces[..i]) + pieces[i]
    ensures LineTotal(pieces[..i + 1]) == LineTotal(pieces[..i]) + CountOutputLines(pieces[i])
  {
    Appended(pieces[..i], pieces[i]);
    assert pieces[..i] + [pieces[i]] == pieces[..i + 1];
  }

  lemma Appended(pieces: seq<string>, text: string)
    ensures Concat(pieces + [text]) == Concat(pieces) + text
    ensures LineTotal(pieces + [text]) == LineTotal(pieces) + CountOutputLines(text)
  {
    assert (pieces + [text])[..|pieces|] == pieces;
  }

  /** Counted piece by piece, the lines come out right exactly when every write but the last ends a line. */
  lemma {:induction false} LineTotalExactly(pieces: seq<string>)
    requires forall i | 0 <= i < |pieces| :: pieces[i] != ""
    ensures LineTotal(pieces) >= CountOutputLines(Concat(pieces))
    ensures LineTotal(pieces) == CountOutputLines(Concat(pieces))
            <==> forall i | 0 <= i < |pieces| - 1 :: Terminated(pieces[i])
    decreases |pieces|
  {
    if pieces != [] {
      var init, last := pieces[..|pieces| - 1], pieces[|pieces| - 1];
      LineTotalExactly(init);
      NewlinesAppend(Concat(init), last);
      assert Terminated(Concat(pieces)) <==> Terminated(last);
      if init != [] {
        var before := init[|init| - 1];
        assert Terminated(Concat(init)) <==> Terminated(before);
        assert Concat(init) != "";
        assert forall i | 0 <= i < |init| :: init[i] == pieces[i];
      }
    }
  }

  // ---- reading a stream line by line ----

  /** One piece of a stream, without the newline that may end it. */
  datatype Line = Line(text: string, hasNewline: bool)

  function Rejoined(lines: seq<Line>): string
    decreases |lines|
  {
    if lines == [] then ""
    else
      var last := lines[|lines| - 1];
      Rejoined(lines[..|lines| - 1]) + last.text + if last.hasNewline then "\n" else ""
  }

  /** No newline inside a line, none missing but at the end, and no empty piece there. */
  predicate WellRead(lines: seq<Line>) {
    && (forall i | 0 <= i < |lines| :: '\n' !in lines[i].text && (lines[i].hasNewline || lines[i].text != ""))
    && (forall i | 0 <= i < |lines| - 1 :: lines[i].hasNewline)
  }

  function LineEnd(s: string): (k: nat)
    ensures k <= |s| && '\n' !in s[..k] && (k < |s| ==> s[k] == '\n')
  {
    if s == "" || s[0] == '\n' then 0
    else
      var k := LineEnd(s[1..]);
      assert s[..k + 1] == [s[0]] + s[1..][..k];
      k + 1
  }

  /** Reads `data`, everything the pipe gives before it ends or fails. */
  method ReadStream(data: string) returns (lines: seq<Line>)
    ensures Rejoined(lines) == data && WellRead(lines)
  {
    lines := [];
    var pos := 0;
    while pos < |data|
      invariant 0 <= pos <= |data|
      invariant Rejoined(lines) == data[..pos] && WellRead(lines)
      invariant pos < |data| ==> forall i | 0 <= i < |lines| :: lines[i].hasNewline
    {
      var rest := data[pos..];
      var k := LineEnd(rest);
      var line := Line(rest[..k], k < |rest|);
      assert (lines + [line])[..|lines|] == lines;
      var next := if k < |rest| then pos + k + 1 else |data|;
      assert data[..next] == data[..pos] + line.text + if line.hasNewline then "\n" else "";
      lines, pos := lines + [line], next;
    }
    assert data[..pos] == data;
  }

  /** A last line without a newline gets one. */
  function Completed(data: string): string {
    if data == "" || Terminated(data) then data else data + "\n"
  }

  // ---- the output of one command ----

  datatype Stream = Stdout | Stderr

  datatype Event = Output(stream: Stream, line: Line) | PipeError(text: string)

  function Tag(stream: Stream): string {
    if stream == Stdout then "[stdout] " else "[stderr] "
  }

  const ERROR_TAG := "[error] "

  function LinePiece(line: Line): string {
    if line.hasNewline || line.text != "" then line.text + "\n" else ""
  }

  function CombinedPiece(e: Event): string {
    (if e.Output? then Tag(e.stream) + e.line.text else ERROR_TAG + e.text) + "\n"
  }

  /** What an event adds to one stream's buffers. */
  function StreamPiece(stream: Stream, e: Event): string {
    if e.Output? then (if e.stream == stream then LinePiece(e.line) else "")
    else if stream == Stderr then Completed(e.text) else ""
  }

  function StreamText(stream: Stream, events: seq<Event>): string
    decreases |events|
  {
    if events == [] then "" else StreamText(stream, events[..|events| - 1]) + StreamPiece(stream, events[|events| - 1])
  }

  function CombinedText(events: seq<Event>): string
    decreases |events|
  {
    if events == [] then "" else CombinedText(events[..|events| - 1]) + CombinedPiece(events[|events| - 1])
  }

  lemma TextsGrow(events: seq<Event>, e: Event)
    ensures CombinedText(events + [e]) == CombinedText(events) + CombinedPiece(e)
    ensures forall stream: Stream ::
            StreamText(stream, events + [e]) == StreamText(stream, events) + StreamPiece(stream, e)
    ensures forall stream: Stream | StreamPiece(stream, e) == "" ::
            StreamText(stream, events + [e]) == StreamText(stream, events)
  {
    assert (events + [e])[..|events|] == events;
  }

  lemma PipeErrorPieces(text: string)
    ensures StreamPiece(Stdout, PipeError(text)) == "" && StreamPiece(Stderr, PipeError(text)) == Completed(text)
    ensures (Completed(text) == "" || Terminated(Completed(text))) && Terminated(CombinedPiece(PipeError(text)))
  {
  }

  /** Every write to a command's buffers ends a line, so their line counts are those of the whole text. */
  predicate Counted(whole: string, lines: nat) {
    (whole == "" || Terminated(whole)) && lines == Newlines(whole)
  }

  lemma CountedGrows(whole: string, lines: nat, text: string)
    requires Counted(whole, lines) && (text == "" || Terminated(text))
    ensures Counted(whole + text, lines + CountOutputLines(text))
  {
    NewlinesAppend(whole, text);
    if text == "" {
      assert whole + text == whole;
    } else {
      assert (whole + text)[|whole + text| - 1] == text[|text| - 1];
    }
  }

  class CommandOutputBuffers {
    const fullCombined: bool
    var stdoutResult: string
    var stderrResult: string
    var combinedResult: string
    const stdoutLog: BoundedOutputBuffer
    const stderrLog: BoundedOutputBuffer
    const combinedLog: BoundedOutputBuffer

    ghost predicate Separate() {
      stdoutLog != stderrLog && stdoutLog != combinedLog && stderrLog != combinedLog
    }

    ghost predicate LogOk(log: BoundedOutputBuffer)
      reads log
    {
      log.Valid() && log.limit == STORED_OUTPUT_LIMIT && Counted(log.whole, log.originalLines)
    }

    /** Each log has seen what the full result holds. */
    ghost predicate Valid()
      reads this, stdoutLog, stderrLog, combinedLog
    {
      && Separate() && LogOk(stdoutLog) && LogOk(stderrLog) && LogOk(combinedLog)
      && stdoutResult == stdoutLog.whole && stderrResult == stderrLog.whole
      && combinedResult == if fullCombined then combinedLog.whole else ""
    }

    /** The texts the events seen so far give. */
    ghost predicate Saw(events: seq<Event>)
      reads this, stdoutLog, stderrLog, combinedLog
    {
      && stdoutLog.whole == StreamText(Stdout, events) && stderrLog.whole == StreamText(Stderr, events)
      && combinedLog.whole == CombinedText(events)
    }

    constructor (fullCombined: bool)
      ensures Valid() && Saw([]) && this.fullCombined == fullCombined
      ensures fresh(stdoutLog) && fresh(stderrLog) && fresh(combinedLog)
    {
      this.fullCombined := fullCombined;
      stdoutResult, stderrResult, combinedResult := "", "", "";
      stdoutLog := new BoundedOutputBuffer(STORED_OUTPUT_LIMIT);
      stderrLog := new BoundedOutputBuffer(STORED_OUTPUT_LIMIT);
      combinedLog := new BoundedOutputBuffer(STORED_OUTPUT_LIMIT);
    }

    method AppendLine(stream: Stream, text: string, hasNewline: bool, ghost events: seq<Event>)
      requires Valid() && Saw(events)
      modifies this, stdoutLog, stderrLog, combinedLog
      ensures Valid() && Saw(events + [Output(stream, Line(text, hasNewline))])
    {
      TextsGrow(events, Output(stream, Line(text, hasNewline)));
      Append(stream, LinePiece(Line(text, hasNewline)), Tag(stream) + text + "\n");
    }

    method AppendPipeError(pipeText: string, ghost events: seq<Event>)
      requires Valid() && Saw(events)
      modifies this, stdoutLog, stderrLog, combinedLog
      ensures Valid() && Saw(events + [PipeError(pipeText)])
    {
      TextsGrow(events, PipeError(pipeText));
      PipeErrorPieces(pipeText);
      Append(Stderr, Completed(pipeText), CombinedPiece(PipeError(pipeText)));
    }

    method Append(stream: Stream, normalized: string, combinedLine: string)
      requires Valid() && (normalized == "" || Terminated(normalized)) && Terminated(combinedLine)
      modifies this, stdoutLog, stderrLog, combinedLog
      ensures Valid() && combinedLog.whole == old(combinedLog.whole) + combinedLine
      ensures stdoutLog.whole == if stream == Stdout then old(stdoutLog.whole) + normalized else old(stdoutLog.whole)
      ensures stderrLog.whole == if stream == Stderr then old(stderrLog.whole) + normalized else old(stderrLog.whole)
    {
      if stream == Stdout {
        Write(stdoutLog, normalized);
        stdoutResult := stdoutResult + normalized;
      } else {
        Write(stderrLog, normalized);
        stderrResult := stderrResult + normalized;
      }
      AppendCombined(combinedLine);
    }

    method Write(log: BoundedOutputBuffer, text: string)
      requires LogOk(log) && (text == "" || Terminated(text))
      modifies log
      ensures LogOk(log) && log.whole == old(log.whole) + text
    {
      CountedGrows(log.whole, log.originalLines, text);
      log.WriteString(text);
    }

    method AppendCombined(combinedLine: string)
      requires LogOk(combinedLog) && Terminated(combinedLine)
      requires combinedResult == if fullCombined then combinedLog.whole else ""
      modifies this`combinedResult, combinedLog
      ensures LogOk(combinedLog) && combinedLog.whole == old(combinedLog.whole) + combinedLine
      ensures combinedResult == if fullCombined then combinedLog.whole else ""
    {
      if fullCombined {
        combinedResult := combinedResult + combinedLine;
      }
      Write(combinedLog, combinedLine);
    }

    /** The results are whole; the combined one is what the log stores of it when it is not kept in full. */
    method Result(ghost events: seq<Event>) returns (stdout: string, stderr: string, combined: string)
      requires Valid() && Saw(events)
      ensures stdout == StreamText(Stdout, events) && stderr == StreamText(Stderr, events)
      ensures combined == if fullCombined then CombinedText(events)
                          else Persisted(STORED_OUTPUT_LIMIT, CombinedText(events), Newlines(CombinedText(events)))
    {
      combined := combinedResult;
      if !fullCombined {
        combined := combinedLog.String();
      }
      return stdoutResult, stderrResult, combined;
    }

    /** What the log row gets: each text, or its last 128 KiB and a marker with the true counts. */
    method PersistedOutputs(ghost events: seq<Event>) returns (stdout: string, stderr: string, combined: string)
      requires Valid() && Saw(events)
      ensures stdout == Persisted(STORED_OUTPUT_LIMIT, StreamText(Stdout, events), Newlines(StreamText(Stdout, events)))
      ensures stderr == Persisted(STORED_OUTPUT_LIMIT, StreamText(Stderr, events), Newlines(StreamText(Stderr, events)))
      ensures combined == Persisted(STORED_OUTPUT_LIMIT, CombinedText(events), Newlines(CombinedText(events)))
    {
      stdout := stdoutLog.String();
      stderr := stderrLog.String();
      combined := combinedLog.String();
    }
  }

  // ---- what the results mean ----

  /** The lines of one stream, in order. */
  function LinesOf(stream: Stream, events: seq<Event>): seq<Line>
    decreases |events|
  {
    if events == [] then []
    else
      var before, e := LinesOf(stream, events[..|events| - 1]), events[|events| - 1];
      if e.Output? && e.stream == stream then before + [e.line] else before
  }

  predicate NoPipeError(events: seq<Event>) {
    forall i | 0 <= i < |events| :: events[i].Output?
  }

  lemma RejoinedLast(lines: seq<Line>, line: Line)
    ensures Rejoined(lines + [line]) == Rejoined(lines) + line.text + if line.hasNewline then "\n" else ""
  {
    assert (lines + [line])[..|lines|] == lines;
  }

  lemma CompletedLast(before: string, line: Line)
    requires (before == "" || Terminated(before)) && (line.hasNewline || line.text != "") && '\n' !in line.text
    ensures Completed(before + line.text + if line.hasNewline then "\n" else "") == Completed(before) + LinePiece(line)
  {
    var s := before + line.text + if line.hasNewline then "\n" else "";
    if line.hasNewline {
      assert Terminated(s);
      assert s == before + (line.text + "\n");
    } else {
      assert s[|s| - 1] == line.text[|line.text| - 1];
      assert s + "\n" == before + (line.text + "\n");
    }
  }

  lemma {:induction false} EndsTerminated(lines: seq<Line>)
    requires forall i | 0 <= i < |lines| :: lines[i].hasNewline
    ensures Rejoined(lines) == "" || Terminated(Rejoined(lines))
  {
  }

  lemma WellReadInit(lines: seq<Line>, line: Line)
    requires WellRead(lines + [line])
    ensures WellRead(lines) && WellRead([line]) && forall i | 0 <= i < |lines| :: lines[i].hasNewline
  {
    var all := lines + [line];
    assert forall i | 0 <= i < |lines| :: lines[i] == all[i];
    assert all[|lines|] == line;
  }

  /** Whatever way the two streams interleave, a stream's result is what was read from it, its last line completed. */
  lemma {:induction false} StreamResultIsComplete(stream: Stream, events: seq<Event>)
    requires NoPipeError(events) && WellRead(LinesOf(stream, events))
    ensures StreamText(stream, events) == Completed(Rejoined(LinesOf(stream, events)))
    decreases |events|
  {
    if events != [] {
      var init, e := events[..|events| - 1], events[|events| - 1];
      if e.stream == stream {
        var lines := LinesOf(stream, init);
        WellReadInit(lines, e.line);
        StreamResultIsComplete(stream, init);
        EndsTerminated(lines);
        RejoinedLast(lines, e.line);
        CompletedLast(Rejoined(lines), e.line);
      } else {
        StreamResultIsComplete(stream, init);
      }
    }
  }

  /** Every text a command leaves ends a line, so the counts in the log are those of the text. */
  lemma {:induction false} TextsEnd(stream: Stream, events: seq<Event>)
    ensures StreamText(stream, events) == "" || Terminated(StreamText(stream, events))
    ensures CombinedText(events) == "" || Terminated(CombinedText(events))
    decreases |events|
  {
    if events != [] {
      var e := events[|events| - 1];
      TextsEnd(stream, events[..|events| - 1]);
      PieceEnds(StreamText(stream, events[..|events| - 1]), StreamPiece(stream, e));
      PieceEnds(CombinedText(events[..|events| - 1]), CombinedPiece(e));
    }
  }

  lemma PieceEnds(before: string, piece: string)
    requires (before == "" || Terminated(before)) && (piece == "" || Terminated(piece))
    ensures before + piece == "" || Terminated(before + piece)
  {
    if piece == "" {
      assert before + piece == before;
    } else {
      assert (before + piece)[|before + piece| - 1] == piece[|piece| - 1];
    }
  }

  /** Where the last line of `s` starts. */
  function LineStart(s: string): (k: nat)
    ensures k <= |s|
  {
    if s == "" || s[|s| - 1] == '\n' then |s| else LineStart(s[..|s| - 1])
  }

  /** The lines before the last one, and the last one without its newline. */
  function LastSplit(s: string): (string, string) {
    var body := if Terminated(s) then s[..|s| - 1] else s;
    (body[..LineStart(body)], body[LineStart(body)..])
  }

  lemma {:induction false} LineStartAfter(a: string, line: string)
    requires (a == "" || Terminated(a)) && '\n' !in line
    ensures LineStart(a + line) == |a|
    decreases |line|
  {
    if line == "" {
      assert a + line == a;
    } else {
      assert (a + line)[..|a + line| - 1] == a + line[..|line| - 1];
      LineStartAfter(a, line[..|line| - 1]);
    }
  }

  lemma {:induction false} LastSplitIs(a: string, line: string)
    requires (a == "" || Terminated(a)) && '\n' !in line
    ensures LastSplit(a + (line + "\n")) == (a, line)
  {
    var s, body := a + (line + "\n"), a + line;
    LineStartAfter(a, line);
    assert Terminated(s) && s[..|s| - 1] == body;
    assert body[..|a|] == a && body[|a|..] == line;
  }

  function Kept(line: string, tag: string): string {
    if tag <= line then line[|tag|..] + "\n" else ""
  }

  lemma LastSplitShorter(s: string)
    requires s != ""
    ensures |LastSplit(s).0| < |s|
  {
  }

  /** The lines of `s` that start with `tag`, without it. */
  function Untagged(s: string, tag: string): string
    decreases |s|
  {
    if s == "" then ""
    else
      LastSplitShorter(s);
      Untagged(LastSplit(s).0, tag) + Kept(LastSplit(s).1, tag)
  }

  lemma {:induction false} UntaggedLast(a: string, line: string, tag: string)
    requires (a == "" || Terminated(a)) && '\n' !in line
    ensures Untagged(a + (line + "\n"), tag) == Untagged(a, tag) + Kept(line, tag)
  {
    LastSplitIs(a, line);
  }

  /** A combined line carries the tag of its own stream and no other. */
  lemma TagsDiffer(stream: Stream, other: Stream, text: string)
    ensures Tag(stream) <= Tag(other) + text <==> stream == other
    ensures (Tag(stream) + text)[|Tag(stream)|..] == text
    ensures '\n' !in text ==> '\n' !in Tag(stream) + text
  {
    assert (Tag(other) + text)[4] == Tag(other)[4];
  }

  lemma FilterStep(stream: Stream, combined: string, e: Event)
    requires combined == "" || Terminated(combined)
    requires e.Output? && '\n' !in e.line.text && (e.line.hasNewline || e.line.text != "")
    ensures Untagged(combined + CombinedPiece(e), Tag(stream))
            == Untagged(combined, Tag(stream)) + StreamPiece(stream, e)
    ensures Terminated(combined + CombinedPiece(e))
  {
    TagsDiffer(stream, e.stream, e.line.text);
    TagsDiffer(e.stream, stream, e.line.text);
    UntaggedLast(combined, Tag(e.stream) + e.line.text, Tag(stream));
  }

  predicate CompleteLines(events: seq<Event>) {
    forall i | 0 <= i < |events| ::
      events[i].Output? && '\n' !in events[i].line.text && (events[i].line.hasNewline || events[i].line.text != "")
  }

  /** For lines as they are read, the combined text filtered by a stream's tag is that stream's result, for any
      interleaving. */
  lemma {:induction false} CombinedFiltersToStreams(stream: Stream, events: seq<Event>)
    requires CompleteLines(events)
    ensures Untagged(CombinedText(events), Tag(stream)) == StreamText(stream, events)
    ensures CombinedText(events) == "" || Terminated(CombinedText(events))
    decreases |events|
  {
    if events != [] {
      var init, e := events[..|events| - 1], events[|events| - 1];
      CombinedFiltersToStreams(stream, init);
      FilterStep(stream, CombinedText(init), e);
    }
  }

  /** A line of either stream goes to its own text as it is, and tagged to the combined one; a pipe error goes tagged to
      the combined text and to stderr. */
  lemma PiecesByText(text: string, hasNewline: bool)
    requires text != ""
    ensures var o, e := Output(Stdout, Line(text, hasNewline)), Output(Stderr, Line(text, hasNewline));
            && StreamPiece(Stdout, o) == text + "\n" && StreamPiece(Stderr, o) == ""
            && CombinedPiece(o) == "[stdout] " + text + "\n"
            && StreamPiece(Stderr, e) == text + "\n" && StreamPiece(Stdout, e) == ""
            && CombinedPiece(e) == "[stderr] " + text + "\n"
    ensures CombinedPiece(PipeError(text)) == "[error] " + text + "\n" && StreamPiece(Stdout, PipeError(text)) == ""
  {
  }
}
