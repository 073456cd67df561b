/** `parseResticBackupCommand`: reads a pasted restic backup command back into the fields of a task. */
module BackupParser {
  import opened Wrappers
  import opened ShellText
  import opened BackupArgs

  datatype Parsed = Parsed(sourcePaths: seq<string>, excludes: seq<string>, tags: seq<string>, extraFlags: FlagMap)

  datatype ParseError =
    | EmptyCommand | NotBackup | OpenQuote | MissingValue(flag: string) | NotANumber(flag: string)
    | NotABoolean(value: string) | UnsupportedOption(flag: string) | UnsupportedShort(token: string) | NoPaths

  const OTHER_COMMANDS := [
    "snapshots", "restore", "check", "prune", "forget", "unlock", "init", "stats", "ls", "find", "diff", "cat",
    "key", "copy", "dump", "mount", "repair", "rewrite", "self-update", "version" ]

  predicate Dashed(token: string) {
    token != "" && token[0] == '-'
  }

  predicate LongOption(token: string) {
    |token| >= 2 && token[0] == '-' && token[1] == '-'
  }

  function EqualsIndex(token: string): (n: nat)
    ensures n <= |token|
  {
    if token == "" || token[0] == '=' then 0 else 1 + EqualsIndex(token[1..])
  }

  function SplitLongFlag(token: string): (string, Option<string>) {
    var n := EqualsIndex(token);
    if n == |token| then (token, None) else (token[..n], Some(token[n + 1..]))
  }

  function LowerAscii(s: string): string {
    seq(|s|, i requires 0 <= i < |s| => if 'A' <= s[i] <= 'Z' then ((s[i] as int) + 32) as char else s[i])
  }

  function BooleanValue(value: string): Result<bool, ParseError> {
    if LowerAscii(value) in ["1", "true", "yes", "on"] then Success(true)
    else if LowerAscii(value) in ["0", "false", "no", "off"] then Success(false)
    else Failure(NotABoolean(value))
  }

  /** The value after `=`, or the next token; with the number of tokens used. */
  function FlagArgument(flag: string, inline: Option<string>, tokens: seq<string>): Result<(string, nat), ParseError> {
    if inline.Some? then Success((inline.value, 1))
    else if |tokens| < 2 || tokens[1] == "" then Failure(MissingValue(flag))
    else Success((tokens[1], 2))
  }

  function Coerce(num: Numerals, flag: string, value: string): Result<FlagValue, ParseError> {
    if KindOf(flag) != Some(NumberKind) then Success(TextFlag(value))
    else if num.jsRead(value).None? then Failure(NotANumber(flag))
    else Success(NumberFlag(num.jsRead(value).value))
  }

  /** What is read so far, and whether `--` ended the options. */
  datatype Reader = Reader(parsed: Parsed, ended: bool)

  function SetFlag(p: Parsed, key: string, value: FlagValue): Parsed {
    p.(extraFlags := p.extraFlags[key := value])
  }

  function TakeLong(num: Numerals, tokens: seq<string>, p: Parsed): (r: Result<(Parsed, nat), ParseError>)
    requires tokens != []
    ensures r.Success? ==> 1 <= r.value.1 <= |tokens|
  {
    var (flag, inline) := SplitLongFlag(tokens[0]);
    if flag == "--exclude" || flag == "--tag" then
      var a := FlagArgument(flag, inline, tokens);
      if a.Failure? then Failure(a.error)
      else if flag == "--exclude" then Success((p.(excludes := p.excludes + [a.value.0]), a.value.1))
      else Success((p.(tags := p.tags + [a.value.0]), a.value.1))
    else if KindOf(flag) == Some(BooleanKind) then
      if inline.None? then Success((SetFlag(p, flag, BoolFlag(true)), 1))
      else
        var b := BooleanValue(inline.value);
        if b.Failure? then Failure(b.error) else Success((SetFlag(p, flag, BoolFlag(b.value)), 1))
    else if KindOf(flag) == Some(NumberKind) || KindOf(flag) == Some(TextKind) then
      var a := FlagArgument(flag, inline, tokens);
      if a.Failure? then Failure(a.error)
      else
        var v := Coerce(num, flag, a.value.0);
        if v.Failure? then Failure(v.error) else Success((SetFlag(p, flag, v.value), a.value.1))
    else Failure(UnsupportedOption(flag))
  }

  /** One turn of the parser's loop: the new state and the number of tokens used. */
  function Take(num: Numerals, tokens: seq<string>, r: Reader): (t: Result<(Reader, nat), ParseError>)
    requires tokens != []
    ensures t.Success? ==> 1 <= t.value.1 <= |tokens|
  {
    var token := tokens[0];
    if token == "" then Success((r, 1))
    else if token == "--" then Success((r.(ended := true), 1))
    else if r.ended || !Dashed(token) then
      Success((r.(parsed := r.parsed.(sourcePaths := r.parsed.sourcePaths + [token])), 1))
    else if token == "-v" then Success((r.(parsed := SetFlag(r.parsed, "--verbose", BoolFlag(true))), 1))
    else if token == "-vv" then Success((r.(parsed := SetFlag(r.parsed, "--verbose", NumberFlag(2.0))), 1))
    else if token == "-n" then Success((r.(parsed := SetFlag(r.parsed, "--dry-run", BoolFlag(true))), 1))
    else if LongOption(token) then
      var l := TakeLong(num, tokens, r.parsed);
      if l.Failure? then Failure(l.error) else Success((r.(parsed := l.value.0), l.value.1))
    else Failure(UnsupportedShort(token))
  }

  function Read(num: Numerals, tokens: seq<string>, r: Reader): Result<Parsed, ParseError>
    decreases |tokens|
  {
    if tokens == [] then Success(r.parsed)
    else
      var t := Take(num, tokens, r);
      if t.Failure? then Failure(t.error) else Read(num, tokens[t.value.1..], t.value.0)
  }

  const NOTHING := Reader(Parsed([], [], [], map[]), false)

  predicate Assignment(token: string) {
    '=' in token && !Dashed(token)
  }

  function SkipAssignments(tokens: seq<string>): (rest: seq<string>)
    ensures |rest| <= |tokens|
  {
    if tokens != [] && Assignment(tokens[0]) then SkipAssignments(tokens[1..]) else tokens
  }

  /** After `restic`: global options, each with the value that seems to follow it. */
  function SkipGlobals(tokens: seq<string>): (rest: seq<string>)
    ensures |rest| <= |tokens|
    decreases |tokens|
  {
    if tokens == [] || tokens[0] == "backup" || !Dashed(tokens[0]) then tokens
    else if |tokens| > 1 && tokens[1] != "" && !Dashed(tokens[1]) then SkipGlobals(tokens[2..])
    else SkipGlobals(tokens[1..])
  }

  function SkipCommand(tokens: seq<string>): Result<seq<string>, ParseError> {
    var first := SkipAssignments(tokens);
    var restic := first != [] && first[0] == "restic";
    var rest := if restic then SkipGlobals(first[1..]) else first;
    if rest != [] && rest[0] == "backup" then Success(rest[1..])
    else if restic || (rest != [] && Listed(rest[0], OTHER_COMMANDS)) then Failure(NotBackup)
    else Success(rest)
  }

  function ParsedTokens(num: Numerals, tokens: seq<string>): Result<Parsed, ParseError> {
    if tokens == [] then Failure(EmptyCommand)
    else
      var rest := SkipCommand(tokens);
      if rest.Failure? then Failure(rest.error)
      else
        var p := Read(num, rest.value, NOTHING);
        if p.Success? && p.value.sourcePaths == [] then Failure(NoPaths) else p
  }

  function ParsedCommand(num: Numerals, raw: string): Result<Parsed, ParseError> {
    var tokens := Tokens(raw);
    if tokens.Failure? then Failure(OpenQuote) else ParsedTokens(num, tokens.value)
  }

  // ---- the parser as it runs ----

  method SkipEnvironment(tokens: seq<string>) returns (index: nat)
    ensures index <= |tokens| && SkipAssignments(tokens) == tokens[index..]
  {
    index := 0;
    while index < |tokens| && '=' in tokens[index] && !Dashed(tokens[index])
      invariant index <= |tokens|
      invariant SkipAssignments(tokens) == SkipAssignments(tokens[index..])
    {
      assert tokens[index..][1..] == tokens[index + 1..];
      index := index + 1;
    }
  }

  method SkipGlobalOptions(tokens: seq<string>, start: nat) returns (index: nat)
    requires start <= |tokens|
    ensures start <= index <= |tokens| && SkipGlobals(tokens[start..]) == tokens[index..]
  {
    index := start;
    while index < |tokens| && tokens[index] != "" && tokens[index] != "backup"
      invariant start <= index <= |tokens|
      invariant SkipGlobals(tokens[start..]) == SkipGlobals(tokens[index..])
    {
      if !Dashed(tokens[index]) {
        break;
      }
      assert tokens[index..][1..] == tokens[index + 1..];
      assert index + 2 <= |tokens| ==> tokens[index..][2..] == tokens[index + 2..];
      index := index + 1;
      if index < |tokens| && tokens[index] != "" && !Dashed(tokens[index]) {
        index := index + 1;
      }
    }
  }

  method SkipToOptions(tokens: seq<string>) returns (r: Result<nat, ParseError>)
    ensures r.Success? ==> r.value <= |tokens| && SkipCommand(tokens) == Success(tokens[r.value..])
    ensures r.Failure? ==> SkipCommand(tokens) == Failure(r.error)
  {
    var index := SkipEnvironment(tokens);
    var startsWithRestic := index < |tokens| && tokens[index] == "restic";
    if startsWithRestic {
      assert tokens[index..][1..] == tokens[index + 1..];
      index := SkipGlobalOptions(tokens, index + 1);
    }
    if index < |tokens| && tokens[index] == "backup" {
      assert tokens[index..][1..] == tokens[index + 1..];
      index := index + 1;
    } else if startsWithRestic || (index < |tokens| && Listed(tokens[index], OTHER_COMMANDS)) {
      return Failure(NotBackup);
    }
    r := Success(index);
  }

  method NextValue(tokens: seq<string>, index: nat, flag: string) returns (r: Result<string, ParseError>)
    ensures r == if index < |tokens| && tokens[index] != "" then Success(tokens[index]) else Failure(MissingValue(flag))
  {
    if index >= |tokens| || tokens[index] == "" {
      return Failure(MissingValue(flag));
    }
    r := Success(tokens[index]);
  }

  /** The branch of the loop for `--flag` and `--flag=value`; `last` is the last token it used. */
  method ReadLongFlag(num: Numerals, tokens: seq<string>, start: nat, parsed: Parsed)
    returns (r: Result<Parsed, ParseError>, last: nat)
    requires start < |tokens|
    ensures start <= last
    ensures r.Success? ==> TakeLong(num, tokens[start..], parsed) == Success((r.value, last + 1 - start))
    ensures r.Failure? ==> TakeLong(num, tokens[start..], parsed) == Failure(r.error)
  {
    last := start;
    var (flag, inlineValue) := SplitLongFlag(tokens[start]);
    ghost var rest := tokens[start..];
    assert rest[0] == tokens[start] && (|rest| > 1 ==> rest[1] == tokens[start + 1]);
    if flag == "--exclude" || flag == "--tag" {
      var value;
      if inlineValue.Some? {
        value := inlineValue.value;
      } else {
        last := last + 1;
        var next := NextValue(tokens, last, flag);
        if next.Failure? {
          return Failure(next.error), last;
        }
        value := next.value;
      }
      if flag == "--exclude" {
        return Success(parsed.(excludes := parsed.excludes + [value])), last;
      } else {
        return Success(parsed.(tags := parsed.tags + [value])), last;
      }
    }
    if KindOf(flag) == Some(BooleanKind) {
      if inlineValue.Some? {
        var b := BooleanValue(inlineValue.value);
        if b.Failure? {
          return Failure(b.error), last;
        }
        return Success(SetFlag(parsed, flag, BoolFlag(b.value))), last;
      }
      return Success(SetFlag(parsed, flag, BoolFlag(true))), last;
    }
    if KindOf(flag) == Some(NumberKind) || KindOf(flag) == Some(TextKind) {
      var value;
      if inlineValue.Some? {
        value := inlineValue.value;
      } else {
        last := last + 1;
        var next := NextValue(tokens, last, flag);
        if next.Failure? {
          return Failure(next.error), last;
        }
        value := next.value;
      }
      var v := Coerce(num, flag, value);
      if v.Failure? {
        return Failure(v.error), last;
      }
      return Success(SetFlag(parsed, flag, v.value)), last;
    }
    r := Failure(UnsupportedOption(flag));
  }

  lemma ReadStep(num: Numerals, tokens: seq<string>, index: nat, r: Reader, next: nat, r': Reader)
    requires index < next <= |tokens| && Take(num, tokens[index..], r) == Success((r', next - index))
    ensures Read(num, tokens[index..], r) == Read(num, tokens[next..], r')
  {
    assert tokens[index..][next - index..] == tokens[next..];
  }

  /** The body of the `for` loop; `next` is where it goes on. */
  method ReadToken(num: Numerals, tokens: seq<string>, index: nat, r: Reader)
    returns (read: Result<Reader, ParseError>, next: nat)
    requires index < |tokens|
    ensures read.Success? ==>
            index < next <= |tokens| && Take(num, tokens[index..], r) == Success((read.value, next - index))
    ensures read.Failure? ==> Take(num, tokens[index..], r) == Failure(read.error)
  {
    var token, parsed, optionsEnded := tokens[index], r.parsed, r.ended;
    assert tokens[index..][0] == token;
    next := index + 1;
    if token == "" {
    } else if token == "--" {
      optionsEnded := true;
    } else if !optionsEnded && token == "-v" {
      parsed := SetFlag(parsed, "--verbose", BoolFlag(true));
    } else if !optionsEnded && token == "-vv" {
      parsed := SetFlag(parsed, "--verbose", NumberFlag(2.0));
    } else if !optionsEnded && token == "-n" {
      parsed := SetFlag(parsed, "--dry-run", BoolFlag(true));
    } else if !optionsEnded && LongOption(token) {
      var long, last := ReadLongFlag(num, tokens, index, parsed);
      if long.Failure? {
        return Failure(long.error), next;
      }
      parsed, next := long.value, last + 1;
    } else if !optionsEnded && Dashed(token) {
      return Failure(UnsupportedShort(token)), next;
    } else {
      parsed := parsed.(sourcePaths := parsed.sourcePaths + [token]);
    }
    read := Success(Reader(parsed, optionsEnded));
  }

  /** The `for` loop over the options and paths. */
  method ReadOptions(num: Numerals, tokens: seq<string>, start: nat) returns (r: Result<Parsed, ParseError>)
    requires start <= |tokens|
    ensures r == Read(num, tokens[start..], NOTHING)
  {
    var reader := NOTHING;
    var index := start;
    while index < |tokens|
      invariant start <= index <= |tokens|
      invariant Read(num, tokens[index..], reader) == Read(num, tokens[start..], NOTHING)
    {
      var read, next := ReadToken(num, tokens, index, reader);
      if read.Failure? {
        return Failure(read.error);
      }
      ReadStep(num, tokens, index, reader, next, read.value);
      reader, index := read.value, next;
    }
    r := Success(reader.parsed);
  }

  method ParseResticBackupCommand(num: Numerals, raw: string) returns (r: Result<Parsed, ParseError>)
    ensures r == ParsedCommand(num, raw)
  {
    var lexed := TokenizeShellLike(raw);
    if lexed.Failure? {
      return Failure(OpenQuote);
    }
    var tokens := lexed.value;
    if |tokens| == 0 {
      return Failure(EmptyCommand);
    }
    var index := SkipToOptions(tokens);
    if index.Failure? {
      return Failure(index.error);
    }
    r := ReadOptions(num, tokens, index.value);
    if r.Success? && |r.value.sourcePaths| == 0 {
      r := Failure(NoPaths);
    }
  }
}
