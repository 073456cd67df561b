/** The forms a pasted backup command can take that the preview never prints: inline values, short options, `--`,
    environment assignments, global options, and the commands that are refused. */
module CommandForms {
  import opened Wrappers
  import opened BackupArgs
  import opened BackupParser
  import opened CommandRoundTrip

  // ---- `--flag=value` ----

  lemma {:induction false} EqualsAt(flag: string, value: string)
    requires '=' !in flag
    ensures EqualsIndex(flag + "=" + value) == |flag|
  {
    var token := flag + "=" + value;
    if flag != "" {
      assert token[0] == flag[0] && flag[0] in flag && token[1..] == flag[1..] + "=" + value;
      EqualsAt(flag[1..], value);
    }
  }

  lemma InlineSplits(flag: string, value: string)
    requires '=' !in flag
    ensures SplitLongFlag(flag + "=" + value) == (flag, Some(value)) && SplitLongFlag(flag) == (flag, None)
  {
    EqualsAt(flag, value);
    NoEquals(flag);
    var token := flag + "=" + value;
    assert token[..|flag|] == flag && token[|flag| + 1..] == value;
  }

  predicate TakesValue(flag: string) {
    flag == "--exclude" || flag == "--tag" || KindOf(flag) == Some(NumberKind) || KindOf(flag) == Some(TextKind)
  }

  lemma ValueFlagNamed(flag: string)
    requires TakesValue(flag)
    ensures |flag| > 2 && flag[0] == '-' && flag[1] == '-' && '=' !in flag
  {
    if flag != "--exclude" && flag != "--tag" { FlagNamed(flag); }
  }

  lemma LongIsTakeLong(num: Numerals, tokens: seq<string>, r: Reader)
    requires tokens != [] && |tokens[0]| > 2 && tokens[0][0] == '-' && tokens[0][1] == '-' && !r.ended
    ensures Take(num, tokens, r) ==
            var l := TakeLong(num, tokens, r.parsed);
            if l.Failure? then Failure(l.error) else Success((r.(parsed := l.value.0), l.value.1))
  {
  }

  lemma InlineToken(flag: string, value: string)
    requires |flag| > 2 && flag[0] == '-' && flag[1] == '-'
    ensures var token := flag + "=" + value; |token| > 2 && token[0] == '-' && token[1] == '-'
  {
  }

  /** One turn of the reader over a token. */
  lemma ReadFirst(num: Numerals, tokens: seq<string>, r: Reader)
    requires tokens != []
    ensures var t := Take(num, tokens, r);
            Read(num, tokens, r) == if t.Failure? then Failure(t.error) else Read(num, tokens[t.value.1..], t.value.0)
  {
  }

  lemma InlineTakes(num: Numerals, flag: string, value: string, more: seq<string>, p: Parsed)
    requires TakesValue(flag) && '=' !in flag && value != ""
    ensures var inline := TakeLong(num, [flag + "=" + value] + more, p);
            var spaced := TakeLong(num, [flag, value] + more, p);
            if inline.Failure? then spaced == Failure(inline.error)
            else inline.value.1 == 1 && spaced == Success((inline.value.0, 2))
  {
    InlineSplits(flag, value);
    var inline, spaced := [flag + "=" + value] + more, [flag, value] + more;
    assert inline[0] == flag + "=" + value && spaced[0] == flag && spaced[1] == value;
  }

  /** Whatever flag takes a value, `--flag=value` reads as `--flag value`. */
  lemma InlineEqualsSpaced(num: Numerals, flag: string, value: string, more: seq<string>, r: Reader)
    requires TakesValue(flag) && value != "" && !r.ended
    ensures Read(num, [flag + "=" + value] + more, r) == Read(num, [flag, value] + more, r)
  {
    var inline, spaced := [flag + "=" + value] + more, [flag, value] + more;
    ValueFlagNamed(flag);
    InlineToken(flag, value);
    InlineTakes(num, flag, value, more, r.parsed);
    LongIsTakeLong(num, inline, r);
    LongIsTakeLong(num, spaced, r);
    ReadFirst(num, inline, r);
    ReadFirst(num, spaced, r);
    assert inline[1..] == more && spaced[2..] == more;
  }

  /** One turn over a long option. */
  lemma ReadLong(num: Numerals, tokens: seq<string>, r: Reader, p: Parsed, n: nat)
    requires tokens != [] && |tokens[0]| > 2 && tokens[0][0] == '-' && tokens[0][1] == '-' && !r.ended
    requires TakeLong(num, tokens, r.parsed) == Success((p, n))
    ensures n <= |tokens| && Read(num, tokens, r) == Read(num, tokens[n..], r.(parsed := p))
  {
    LongIsTakeLong(num, tokens, r);
    ReadFirst(num, tokens, r);
  }

  lemma ReadRefused(num: Numerals, tokens: seq<string>, r: Reader, e: ParseError)
    requires tokens != [] && |tokens[0]| > 2 && tokens[0][0] == '-' && tokens[0][1] == '-' && !r.ended
    requires TakeLong(num, tokens, r.parsed) == Failure(e)
    ensures Read(num, tokens, r) == Failure(e)
  {
    LongIsTakeLong(num, tokens, r);
  }

  /** A flag that takes a value is refused at the end and before an empty word. */
  lemma ValueMissing(num: Numerals, flag: string, more: seq<string>, r: Reader)
    requires TakesValue(flag) && !r.ended
    ensures Read(num, [flag], r) == Failure(MissingValue(flag))
    ensures Read(num, [flag, ""] + more, r) == Failure(MissingValue(flag))
  {
    ValueFlagNamed(flag);
    InlineSplits(flag, "");
    var spaced := [flag, ""] + more;
    assert spaced[0] == flag && spaced[1] == "";
    ReadRefused(num, [flag], r, MissingValue(flag));
    ReadRefused(num, spaced, r, MissingValue(flag));
  }

  function Added(p: Parsed, flag: string, value: string): Parsed {
    if flag == "--exclude" then p.(excludes := p.excludes + [value])
    else if flag == "--tag" then p.(tags := p.tags + [value])
    else p.(extraFlags := p.extraFlags[flag := TextFlag(value)])
  }

  /** An inline value is taken as it stands, the empty one too. */
  lemma InlineTaken(num: Numerals, flag: string, value: string, more: seq<string>, r: Reader)
    requires flag == "--exclude" || flag == "--tag" || KindOf(flag) == Some(TextKind)
    requires !r.ended
    ensures Read(num, [flag + "=" + value] + more, r) == Read(num, more, r.(parsed := Added(r.parsed, flag, value)))
  {
    ValueFlagNamed(flag);
    InlineSplits(flag, value);
    InlineToken(flag, value);
    var inline := [flag + "=" + value] + more;
    assert inline[0] == flag + "=" + value && inline[1..] == more;
    ReadLong(num, inline, r, Added(r.parsed, flag, value), 1);
  }

  /** A number flag takes what JavaScript reads as a finite number, and refuses the rest. */
  lemma NumberValue(num: Numerals, flag: string, value: string, more: seq<string>, r: Reader)
    requires KindOf(flag) == Some(NumberKind) && !r.ended
    ensures num.jsRead(value).Some? ==>
              Read(num, [flag + "=" + value] + more, r)
              == Read(num, more, WithFlag(r, flag, NumberFlag(num.jsRead(value).value)))
    ensures num.jsRead(value).None? ==> Read(num, [flag + "=" + value] + more, r) == Failure(NotANumber(flag))
  {
    FlagNamed(flag);
    InlineSplits(flag, value);
    InlineToken(flag, value);
    var inline := [flag + "=" + value] + more;
    assert inline[0] == flag + "=" + value && inline[1..] == more;
    if num.jsRead(value).Some? {
      ReadLong(num, inline, r, WithFlag(r, flag, NumberFlag(num.jsRead(value).value)).parsed, 1);
    } else {
      ReadRefused(num, inline, r, NotANumber(flag));
    }
  }

  function WithFlag(r: Reader, flag: string, value: FlagValue): Reader {
    r.(parsed := r.parsed.(extraFlags := r.parsed.extraFlags[flag := value]))
  }

  // ---- inline booleans ----

  /** `word` is `lower` with some of its letters in upper case. */
  predicate CaseOf(word: string, lower: string) {
    |word| == |lower| && forall i | 0 <= i < |word| ::
      word[i] == lower[i] || ('A' <= word[i] <= 'Z' && word[i] as int + 32 == lower[i] as int)
  }

  lemma LowerIs(word: string, lower: string)
    requires forall c | c in lower :: !('A' <= c <= 'Z')
    ensures LowerAscii(word) == lower <==> CaseOf(word, lower)
  {
    if LowerAscii(word) == lower {
      forall i | 0 <= i < |word|
        ensures word[i] == lower[i] || ('A' <= word[i] <= 'Z' && word[i] as int + 32 == lower[i] as int) {
        assert LowerAscii(word)[i] == lower[i];
      }
    }
    if CaseOf(word, lower) {
      assert forall i | 0 <= i < |lower| :: lower[i] in lower;
      assert LowerAscii(word) == lower;
    }
  }

  predicate SaysTrue(word: string) {
    CaseOf(word, "1") || CaseOf(word, "true") || CaseOf(word, "yes") || CaseOf(word, "on")
  }

  predicate SaysFalse(word: string) {
    CaseOf(word, "0") || CaseOf(word, "false") || CaseOf(word, "no") || CaseOf(word, "off")
  }

  lemma BooleanWords(word: string)
    ensures BooleanValue(word) == if SaysTrue(word) then Success(true)
                                  else if SaysFalse(word) then Success(false) else Failure(NotABoolean(word))
    ensures !(SaysTrue(word) && SaysFalse(word))
  {
    assert "on"[0] != "no"[0] && "yes"[0] != "off"[0];
    LowerIs(word, "1");
    LowerIs(word, "true");
    LowerIs(word, "yes");
    LowerIs(word, "on");
    LowerIs(word, "0");
    LowerIs(word, "false");
    LowerIs(word, "no");
    LowerIs(word, "off");
  }

  /** A boolean flag with an inline word: eight words in any case of their letters are taken, every other is refused. */
  lemma InlineBoolean(num: Numerals, flag: string, word: string, more: seq<string>, r: Reader)
    requires KindOf(flag) == Some(BooleanKind) && !r.ended
    ensures SaysTrue(word) ==>
              Read(num, [flag + "=" + word] + more, r) == Read(num, more, WithFlag(r, flag, BoolFlag(true)))
    ensures SaysFalse(word) ==>
              Read(num, [flag + "=" + word] + more, r) == Read(num, more, WithFlag(r, flag, BoolFlag(false)))
    ensures !SaysTrue(word) && !SaysFalse(word) ==>
              Read(num, [flag + "=" + word] + more, r) == Failure(NotABoolean(word))
  {
    FlagNamed(flag);
    InlineSplits(flag, word);
    InlineToken(flag, word);
    BooleanWords(word);
    var inline := [flag + "=" + word] + more;
    assert inline[0] == flag + "=" + word && inline[1..] == more;
    if SaysTrue(word) || SaysFalse(word) {
      ReadLong(num, inline, r, WithFlag(r, flag, BoolFlag(SaysTrue(word))).parsed, 1);
    } else {
      ReadRefused(num, inline, r, NotABoolean(word));
    }
  }

  /** Alone it is true, and takes nothing of what follows. */
  lemma BooleanAlone(num: Numerals, flag: string, more: seq<string>, r: Reader)
    requires KindOf(flag) == Some(BooleanKind) && !r.ended
    ensures Read(num, [flag] + more, r) == Read(num, more, WithFlag(r, flag, BoolFlag(true)))
  {
    FlagNamed(flag);
    InlineSplits(flag, "");
    var alone := [flag] + more;
    assert alone[0] == flag && alone[1..] == more;
    ReadLong(num, alone, r, WithFlag(r, flag, BoolFlag(true)).parsed, 1);
  }

  // ---- short options, `--` and paths ----

  /** The short options the parser knows. */
  lemma ShortOptions(num: Numerals, more: seq<string>, r: Reader)
    requires !r.ended
    ensures Read(num, ["-v"] + more, r) == Read(num, more, WithFlag(r, "--verbose", BoolFlag(true)))
    ensures Read(num, ["-vv"] + more, r) == Read(num, more, WithFlag(r, "--verbose", NumberFlag(2.0)))
    ensures Read(num, ["-n"] + more, r) == Read(num, more, WithFlag(r, "--dry-run", BoolFlag(true)))
  {
    ReadFirst(num, ["-v"] + more, r);
    ReadFirst(num, ["-vv"] + more, r);
    ReadFirst(num, ["-n"] + more, r);
    assert (["-v"] + more)[1..] == more && (["-vv"] + more)[1..] == more && (["-n"] + more)[1..] == more;
  }

  /** Every other short option is refused. */
  lemma ShortRefused(num: Numerals, token: string, more: seq<string>, r: Reader)
    requires token != "" && token[0] == '-' && (|token| == 1 || token[1] != '-')
    requires token != "-v" && token != "-vv" && token != "-n" && !r.ended
    ensures Read(num, [token] + more, r) == Failure(UnsupportedShort(token))
  {
    assert ([token] + more)[0] == token;
  }

  /** So is every long option of no known name, `--verbose` among them, with or without a value. */
  lemma LongRefused(num: Numerals, flag: string, value: string, more: seq<string>, r: Reader)
    requires |flag| > 2 && flag[0] == '-' && flag[1] == '-' && '=' !in flag && !r.ended
    requires flag == "--verbose" || (flag != "--exclude" && flag != "--tag" && KindOf(flag) == None)
    ensures Read(num, [flag] + more, r) == Failure(UnsupportedOption(flag))
    ensures Read(num, [flag + "=" + value] + more, r) == Failure(UnsupportedOption(flag))
  {
    InlineSplits(flag, value);
    InlineToken(flag, value);
    assert ([flag] + more)[0] == flag && ([flag + "=" + value] + more)[0] == flag + "=" + value;
    ReadRefused(num, [flag] + more, r, UnsupportedOption(flag));
    ReadRefused(num, [flag + "=" + value] + more, r, UnsupportedOption(flag));
  }

  /** A token without a dash is a path; after `--` every token is, dashes and all. */
  lemma PathToken(num: Numerals, token: string, more: seq<string>, r: Reader)
    requires token != ""
    ensures token[0] != '-' || (r.ended && token != "--") ==>
              Read(num, [token] + more, r) ==
              Read(num, more, r.(parsed := r.parsed.(sourcePaths := r.parsed.sourcePaths + [token])))
    ensures token == "--" ==> Read(num, [token] + more, r) == Read(num, more, r.(ended := true))
    ensures Read(num, [""] + more, r) == Read(num, more, r)
  {
    ReadFirst(num, [""] + more, r);
    assert ([""] + more)[1..] == more;
    ReadFirst(num, [token] + more, r);
    assert ([token] + more)[0] == token && ([token] + more)[1..] == more;
  }

  lemma {:induction false} PathsAfterEnd(num: Numerals, paths: seq<string>, p: Parsed)
    requires forall i | 0 <= i < |paths| :: paths[i] != "" && paths[i] != "--"
    ensures Read(num, paths, Reader(p, true)) == Success(p.(sourcePaths := p.sourcePaths + paths))
    decreases |paths|
  {
    if paths == [] {
      assert p.sourcePaths + [] == p.sourcePaths;
    } else {
      assert paths == [paths[0]] + paths[1..];
      PathToken(num, paths[0], paths[1..], Reader(p, true));
      PathsAfterEnd(num, paths[1..], p.(sourcePaths := p.sourcePaths + [paths[0]]));
      assert p.sourcePaths + [paths[0]] + paths[1..] == p.sourcePaths + paths;
    }
  }

  /** Whatever follows `--` is a source path, options included; only a second `--` is not. */
  lemma DashedPaths(num: Numerals, paths: seq<string>, p: Parsed)
    requires forall i | 0 <= i < |paths| :: paths[i] != "" && paths[i] != "--"
    ensures Read(num, ["--"] + paths, Reader(p, false)) == Success(p.(sourcePaths := p.sourcePaths + paths))
  {
    PathToken(num, "--", paths, Reader(p, false));
    PathsAfterEnd(num, paths, p);
  }

  // ---- up to the options ----

  /** An environment assignment before the command is skipped. */
  lemma AssignmentSkipped(name: string, value: string, tokens: seq<string>)
    requires name == "" || name[0] != '-'
    ensures SkipCommand([name + "=" + value] + tokens) == SkipCommand(tokens)
  {
    var token := name + "=" + value;
    assert token[|name|] == '=' && (name != "" ==> token[0] == name[0]);
    assert ([token] + tokens)[0] == token && ([token] + tokens)[1..] == tokens;
  }

  /** With or without `restic`, everything after `backup` is read; without both, so is everything, unless the first word
      is another command. */
  lemma CommandWords(args: seq<string>)
    ensures SkipCommand(["restic", "backup"] + args) == Success(args)
    ensures SkipCommand(["backup"] + args) == Success(args)
    ensures SkipCommand(["restic"]) == Failure(NotBackup)
    ensures args != [] && '=' !in args[0] && args[0] != "restic" && args[0] != "backup" ==>
              SkipCommand(args) == if Listed(args[0], OTHER_COMMANDS) then Failure(NotBackup) else Success(args)
  {
    var both, one := ["restic", "backup"] + args, ["backup"] + args;
    assert both[0] == "restic" && one[0] == "backup" && one[1..] == args;
    assert both[1..] == one && ["restic"][1..] == [];
    assert SkipAssignments(both) == both && SkipAssignments(one) == one && SkipGlobals(one) == one;
  }

  lemma {:induction false} SkipAfterRestic(tokens: seq<string>)
    ensures var rest := SkipGlobals(tokens);
            SkipCommand(["restic"] + tokens) ==
            if rest != [] && rest[0] == "backup" then Success(rest[1..]) else Failure(NotBackup)
  {
    var all := ["restic"] + tokens;
    assert all[0] == "restic" && all[1..] == tokens && SkipAssignments(all) == all;
  }

  /** A global option takes the next word with it unless that is dashed: with a value it is skipped, and so is one
      before another option. */
  lemma {:induction false} GlobalOptionSkipped(option: string, value: string, tokens: seq<string>)
    requires option != "" && option[0] == '-' && value != "" && value[0] != '-'
    ensures SkipCommand(["restic", option, value] + tokens) == SkipCommand(["restic"] + tokens)
    ensures tokens == [] || tokens[0] == "" || tokens[0][0] == '-' ==>
              SkipCommand(["restic", option] + tokens) == SkipCommand(["restic"] + tokens)
  {
    OptionWithValue(option, value, tokens);
    OptionAlone(option, tokens);
  }

  lemma {:induction false} OptionWithValue(option: string, value: string, tokens: seq<string>)
    requires option != "" && option[0] == '-' && value != "" && value[0] != '-'
    ensures SkipCommand(["restic", option, value] + tokens) == SkipCommand(["restic"] + tokens)
  {
    var long := [option, value] + tokens;
    assert ["restic", option, value] + tokens == ["restic"] + long;
    SkipAfterRestic(long);
    SkipAfterRestic(tokens);
    assert long[0] == option && long[1] == value && long[2..] == tokens;
    assert SkipGlobals(long) == SkipGlobals(tokens);
  }

  lemma {:induction false} OptionAlone(option: string, tokens: seq<string>)
    requires option != "" && option[0] == '-'
    ensures tokens == [] || tokens[0] == "" || tokens[0][0] == '-' ==>
              SkipCommand(["restic", option] + tokens) == SkipCommand(["restic"] + tokens)
  {
    var short := [option] + tokens;
    assert ["restic", option] + tokens == ["restic"] + short;
    SkipAfterRestic(short);
    SkipAfterRestic(tokens);
    assert short[0] == option && short[1..] == tokens;
  }

  /** A global option without a value right before `backup` swallows it: the command is then refused, unless a second
      `backup` or more options follow. */
  lemma {:induction false} OptionSwallowsBackup(option: string, args: seq<string>)
    requires option != "" && option[0] == '-'
    ensures SkipCommand(["restic", option, "backup"] + args) == SkipCommand(["restic"] + args)
    ensures args != [] && args[0] != "" && args[0][0] != '-' && args[0] != "backup" ==>
              SkipCommand(["restic", option, "backup"] + args) == Failure(NotBackup)
  {
    GlobalOptionSkipped(option, "backup", args);
    SkipAfterRestic(args);
  }

  /** `restic -q backup /data` is refused as another command. */
  lemma {:induction false} QuietBackupExample(num: Numerals)
    ensures ParsedTokens(num, ["restic", "-q", "backup", "/data"]) == Failure(NotBackup)
  {
    assert ["restic", "-q", "backup"] + ["/data"] == ["restic", "-q", "backup", "/data"];
    OptionSwallowsBackup("-q", ["/data"]);
  }

  /** Nothing to read, or no path in what is read. */
  lemma RefusedTexts(num: Numerals, tokens: seq<string>, args: seq<string>, p: Parsed)
    ensures ParsedTokens(num, []) == Failure(EmptyCommand)
    ensures tokens != [] && SkipCommand(tokens) == Success(args) && Read(num, args, NOTHING) == Success(p) ==>
              ParsedTokens(num, tokens) == if p.sourcePaths == [] then Failure(NoPaths) else Success(p)
  {
  }

  lemma {:induction false} ReadDryRun(num: Numerals, path: string)
    requires path != "" && path[0] != '-'
    ensures Read(num, ["-n", path], NOTHING) == Success(Parsed([path], [], [], map["--dry-run" := BoolFlag(true)]))
  {
    ShortOptions(num, [path], NOTHING);
    var r := WithFlag(NOTHING, "--dry-run", BoolFlag(true));
    PathToken(num, path, [], r);
    assert ["-n"] + [path] == ["-n", path] && [path] + [] == [path] && [] + [path] == [path];
  }

  /** `restic backup -n` and a path is read as a dry run of it. */
  lemma {:induction false} DryRunRead(num: Numerals, path: string)
    requires path != "" && path[0] != '-'
    ensures ParsedTokens(num, ["restic", "backup", "-n", path])
         == Success(Parsed([path], [], [], map["--dry-run" := BoolFlag(true)]))
  {
    var tokens, args := ["restic", "backup", "-n", path], ["-n", path];
    assert ["restic", "backup"] + args == tokens;
    CommandWords(args);
    ReadDryRun(num, path);
    RefusedTexts(num, tokens, args, Parsed([path], [], [], map["--dry-run" := BoolFlag(true)]));
  }
}
