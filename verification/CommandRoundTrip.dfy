/** Parsing the printed backup line: when `parseResticBackupCommand` returns the task that was printed. */
module CommandRoundTrip {
  import opened Wrappers
  import opened ShellText
  import opened BackupArgs
  import opened BackupParser

  /** JavaScript prints the number without spaces or backslashes and reads it back. */
  predicate LawfulNumber(num: Numerals, n: real) {
    Printable(num.jsText(n)) && num.jsRead(num.jsText(n)) == Some(n)
  }

  predicate LawfulValue(num: Numerals, value: FlagValue) {
    value.NumberFlag? ==> LawfulNumber(num, value.n)
  }

  predicate Lawful(num: Numerals, flags: FlagMap) {
    forall key | key in flags :: LawfulValue(num, flags[key])
  }

  /** The values the parser can give a flag. */
  predicate Producible(key: string, value: FlagValue) {
    match KindOf(key)
    case None => false
    case Some(VerboseKind) => value == BoolFlag(true) || value == NumberFlag(2.0)
    case Some(BooleanKind) => value.BoolFlag?
    case Some(NumberKind) => value.NumberFlag?
    case Some(TextKind) => value.TextFlag?
  }

  ghost predicate AllProducible(flags: FlagMap) {
    forall key | key in flags :: Producible(key, flags[key])
  }

  predicate Silent(value: FlagValue) {
    value == BoolFlag(false) || value == TextFlag("")
  }

  predicate PlainVerbose(key: string, value: FlagValue) {
    key == "--verbose" && value == BoolFlag(true)
  }

  /** A flag that is printed and read back as it was. */
  predicate Kept(key: string, value: FlagValue) {
    Producible(key, value) && !Silent(value) && !PlainVerbose(key, value)
    && (value.TextFlag? ==> !HasContinuation(value.text))
  }

  function Back(value: FlagValue): FlagValue {
    if value.TextFlag? then TextFlag(Unfold(value.text)) else value
  }

  /** The flags read back from the printed `keys`, added to `known`. */
  function Collect(flags: FlagMap, keys: seq<string>, known: FlagMap): FlagMap
    requires forall k | k in keys :: k in flags
    decreases |keys|
  {
    if keys == [] then known
    else
      var value := flags[keys[0]];
      Collect(flags, keys[1..], if Silent(value) then known else known[keys[0] := Back(value)])
  }

  predicate Named(key: string) {
    |key| > 2 && key[0] == '-' && key[1] == '-' && '=' !in key && '\\' !in key && key != "--exclude" && key != "--tag"
  }

  lemma FlagTablesNamed()
    ensures forall i | 0 <= i < |TEXT_FLAGS| :: Named(TEXT_FLAGS[i])
  {
  }

  lemma NumberTableNamed()
    ensures forall i | 0 <= i < |NUMBER_FLAGS| :: Named(NUMBER_FLAGS[i])
  {
  }

  lemma BooleanTableNamed()
    ensures forall i | 0 <= i < |BOOLEAN_FLAGS| :: Named(BOOLEAN_FLAGS[i])
  {
    assert forall i | 0 <= i < 7 :: Named(BOOLEAN_FLAGS[i]);
  }

  lemma {:induction false} ListedNamed(key: string, table: seq<string>)
    requires Listed(key, table) && forall i | 0 <= i < |table| :: Named(table[i])
    ensures Named(key)
  {
    if table[0] != key {
      ListedNamed(key, table[1..]);
    }
  }

  lemma FlagNamed(key: string)
    requires AllowedFlag(key)
    ensures Named(key) && !HasContinuation(key)
  {
    match KindOf(key).value {
    case VerboseKind =>
    case BooleanKind => BooleanTableNamed(); ListedNamed(key, BOOLEAN_FLAGS);
    case NumberKind => NumberTableNamed(); ListedNamed(key, NUMBER_FLAGS);
    case TextKind => FlagTablesNamed(); ListedNamed(key, TEXT_FLAGS);
    }
    NoBackslash(key);
  }

  lemma NoBackslash(s: string)
    requires '\\' !in s
    ensures !HasContinuation(s)
  {
    forall i | 0 <= i < |s| ensures ContinuationLength(s[i..]) == 0 {
      assert s[i] in s;
    }
  }

  lemma {:induction false} NoEquals(s: string)
    requires '=' !in s
    ensures EqualsIndex(s) == |s|
  {
    if s != "" {
      assert s[0] in s;
      NoEquals(s[1..]);
    }
  }

  // ---- what the printed words become ----

  lemma {:induction false} SurvivorsAppend(a: seq<string>, b: seq<string>)
    ensures Survivors(a + b) == Survivors(a) + Survivors(b)
  {
    if a == [] {
      assert a + b == b;
    } else {
      SurvivorsAppend(a[1..], b);
      assert (a + b)[0] == a[0] && (a + b)[1..] == a[1..] + b;
      var first := if a[0] == "" then [] else [Unfold(a[0])];
      assert first + (Survivors(a[1..]) + Survivors(b)) == first + Survivors(a[1..]) + Survivors(b);
    }
  }

  lemma {:induction false} SurvivorsOfOne(s: string)
    requires s != ""
    ensures Survivors([s]) == [Unfold(s)]
  {
    assert Survivors([s][1..]) == [];
  }

  lemma {:induction false} SurvivorsOfTwo(s: string, t: string)
    requires s != "" && t != ""
    ensures Survivors([s, t]) == [Unfold(s), Unfold(t)]
  {
    assert [s, t] == [s] + [t];
    SurvivorsAppend([s], [t]);
    SurvivorsOfOne(s);
    SurvivorsOfOne(t);
  }

  predicate NoneEmpty(items: seq<string>) {
    forall i | 0 <= i < |items| :: items[i] != ""
  }

  lemma {:induction false} SurvivorsOfPairs(flag: string, items: seq<string>)
    requires flag != "" && AllPlain(flag) && NoneEmpty(items)
    ensures Survivors(Pairs(flag, items)) == Pairs(flag, Survivors(items))
  {
    if items != [] {
      assert items[0] in items;
      PlainIsFixed(flag);
      SurvivorsOfPairs(flag, items[1..]);
      SurvivorsAppend([flag, items[0]], Pairs(flag, items[1..]));
      SurvivorsOfTwo(flag, items[0]);
      var rest := Survivors(items[1..]);
      assert Survivors(items) == [Unfold(items[0])] + rest;
      assert ([Unfold(items[0])] + rest)[1..] == rest;
    }
  }

  lemma {:induction false} SurvivorsFilled(items: seq<string>)
    requires NoneEmpty(items)
    ensures |Survivors(items)| == |items| && NoneEmpty(Survivors(items))
    ensures forall i | 0 <= i < |items| :: Survivors(items)[i] == Unfold(items[i])
  {
    if items != [] {
      assert items[0] in items;
      UnfoldFixed(items[0]);
      SurvivorsFilled(items[1..]);
      assert Survivors(items) == [Unfold(items[0])] + Survivors(items[1..]);
    }
  }

  // ---- reading one flag ----

  lemma TakeVerbose2(num: Numerals, more: seq<string>, r: Reader)
    requires !r.ended
    ensures Take(num, ["-vv"] + more, r) == Success((r.(parsed := SetFlag(r.parsed, "--verbose", NumberFlag(2.0))), 1))
  {
  }

  lemma NamedSplits(key: string)
    requires Named(key)
    ensures SplitLongFlag(key) == (key, None)
  {
    NoEquals(key);
  }

  lemma TakeBoolean(num: Numerals, key: string, more: seq<string>, r: Reader)
    requires KindOf(key) == Some(BooleanKind) && Named(key) && !r.ended
    ensures Take(num, [key] + more, r) == Success((r.(parsed := SetFlag(r.parsed, key, BoolFlag(true))), 1))
  {
    NamedSplits(key);
    assert ([key] + more)[0] == key;
  }

  lemma TakePlainVerbose(num: Numerals, key: string, more: seq<string>, r: Reader)
    requires KindOf(key) == Some(VerboseKind) && Named(key) && !r.ended
    ensures Take(num, [key] + more, r).Failure?
  {
    NamedSplits(key);
    assert ([key] + more)[0] == key;
  }

  lemma TakeValue(num: Numerals, key: string, word: string, more: seq<string>, r: Reader, value: FlagValue)
    requires KindOf(key) == Some(NumberKind) || KindOf(key) == Some(TextKind)
    requires Named(key) && !r.ended && word != "" && Coerce(num, key, word) == Success(value)
    ensures Take(num, [key, word] + more, r) == Success((r.(parsed := SetFlag(r.parsed, key, value)), 2))
  {
    NamedSplits(key);
    var tokens := [key, word] + more;
    assert tokens[0] == key && tokens[1] == word;
  }

  lemma ReadTaken(num: Numerals, chunk: seq<string>, more: seq<string>, r: Reader, r': Reader)
    requires chunk != [] && Take(num, chunk + more, r) == Success((r', |chunk|))
    ensures Read(num, chunk + more, r) == Read(num, more, r')
  {
    assert (chunk + more)[|chunk|..] == more;
  }

  ghost predicate Takes(num: Numerals, key: string, value: FlagValue, more: seq<string>, r: Reader) {
    var chunk := Survivors(JsFlag(num, key, value));
    chunk != [] && Take(num, chunk + more, r) == Success((r.(parsed := SetFlag(r.parsed, key, Back(value))), |chunk|))
  }

  lemma TakeNumberFlag(num: Numerals, key: string, n: real, more: seq<string>, r: Reader)
    requires LawfulNumber(num, n) && !r.ended && Named(key) && Unfold(key) == key && KindOf(key) == Some(NumberKind)
    ensures Takes(num, key, NumberFlag(n), more, r)
  {
    var word := num.jsText(n);
    UnfoldFixed(word);
    SurvivorsOfTwo(key, word);
    TakeValue(num, key, word, more, r, NumberFlag(n));
    assert JsFlag(num, key, NumberFlag(n)) == [key, word];
  }

  lemma TakeTextFlag(num: Numerals, key: string, text: string, more: seq<string>, r: Reader)
    requires !r.ended && Named(key) && Unfold(key) == key && KindOf(key) == Some(TextKind) && text != ""
    ensures Takes(num, key, TextFlag(text), more, r)
  {
    UnfoldFixed(text);
    SurvivorsOfTwo(key, text);
    TakeValue(num, key, Unfold(text), more, r, TextFlag(Unfold(text)));
    assert JsFlag(num, key, TextFlag(text)) == [key, text];
  }

  lemma TakeBooleanFlag(num: Numerals, key: string, more: seq<string>, r: Reader)
    requires !r.ended && Named(key) && Unfold(key) == key
    requires Producible(key, BoolFlag(true)) && !PlainVerbose(key, BoolFlag(true))
    ensures Takes(num, key, BoolFlag(true), more, r)
  {
    SurvivorsOfOne(key);
    TakeBoolean(num, key, more, r);
  }

  lemma TakeVerboseFlag(num: Numerals, key: string, value: FlagValue, more: seq<string>, r: Reader)
    requires !r.ended && key == "--verbose" && value != BoolFlag(true) && Producible(key, value) && !Silent(value)
    ensures Takes(num, key, value, more, r)
  {
    SurvivorsOfOne("-vv");
    PlainIsFixed("-vv");
    TakeVerbose2(num, more, r);
  }

  lemma TakeFlag(num: Numerals, key: string, value: FlagValue, more: seq<string>, r: Reader)
    requires LawfulValue(num, value) && !r.ended && Named(key) && Unfold(key) == key
    requires Producible(key, value) && !Silent(value) && !PlainVerbose(key, value)
    ensures Takes(num, key, value, more, r)
  {
    if value == BoolFlag(true) {
      TakeBooleanFlag(num, key, more, r);
    } else if key == "--verbose" {
      TakeVerboseFlag(num, key, value, more, r);
    } else if value.NumberFlag? {
      TakeNumberFlag(num, key, value.n, more, r);
    } else {
      TakeTextFlag(num, key, value.text, more, r);
    }
  }

  /** One printed flag is read back as itself, up to the continuations inside its text. */
  lemma ReadFlag(num: Numerals, key: string, value: FlagValue, more: seq<string>, r: Reader)
    requires LawfulValue(num, value) && !r.ended
    requires Producible(key, value) && !Silent(value) && !PlainVerbose(key, value)
    ensures Read(num, Survivors(JsFlag(num, key, value)) + more, r)
         == Read(num, more, r.(parsed := SetFlag(r.parsed, key, Back(value))))
  {
    FlagNamed(key);
    UnfoldFixed(key);
    var chunk := Survivors(JsFlag(num, key, value));
    var r' := r.(parsed := SetFlag(r.parsed, key, Back(value)));
    TakeFlag(num, key, value, more, r);
    ReadTaken(num, chunk, more, r, r');
  }

  lemma ReadPlainVerbose(num: Numerals, key: string, more: seq<string>, r: Reader)
    requires key == "--verbose" && !r.ended
    ensures Read(num, Survivors(JsFlag(num, key, BoolFlag(true))) + more, r).Failure?
  {
    FlagNamed(key);
    UnfoldFixed(key);
    SurvivorsOfOne(key);
    TakePlainVerbose(num, key, more, r);
  }

  /** `--verbose` printed for `true`, which the parser refuses. */
  predicate Refused(flags: FlagMap, keys: seq<string>)
    requires forall k | k in keys :: k in flags
  {
    keys != [] && (PlainVerbose(keys[0], flags[keys[0]]) || Refused(flags, keys[1..]))
  }

  lemma {:induction false} FlagArgsHead(num: Numerals, flags: FlagMap, keys: seq<string>, more: seq<string>)
    requires keys != [] && forall k | k in keys :: k in flags
    ensures Survivors(JsFlagArgs(num, flags, keys)) + more
         == Survivors(JsFlag(num, keys[0], flags[keys[0]])) + (Survivors(JsFlagArgs(num, flags, keys[1..])) + more)
  {
    var first, rest := JsFlag(num, keys[0], flags[keys[0]]), JsFlagArgs(num, flags, keys[1..]);
    SurvivorsAppend(first, rest);
    assert JsFlagArgs(num, flags, keys) == first + rest;
    var a, b := Survivors(first), Survivors(rest);
    assert a + b + more == a + (b + more);
  }

  /** The printed flags are read back together, unless `--verbose` stands among them. */
  lemma {:induction false} ReadFlags(num: Numerals, flags: FlagMap, keys: seq<string>, more: seq<string>, r: Reader)
    requires Lawful(num, flags) && !r.ended
    requires forall k | k in keys :: k in flags && Producible(k, flags[k])
    ensures var after := Read(num, Survivors(JsFlagArgs(num, flags, keys)) + more, r);
            if Refused(flags, keys) then after.Failure?
            else after == Read(num, more,
                r.(parsed := r.parsed.(extraFlags := Collect(flags, keys, r.parsed.extraFlags))))
    decreases |keys|
  {
    if keys == [] {
      assert [] + more == more;
    } else {
      var key, value := keys[0], flags[keys[0]];
      var rest := Survivors(JsFlagArgs(num, flags, keys[1..])) + more;
      FlagArgsHead(num, flags, keys, more);
      if PlainVerbose(key, value) {
        ReadPlainVerbose(num, key, rest, r);
      } else if Silent(value) {
        assert [] + rest == rest;
        ReadFlags(num, flags, keys[1..], more, r);
      } else {
        ReadFlag(num, key, value, rest, r);
        ReadFlags(num, flags, keys[1..], more, r.(parsed := SetFlag(r.parsed, key, Back(value))));
      }
    }
  }

  // ---- reading the lists ----

  predicate ListFlag(flag: string) {
    flag == "--exclude" || flag == "--tag"
  }

  function Push(r: Reader, flag: string, items: seq<string>): Reader {
    if flag == "--exclude" then r.(parsed := r.parsed.(excludes := r.parsed.excludes + items))
    else r.(parsed := r.parsed.(tags := r.parsed.tags + items))
  }

  lemma PushSplits(r: Reader, flag: string, items: seq<string>)
    ensures Push(r, flag, []) == r
    ensures items != [] ==> Push(Push(r, flag, [items[0]]), flag, items[1..]) == Push(r, flag, items)
  {
    assert r.parsed.excludes + [] == r.parsed.excludes && r.parsed.tags + [] == r.parsed.tags;
    if items != [] {
      assert [items[0]] + items[1..] == items;
      assert r.parsed.excludes + [items[0]] + items[1..] == r.parsed.excludes + ([items[0]] + items[1..]);
      assert r.parsed.tags + [items[0]] + items[1..] == r.parsed.tags + ([items[0]] + items[1..]);
    }
  }

  lemma ListFlagSplits(flag: string)
    requires ListFlag(flag)
    ensures SplitLongFlag(flag) == (flag, None) && LongOption(flag) && AllPlain(flag)
  {
    NoEquals(flag);
  }

  lemma TakeItem(num: Numerals, flag: string, item: string, more: seq<string>, r: Reader)
    requires ListFlag(flag) && SplitLongFlag(flag) == (flag, None) && LongOption(flag) && |flag| > 2
    requires !r.ended && item != ""
    ensures Take(num, [flag, item] + more, r) == Success((Push(r, flag, [item]), 2))
  {
    var tokens := [flag, item] + more;
    assert tokens[0] == flag && tokens[1] == item;
  }

  lemma {:induction false} PairsHead(flag: string, items: seq<string>, more: seq<string>)
    requires items != []
    ensures Pairs(flag, items) + more == [flag, items[0]] + (Pairs(flag, items[1..]) + more)
  {
  }

  /** Excludes, or tags, are read back in order. */
  lemma {:induction false} ReadItems(num: Numerals, flag: string, items: seq<string>, more: seq<string>, r: Reader)
    requires ListFlag(flag) && !r.ended && NoneEmpty(items)
    ensures Read(num, Pairs(flag, items) + more, r) == Read(num, more, Push(r, flag, items))
    decreases |items|
  {
    PushSplits(r, flag, items);
    if items == [] {
      assert [] + more == more;
    } else {
      var rest := Pairs(flag, items[1..]) + more;
      PairsHead(flag, items, more);
      ListFlagSplits(flag);
      TakeItem(num, flag, items[0], rest, r);
      ReadTaken(num, [flag, items[0]], rest, r, Push(r, flag, [items[0]]));
      ReadItems(num, flag, items[1..], more, Push(r, flag, [items[0]]));
    }
  }

  predicate NoneDashed(paths: seq<string>) {
    forall i | 0 <= i < |paths| :: !Dashed(paths[i])
  }

  lemma TakeGrows(num: Numerals, tokens: seq<string>, r: Reader)
    requires tokens != [] && Take(num, tokens, r).Success?
    ensures var (r', used) := Take(num, tokens, r).value;
            |r'.parsed.sourcePaths| <= |r.parsed.sourcePaths| + 1
            && (Dashed(tokens[0]) && !r.ended ==> r'.parsed.sourcePaths == r.parsed.sourcePaths)
  {
  }

  /** Each token yields at most one path. */
  lemma {:induction false} PathsBounded(num: Numerals, tokens: seq<string>, r: Reader)
    ensures Read(num, tokens, r).Success? ==>
            |Read(num, tokens, r).value.sourcePaths| <= |r.parsed.sourcePaths| + |tokens|
    decreases |tokens|
  {
    if tokens != [] && Take(num, tokens, r).Success? {
      TakeGrows(num, tokens, r);
      var (r', used) := Take(num, tokens, r).value;
      PathsBounded(num, tokens[used..], r');
    }
  }

  /** Paths are read as they stand; one that starts with `-` is lost. */
  lemma {:induction false} ReadPaths(num: Numerals, paths: seq<string>, r: Reader)
    requires !r.ended && NoneEmpty(paths)
    ensures NoneDashed(paths) ==>
            Read(num, paths, r) == Success(r.parsed.(sourcePaths := r.parsed.sourcePaths + paths))
    ensures !NoneDashed(paths) && Read(num, paths, r).Success? ==>
            |Read(num, paths, r).value.sourcePaths| < |r.parsed.sourcePaths| + |paths|
    decreases |paths|
  {
    if paths == [] {
      assert r.parsed.sourcePaths + paths == r.parsed.sourcePaths;
    } else if Dashed(paths[0]) {
      if Take(num, paths, r).Success? {
        TakeGrows(num, paths, r);
        PathsBounded(num, paths[Take(num, paths, r).value.1..], Take(num, paths, r).value.0);
      }
    } else {
      var r' := r.(parsed := r.parsed.(sourcePaths := r.parsed.sourcePaths + [paths[0]]));
      assert Take(num, paths, r) == Success((r', 1));
      ReadPaths(num, paths[1..], r');
      assert r.parsed.sourcePaths + [paths[0]] + paths[1..] == r.parsed.sourcePaths + paths;
      assert NoneDashed(paths) <==> NoneDashed(paths[1..]);
    }
  }

  // ---- the flags a parse can yield ----

  lemma TakeLongProducible(num: Numerals, tokens: seq<string>, p: Parsed)
    requires tokens != [] && AllProducible(p.extraFlags) && TakeLong(num, tokens, p).Success?
    ensures AllProducible(TakeLong(num, tokens, p).value.0.extraFlags)
  {
  }

  lemma TakeProducible(num: Numerals, tokens: seq<string>, r: Reader)
    requires tokens != [] && AllProducible(r.parsed.extraFlags) && Take(num, tokens, r).Success?
    ensures AllProducible(Take(num, tokens, r).value.0.parsed.extraFlags)
  {
    assert KindOf("--dry-run") == Some(BooleanKind) by {
      assert BOOLEAN_FLAGS[1..][0] == "--dry-run";
    }
    if LongOption(tokens[0]) && TakeLong(num, tokens, r.parsed).Success? {
      TakeLongProducible(num, tokens, r.parsed);
    }
  }

  lemma {:induction false} ReadProducible(num: Numerals, tokens: seq<string>, r: Reader)
    requires AllProducible(r.parsed.extraFlags)
    ensures Read(num, tokens, r).Success? ==> AllProducible(Read(num, tokens, r).value.extraFlags)
    decreases |tokens|
  {
    if tokens != [] && Take(num, tokens, r).Success? {
      TakeProducible(num, tokens, r);
      var (r', used) := Take(num, tokens, r).value;
      ReadProducible(num, tokens[used..], r');
    }
  }

  // ---- the words of the printed line ----

  function Environment(repo: Option<Repository>): seq<string> {
    var repository := RepositoryPreview(repo);
    if repository != "" then ["RESTIC_REPOSITORY=" + Unfold(repository)] else []
  }

  lemma {:induction false} CommandWords(first: string, args: seq<string>)
    requires args != [] && first != "" && AllPlain(first)
    ensures first + " " + PrintedLine(args) == PrintedLine([first] + args)
  {
    PrintedHead([first] + args);
    assert ([first] + args)[1..] == args;
  }

  function EnvironmentText(repo: Option<Repository>): string {
    if RepositoryPreview(repo) == "" then "" else "RESTIC_REPOSITORY=" + ShellQuote(RepositoryPreview(repo)) + " "
  }

  lemma PreviewIsPrinted(repo: Option<Repository>, args: seq<string>)
    requires args != []
    ensures CommandPreview(repo, args) == EnvironmentText(repo) + PrintedLine(["restic"] + args)
  {
    var first := "restic";
    CommandWords(first, args);
    assert "restic " == first + " ";
    var env, line := EnvironmentText(repo), PrintedLine(args);
    assert env + "restic " + line == env + ("restic " + line);
  }

  /** `NAME=value ` in front of a command is one word, whatever the value holds. */
  lemma LexAssignment(name: string, value: string, tail: string)
    requires name != "" && AllPlain(name)
    ensures LexAll(FRESH, Unfold(name + ShellQuote(value) + " " + tail))
         == LexAll(FRESH.(tokens := [name + Unfold(value)]), Unfold(tail))
  {
    var word := ShellQuote(value);
    QuoteEnds(value);
    UnfoldAppend(name, word);
    PlainIsFixed(name);
    UnfoldWordAndSpace(name + word, tail);
    var l1 := FRESH.(current := name);
    LexPlain(FRESH, name);
    assert "" + name == name;
    LexAppend(FRESH, name, Unfold(word));
    LexQuoted(l1, value);
    var closed := FRESH.(tokens := [name + Unfold(value)]);
    assert [] + [name + Unfold(value)] == [name + Unfold(value)];
    LexClose(FRESH, name + Unfold(word), Unfold(tail), closed);
  }

  lemma AssignmentName()
    ensures AllPlain("RESTIC_REPOSITORY=") && Assignment("RESTIC_REPOSITORY=")
  {
    assert "RESTIC_REPOSITORY="[17] == '=';
  }

  /** The words of any printed command line. */
  lemma LineTokens(repo: Option<Repository>, args: seq<string>)
    requires args != []
    ensures Tokens(CommandPreview(repo, args)) == Success(Environment(repo) + (["restic"] + Survivors(args)))
  {
    PreviewIsPrinted(repo, args);
    SurvivorsOfCommand("restic", args);
    if RepositoryPreview(repo) == "" {
      LineWithoutRepository(repo, ["restic"] + args);
    } else {
      LineWithRepository(repo, ["restic"] + args);
    }
  }

  lemma LineWithoutRepository(repo: Option<Repository>, words: seq<string>)
    requires RepositoryPreview(repo) == ""
    ensures Tokens("" + PrintedLine(words)) == Success(Environment(repo) + Survivors(words))
  {
    assert "" + PrintedLine(words) == PrintedLine(words);
    assert [] + Survivors(words) == Survivors(words);
    PrintedLineLexes(words);
  }

  lemma LineWithRepository(repo: Option<Repository>, words: seq<string>)
    requires RepositoryPreview(repo) != ""
    ensures Tokens("RESTIC_REPOSITORY=" + ShellQuote(RepositoryPreview(repo)) + " " + PrintedLine(words))
         == Success(Environment(repo) + Survivors(words))
  {
    AssignmentName();
    LexAssignment("RESTIC_REPOSITORY=", RepositoryPreview(repo), PrintedLine(words));
    LexPrinted(FRESH.(tokens := Environment(repo)), words);
  }

  lemma SkipPrinted(repo: Option<Repository>, rest: seq<string>)
    ensures SkipCommand(Environment(repo) + (["restic"] + (["backup"] + rest))) == Success(rest)
  {
    var command := ["restic"] + (["backup"] + rest);
    var tokens := Environment(repo) + command;
    assert command[0] == "restic" && command[1..] == ["backup"] + rest && (["backup"] + rest)[1..] == rest;
    assert SkipAssignments(tokens) == command by {
      assert SkipAssignments(command) == command;
      if Environment(repo) != [] {
        AssignmentName();
        var first := tokens[0];
        assert first[17] == '=' && first[0] == 'R';
        assert tokens[1..] == command;
      } else {
        assert tokens == command;
      }
    }
  }

  // ---- reading the whole line ----

  /** The flags read back from a printed line, with the `--json` the printer may have added. */
  function ReadBackFlags(num: Numerals, flags: FlagMap, keys: seq<string>): FlagMap
    requires forall k | k in keys :: k in flags
  {
    var read := Collect(flags, keys, map[]);
    if Json(JsFlagArgs(num, flags, keys)) == [] then read else read["--json" := BoolFlag(true)]
  }

  /** The words of excludes, tags and paths. */
  function ListWords(e: seq<string>, t: seq<string>, p: seq<string>): seq<string> {
    Pairs("--exclude", e) + (Pairs("--tag", t) + p)
  }

  /** The words after `restic backup`. */
  function OptionWords(f: seq<string>, e: seq<string>, t: seq<string>, p: seq<string>): seq<string> {
    Survivors(f) + (Json(f) + ListWords(Survivors(e), Survivors(t), Survivors(p)))
  }

  lemma SurvivorsOfThree(a: seq<string>, b: seq<string>, c: seq<string>)
    ensures Survivors(a + b + c) == Survivors(a) + (Survivors(b) + Survivors(c))
    ensures Survivors(a + (b + c)) == Survivors(a) + (Survivors(b) + Survivors(c))
  {
    assert a + b + c == a + (b + c);
    SurvivorsAppend(a, b + c);
    SurvivorsAppend(b, c);
  }

  lemma SurvivorsOfItems(flag: string, items: seq<string>)
    requires ListFlag(flag) && NoneEmpty(items)
    ensures Survivors(Pairs(flag, items)) == Pairs(flag, Survivors(items))
  {
    ListFlagSplits(flag);
    SurvivorsOfPairs(flag, items);
  }

  lemma SurvivorsOfLists(e: seq<string>, t: seq<string>, p: seq<string>)
    requires NoneEmpty(e) && NoneEmpty(t)
    ensures Survivors(Lists(e, t, p)) == ListWords(Survivors(e), Survivors(t), Survivors(p))
  {
    SurvivorsOfThree(Pairs("--exclude", e), Pairs("--tag", t), p);
    SurvivorsOfItems("--exclude", e);
    SurvivorsOfItems("--tag", t);
  }

  lemma SurvivorsOfJson(f: seq<string>)
    ensures Survivors(Json(f)) == Json(f)
  {
    SurvivorsOfOne("--json");
    PlainIsFixed("--json");
  }

  lemma SurvivorsOfCommand(first: string, rest: seq<string>)
    requires first != "" && AllPlain(first)
    ensures Survivors([first] + rest) == [first] + Survivors(rest)
  {
    SurvivorsAppend([first], rest);
    SurvivorsOfOne(first);
    PlainIsFixed(first);
  }

  lemma PrintedWords(f: seq<string>, e: seq<string>, t: seq<string>, p: seq<string>)
    requires NoneEmpty(e) && NoneEmpty(t)
    ensures Survivors(Assemble(f, e, t, p)) == ["backup"] + OptionWords(f, e, t, p)
  {
    AssembleParts(f, e, t, p);
    SurvivorsOfCommand("backup", f + (Json(f) + Lists(e, t, p)));
    SurvivorsOfThree(f, Json(f), Lists(e, t, p));
    SurvivorsOfJson(f);
    SurvivorsOfLists(e, t, p);
  }

  lemma ReadJson(num: Numerals, more: seq<string>, r: Reader)
    requires !r.ended
    ensures Read(num, ["--json"] + more, r)
            == Read(num, more, r.(parsed := SetFlag(r.parsed, "--json", BoolFlag(true))))
  {
    var key := "--json";
    FlagNamed(key);
    TakeBoolean(num, key, more, r);
    ReadTaken(num, [key], more, r, r.(parsed := SetFlag(r.parsed, key, BoolFlag(true))));
  }

  lemma ReadLists(num: Numerals, e: seq<string>, t: seq<string>, p: seq<string>, flags: FlagMap)
    requires NoneEmpty(e) && NoneEmpty(t)
    ensures Read(num, ListWords(e, t, p), Reader(Parsed([], [], [], flags), false))
         == Read(num, p, Reader(Parsed([], e, t, flags), false))
  {
    var r := Reader(Parsed([], [], [], flags), false);
    ReadItems(num, "--exclude", e, Pairs("--tag", t) + p, r);
    assert [] + e == e && [] + t == t;
    ReadItems(num, "--tag", t, p, Push(r, "--exclude", e));
  }

  /** Everything before the paths is read back, unless `--verbose` was printed for `true`. */
  lemma ReadPrinted(num: Numerals, flags: FlagMap, keys: seq<string>, e: seq<string>, t: seq<string>, p: seq<string>)
    requires Lawful(num, flags) && NoneEmpty(e) && NoneEmpty(t)
    requires forall k | k in keys :: k in flags && Producible(k, flags[k])
    ensures var f := JsFlagArgs(num, flags, keys);
            var after := Read(num, Survivors(f) + (Json(f) + ListWords(e, t, p)), NOTHING);
            if Refused(flags, keys) then after.Failure?
            else after == Read(num, p, Reader(Parsed([], e, t, ReadBackFlags(num, flags, keys)), false))
  {
    var f := JsFlagArgs(num, flags, keys);
    var lists := ListWords(e, t, p);
    ReadFlags(num, flags, keys, Json(f) + lists, NOTHING);
    if !Refused(flags, keys) {
      var r := Reader(Parsed([], [], [], Collect(flags, keys, map[])), false);
      if Json(f) == [] {
        assert [] + lists == lists;
      } else {
        ReadJson(num, lists, r);
      }
      ReadLists(num, e, t, p, ReadBackFlags(num, flags, keys));
    }
  }

  // ---- when the flags come back unchanged ----

  lemma {:induction false} CollectHas(flags: FlagMap, keys: seq<string>, known: FlagMap, k: string)
    requires forall k | k in keys :: k in flags
    ensures k in keys && !Silent(flags[k]) ==>
            k in Collect(flags, keys, known) && Collect(flags, keys, known)[k] == Back(flags[k])
    ensures !(k in keys && !Silent(flags[k])) ==>
            (k in Collect(flags, keys, known) <==> k in known)
            && (k in known ==> Collect(flags, keys, known)[k] == known[k])
    decreases |keys|
  {
    if keys != [] {
      var value := flags[keys[0]];
      assert keys == [keys[0]] + keys[1..];
      CollectHas(flags, keys[1..], if Silent(value) then known else known[keys[0] := Back(value)], k);
    }
  }

  lemma {:induction false} FlagShown(num: Numerals, flags: FlagMap, keys: seq<string>, key: string)
    requires forall k | k in keys :: k in flags
    requires key in keys && flags[key] == BoolFlag(true)
    ensures key in JsFlagArgs(num, flags, keys)
  {
    if keys[0] == key {
      assert key in JsFlag(num, key, flags[key]);
    } else {
      FlagShown(num, flags, keys[1..], key);
    }
  }

  lemma {:induction false} RefusedExactly(flags: FlagMap, keys: seq<string>)
    requires forall k | k in keys :: k in flags
    ensures Refused(flags, keys) <==> exists k | k in keys :: PlainVerbose(k, flags[k])
  {
    if keys != [] {
      RefusedExactly(flags, keys[1..]);
      assert keys == [keys[0]] + keys[1..];
    }
  }

  ghost predicate AllKept(flags: FlagMap) {
    forall key | key in flags :: Kept(key, flags[key])
  }

  lemma KeptIsFixed(key: string, value: FlagValue)
    requires Producible(key, value) && !PlainVerbose(key, value)
    ensures Kept(key, value) <==> !Silent(value) && Back(value) == value
  {
    if value.TextFlag? {
      UnfoldFixed(value.text);
    }
  }

  /** The flags come back unchanged exactly when each is kept and `--json` did not have to be added. */
  lemma FlagsReadBack(num: Numerals, flags: FlagMap, keys: seq<string>)
    requires forall k :: k in keys <==> k in flags
    requires AllProducible(flags) && !Refused(flags, keys)
    ensures ReadBackFlags(num, flags, keys) == flags <==> AllKept(flags) && Json(JsFlagArgs(num, flags, keys)) == []
  {
    RefusedExactly(flags, keys);
    var read := ReadBackFlags(num, flags, keys);
    forall k ensures (k in Collect(flags, keys, map[]) <==> k in flags && !Silent(flags[k]))
        && (k in Collect(flags, keys, map[]) ==> Collect(flags, keys, map[])[k] == Back(flags[k])) {
      CollectHas(flags, keys, map[], k);
    }
    forall k | k in flags ensures Kept(k, flags[k]) <==> !Silent(flags[k]) && Back(flags[k]) == flags[k] {
      KeptIsFixed(k, flags[k]);
    }
    if Json(JsFlagArgs(num, flags, keys)) != [] {
      if read == flags {
        assert flags["--json"] == BoolFlag(true);
        FlagShown(num, flags, keys, "--json");
        assert false;
      }
    } else if read == flags {
      assert forall k | k in flags :: k in read && read[k] == flags[k];
    }
  }

  // ---- the round trip ----

  lemma {:induction false} JsItemsFilled(items: seq<Item>)
    ensures NoneEmpty(JsItems(items))
  {
    if items != [] { JsItemsFilled(items[1..]); }
  }

  lemma ArraysFilled(task: Task)
    ensures NoneEmpty(JsonArray(task.sourcePaths)) && NoneEmpty(JsonArray(task.excludes))
            && NoneEmpty(JsonArray(task.tags))
  {
    if task.sourcePaths.Items? { JsItemsFilled(task.sourcePaths.items); }
    if task.excludes.Items? { JsItemsFilled(task.excludes.items); }
    if task.tags.Items? { JsItemsFilled(task.tags.items); }
  }

  predicate Unbroken(items: seq<string>) {
    forall i | 0 <= i < |items| :: !HasContinuation(items[i])
  }

  lemma UnbrokenSurvive(items: seq<string>)
    requires NoneEmpty(items)
    ensures Survivors(items) == items <==> Unbroken(items)
    ensures |Survivors(items)| == |items| && NoneEmpty(Survivors(items))
    ensures NoneDashed(Survivors(items)) <==> NoneDashed(items)
  {
    SurvivorsFilled(items);
    forall i | 0 <= i < |items|
      ensures Unfold(items[i]) == items[i] <==> !HasContinuation(items[i])
      ensures Dashed(Unfold(items[i])) <==> Dashed(items[i])
    {
      UnfoldFixed(items[i]);
    }
  }

  /** What the task page shows of a task. */
  function Shown(task: Task): Parsed {
    Parsed(JsonArray(task.sourcePaths), JsonArray(task.excludes), JsonArray(task.tags), JsonObject(task.extraFlags))
  }

  /** There is a path and none starts with `-`; no line continuation anywhere; every flag is of its kind, set, and
      not `--verbose` alone; some argument already is `--json`. */
  ghost predicate Recoverable(num: Numerals, p: Parsed) {
    && p.sourcePaths != [] && NoneDashed(p.sourcePaths)
    && Unbroken(p.sourcePaths) && Unbroken(p.excludes) && Unbroken(p.tags)
    && AllKept(p.extraFlags) && "--json" in PreviewFlags(num, p.extraFlags)
  }

  function ShownWords(f: seq<string>, p: Parsed): seq<string> {
    OptionWords(f, p.excludes, p.tags, p.sourcePaths)
  }

  lemma PrintedParse(num: Numerals, repo: Option<Repository>, task: Task)
    ensures var read := Read(num, ShownWords(PreviewFlags(num, Shown(task).extraFlags), Shown(task)), NOTHING);
            ParsedCommand(num, CommandPreview(repo, PreviewArgs(num, task)))
            == if read.Success? && read.value.sourcePaths == [] then Failure(NoPaths) else read
  {
    ArraysFilled(task);
    var p := Shown(task);
    var f := PreviewFlags(num, p.extraFlags);
    PrintedWords(f, p.excludes, p.tags, p.sourcePaths);
    LineTokens(repo, PreviewArgs(num, task));
    SkipPrinted(repo, ShownWords(f, p));
  }

  lemma ReadPathsExactly(num: Numerals, p: Parsed, flags: FlagMap)
    requires NoneEmpty(p.sourcePaths)
    ensures Read(num, Survivors(p.sourcePaths),
            Reader(Parsed([], Survivors(p.excludes), Survivors(p.tags), flags), false)) == Success(p)
            <==> NoneDashed(p.sourcePaths) && Survivors(p.sourcePaths) == p.sourcePaths
                 && Survivors(p.excludes) == p.excludes && Survivors(p.tags) == p.tags && flags == p.extraFlags
  {
    UnbrokenSurvive(p.sourcePaths);
    ReadPaths(num, Survivors(p.sourcePaths),
        Reader(Parsed([], Survivors(p.excludes), Survivors(p.tags), flags), false));
    assert [] + Survivors(p.sourcePaths) == Survivors(p.sourcePaths);
  }

  /** Reading the printed options gives the printed task back exactly when nothing in it was lost or changed. */
  lemma ReadAllExactly(num: Numerals, p: Parsed)
    requires Lawful(num, p.extraFlags) && NoneEmpty(p.sourcePaths) && NoneEmpty(p.excludes) && NoneEmpty(p.tags)
            && p.sourcePaths != []
    ensures Read(num, ShownWords(PreviewFlags(num, p.extraFlags), p), NOTHING) == Success(p) <==> Recoverable(num, p)
  {
    var keys := SortedKeys(p.extraFlags);
    UnbrokenSurvive(p.sourcePaths);
    UnbrokenSurvive(p.excludes);
    UnbrokenSurvive(p.tags);
    if !AllProducible(p.extraFlags) {
      ReadProducible(num, ShownWords(PreviewFlags(num, p.extraFlags), p), NOTHING);
    } else {
      RefusedExactly(p.extraFlags, keys);
      ReadPrinted(num, p.extraFlags, keys, Survivors(p.excludes), Survivors(p.tags), Survivors(p.sourcePaths));
      if !Refused(p.extraFlags, keys) {
        FlagsReadBack(num, p.extraFlags, keys);
        ReadPathsExactly(num, p, ReadBackFlags(num, p.extraFlags, keys));
      }
    }
  }

  /** Command round trip, with the exact condition, for every task and repository. */
  lemma BackupLineRoundTrip(num: Numerals, repo: Option<Repository>, task: Task)
    requires Lawful(num, Shown(task).extraFlags)
    ensures ParsedCommand(num, CommandPreview(repo, PreviewArgs(num, task))) == Success(Shown(task))
            <==> Recoverable(num, Shown(task))
  {
    PrintedParse(num, repo, task);
    ArraysFilled(task);
    if Shown(task).sourcePaths != [] {
      ReadAllExactly(num, Shown(task));
    }
  }
}
