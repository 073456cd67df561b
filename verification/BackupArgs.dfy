/** The two builders of the restic backup command line: `task_service.go` runs it, `resticPreview.ts` shows it. */
module BackupArgs {
  import opened Wrappers
  import opened Ordering
  import opened ShellText

  /** An element of a decoded JSON array; `shown` is what JavaScript's `String()` makes of any other value. */
  datatype Item = NullItem | TextItem(text: string) | OtherItem(shown: string)

  /** A task field that should hold a JSON array of strings. */
  datatype ListDoc = Malformed | NullDoc | OtherDoc | Items(items: seq<Item>)

  datatype FlagValue =
    | BoolFlag(on: bool)
    | NumberFlag(n: real)
    | TextFlag(text: string)
    | NullFlag
    | OtherFlag(shown: string)

  type FlagMap = map<string, FlagValue>

  /** A task field that should hold a JSON object. */
  datatype FlagsDoc = Blank | MalformedFlags | NullFlags | OtherFlags | Flags(flags: FlagMap)

  datatype Task = Task(sourcePaths: ListDoc, excludes: ListDoc, tags: ListDoc, extraFlags: FlagsDoc)

  /** Number printing and reading: Go's `FormatFloat(v, 'f', -1, 64)`, JavaScript's `String` and finite `Number`. */
  datatype Numerals = Numerals(goText: real -> string, jsText: real -> string, jsRead: string -> Option<real>)

  datatype ArgsError =
    | BadSourcePaths | NoSourcePaths | BadExcludes | BadTags | BadFlags
    | UnsupportedFlag(key: string) | UnsupportedValue(key: string)

  const TEXT_FLAGS := [
    "--host", "--compression", "--parent", "--exclude-file", "--files-from", "--exclude-larger-than",
    "--exclude-if-present", "--iexclude", "--iexclude-file", "--retry-lock", "--group-by", "--option" ]

  const NUMBER_FLAGS := ["--pack-size", "--limit-upload", "--limit-download", "--read-concurrency"]

  const BOOLEAN_FLAGS := [
    "--json", "--dry-run", "--force", "--ignore-ctime", "--ignore-inode", "--one-file-system", "--no-scan",
    "--with-atime", "--exclude-caches", "--quiet", "--no-lock", "--skip-if-unchanged", "--no-cache" ]

  predicate Listed(key: string, table: seq<string>) {
    table != [] && (table[0] == key || Listed(key, table[1..]))
  }

  datatype FlagKind = VerboseKind | BooleanKind | NumberKind | TextKind

  /** `booleanFlags`, `numberFlags` and the rest of `valueFlags`; the tables share no name. */
  function KindOf(key: string): Option<FlagKind> {
    if key == "--verbose" then Some(VerboseKind)
    else if Listed(key, BOOLEAN_FLAGS) then Some(BooleanKind)
    else if Listed(key, NUMBER_FLAGS) then Some(NumberKind)
    else if Listed(key, TEXT_FLAGS) then Some(TextKind)
    else None
  }

  /** `allowedExtraFlags` */
  predicate AllowedFlag(key: string) {
    KindOf(key).Some?
  }

  function Prepend(args: seq<string>, r: Result<seq<string>, ArgsError>): Result<seq<string>, ArgsError> {
    if r.Failure? then r else Success(args + r.value)
  }

  // ---- the backend ----

  function GoItem(item: Item): Option<string> {
    match item
    case NullItem => Some("")
    case TextItem(text) => Some(text)
    case OtherItem(_) => None
  }

  function GoItems(items: seq<Item>): Option<seq<string>> {
    if items == [] then Some([])
    else
      var first, rest := GoItem(items[0]), GoItems(items[1..]);
      if first.None? || rest.None? then None else Some([first.value] + rest.value)
  }

  /** `json.Unmarshal` into a `[]string`. */
  function GoList(doc: ListDoc): Option<seq<string>> {
    match doc
    case Malformed => None
    case OtherDoc => None
    case NullDoc => Some([])
    case Items(items) => GoItems(items)
  }

  function GoFlag(num: Numerals, key: string, value: FlagValue): Result<seq<string>, ArgsError> {
    if !AllowedFlag(key) then Failure(UnsupportedFlag(key))
    else
      match value
      case BoolFlag(on) => Success(if on then [key] else [])
      case TextFlag(text) => Success(if text != "" then [key, text] else [])
      case NumberFlag(n) => Success(if key == "--verbose" && n == 2.0 then ["-vv"] else [key, num.goText(n)])
      case _ => Failure(UnsupportedValue(key))
  }

  function GoFlagArgs(num: Numerals, flags: FlagMap, keys: seq<string>): Result<seq<string>, ArgsError>
    requires forall k | k in keys :: k in flags
  {
    if keys == [] then Success([])
    else
      var first := GoFlag(num, keys[0], flags[keys[0]]);
      if first.Failure? then first else Prepend(first.value, GoFlagArgs(num, flags, keys[1..]))
  }

  ghost function SortedKeys(flags: FlagMap): (keys: seq<string>)
    ensures forall k :: k in keys <==> k in flags
  {
    LexStrict(flags.Keys);
    var keys := Sorted(LexLess, flags.Keys);
    assert forall k | k in keys :: k in Elements(keys);
    keys
  }

  ghost function BackendFlags(num: Numerals, doc: FlagsDoc): Result<seq<string>, ArgsError> {
    match doc
    case Blank => Success([])
    case NullFlags => Success([])
    case MalformedFlags => Failure(BadFlags)
    case OtherFlags => Failure(BadFlags)
    case Flags(flags) => GoFlagArgs(num, flags, SortedKeys(flags))
  }

  function Pairs(flag: string, items: seq<string>): seq<string> {
    if items == [] then [] else [flag, items[0]] + Pairs(flag, items[1..])
  }

  /** `backup`, the extra flags, `--json` unless some argument is that already, excludes, tags, paths. */
  function Assemble(flagArgs: seq<string>, excludes: seq<string>, tags: seq<string>, paths: seq<string>): seq<string> {
    ["backup"] + flagArgs + (if "--json" in ["backup"] + flagArgs then [] else ["--json"])
    + Pairs("--exclude", excludes) + Pairs("--tag", tags) + paths
  }

  ghost function BackendArgs(num: Numerals, task: Task): Result<seq<string>, ArgsError> {
    var paths, excludes, tags := GoList(task.sourcePaths), GoList(task.excludes), GoList(task.tags);
    if paths.None? then Failure(BadSourcePaths)
    else if paths.value == [] then Failure(NoSourcePaths)
    else if excludes.None? then Failure(BadExcludes)
    else if tags.None? then Failure(BadTags)
    else
      var flags := BackendFlags(num, task.extraFlags);
      if flags.Failure? then flags
      else Success(Assemble(flags.value, excludes.value, tags.value, paths.value))
  }

  method ContainsArg(args: seq<string>, want: string) returns (found: bool)
    ensures found <==> want in args
  {
    for i := 0 to |args|
      invariant want !in args[..i]
    {
      if args[i] == want {
        return true;
      }
    }
    return false;
  }

  method BuildExtraFlagArgs(num: Numerals, doc: FlagsDoc) returns (r: Result<seq<string>, ArgsError>)
    ensures r == BackendFlags(num, doc)
  {
    if doc.Blank? || doc.NullFlags? {
      return Success([]);
    }
    if !doc.Flags? {
      return Failure(BadFlags);
    }
    LexStrict(doc.flags.Keys);
    var keys := SortSet(LexLess, doc.flags.Keys);
    r := CollectFlagArgs(num, doc.flags, keys);
  }

  /** The loop of `buildExtraFlagArgs` over the sorted keys. */
  method CollectFlagArgs(num: Numerals, flags: FlagMap, keys: seq<string>) returns (r: Result<seq<string>, ArgsError>)
    requires forall k | k in keys :: k in flags
    ensures r == GoFlagArgs(num, flags, keys)
  {
    var args: seq<string> := [];
    assert keys[0..] == keys;
    PrependNothing(GoFlagArgs(num, flags, keys));
    for i := 0 to |keys|
      invariant GoFlagArgs(num, flags, keys) == Prepend(args, GoFlagArgs(num, flags, keys[i..]))
    {
      var key := keys[i];
      ghost var before := args;
      if !AllowedFlag(key) {
        GoFlagFails(num, flags, keys, i, args);
        return Failure(UnsupportedFlag(key));
      }
      match flags[key] {
      case BoolFlag(on) =>
        if on {
          args := args + [key];
        }
      case TextFlag(text) =>
        if text != "" {
          args := args + [key, text];
        }
      case NumberFlag(n) =>
        if key == "--verbose" && n == 2.0 {
          args := args + ["-vv"];
        } else {
          args := args + [key, num.goText(n)];
        }
      case _ =>
        GoFlagRejects(num, key, flags[key]);
        GoFlagFails(num, flags, keys, i, args);
        return Failure(UnsupportedValue(key));
      }
      GoFlagStep(num, flags, keys, i, before, args);
    }
    GoFlagsDone(num, flags, keys, args);
    r := Success(args);
  }

  lemma PrependNothing(r: Result<seq<string>, ArgsError>)
    ensures Prepend([], r) == r
  {
    if r.Success? { assert [] + r.value == r.value; }
  }

  lemma {:induction false} GoFlagsDone(num: Numerals, flags: FlagMap, keys: seq<string>, args: seq<string>)
    requires forall k | k in keys :: k in flags
    ensures Prepend(args, GoFlagArgs(num, flags, keys[|keys|..])) == Success(args)
  {
    assert args + [] == args;
  }

  lemma GoFlagRejects(num: Numerals, key: string, value: FlagValue)
    requires AllowedFlag(key) && (value.NullFlag? || value.OtherFlag?)
    ensures GoFlag(num, key, value) == Failure(UnsupportedValue(key))
  {
  }

  lemma {:induction false} GoFlagFails(num: Numerals, flags: FlagMap, keys: seq<string>, i: nat, args: seq<string>)
    requires i < |keys| && forall k | k in keys :: k in flags
    requires GoFlag(num, keys[i], flags[keys[i]]).Failure?
    ensures Prepend(args, GoFlagArgs(num, flags, keys[i..])) == GoFlag(num, keys[i], flags[keys[i]])
  {
  }

  lemma {:induction false} GoFlagStep(num: Numerals, flags: FlagMap, keys: seq<string>, i: nat, args: seq<string>,
      args': seq<string>)
    requires i < |keys| && forall k | k in keys :: k in flags
    requires GoFlag(num, keys[i], flags[keys[i]]).Success? && args' == args + GoFlag(num, keys[i], flags[keys[i]]).value
    ensures Prepend(args, GoFlagArgs(num, flags, keys[i..])) == Prepend(args', GoFlagArgs(num, flags, keys[i + 1..]))
  {
    assert keys[i..][0] == keys[i] && keys[i..][1..] == keys[i + 1..];
    var first, rest := GoFlag(num, keys[i], flags[keys[i]]), GoFlagArgs(num, flags, keys[i + 1..]);
    if rest.Success? {
      assert args + (first.value + rest.value) == args + first.value + rest.value;
    }
  }

  method BuildBackupArgs(num: Numerals, task: Task) returns (r: Result<seq<string>, ArgsError>)
    ensures r == BackendArgs(num, task)
  {
    var sourcePaths := GoList(task.sourcePaths);
    if sourcePaths.None? {
      return Failure(BadSourcePaths);
    }
    if |sourcePaths.value| == 0 {
      return Failure(NoSourcePaths);
    }
    var excludes := GoList(task.excludes);
    if excludes.None? {
      return Failure(BadExcludes);
    }
    var tags := GoList(task.tags);
    if tags.None? {
      return Failure(BadTags);
    }
    var args := ["backup"];
    var extra := BuildExtraFlagArgs(num, task.extraFlags);
    if extra.Failure? {
      return extra;
    }
    args := args + extra.value;
    var found := ContainsArg(args, "--json");
    if !found {
      args := args + ["--json"];
    }
    assert args == ["backup"] + extra.value + if found then [] else ["--json"];
    args := AppendPairs(args, "--exclude", excludes.value);
    args := AppendPairs(args, "--tag", tags.value);
    args := args + sourcePaths.value;
    r := Success(args);
  }

  method AppendPairs(args: seq<string>, flag: string, items: seq<string>) returns (r: seq<string>)
    ensures r == args + Pairs(flag, items)
  {
    r := args;
    for i := 0 to |items|
      invariant r + Pairs(flag, items[i..]) == args + Pairs(flag, items)
    {
      assert items[i..][1..] == items[i + 1..];
      assert r + [flag, items[i]] + Pairs(flag, items[i + 1..]) == r + ([flag, items[i]] + Pairs(flag, items[i + 1..]));
      r := r + [flag, items[i]];
    }
  }

  // ---- the frontend ----

  function JsItem(item: Item): string {
    match item
    case NullItem => "null"
    case TextItem(text) => text
    case OtherItem(shown) => shown
  }

  /** `value.map(String).filter(Boolean)` */
  function JsItems(items: seq<Item>): seq<string> {
    if items == [] then []
    else (if JsItem(items[0]) != "" then [JsItem(items[0])] else []) + JsItems(items[1..])
  }

  function JsonArray(doc: ListDoc): seq<string> {
    if doc.Items? then JsItems(doc.items) else []
  }

  function JsonObject(doc: FlagsDoc): FlagMap {
    if doc.Flags? then doc.flags else map[]
  }

  /** `String(value)` */
  function JsString(num: Numerals, value: FlagValue): string {
    match value
    case BoolFlag(on) => if on then "true" else "false"
    case NullFlag => "null"
    case TextFlag(text) => text
    case NumberFlag(n) => num.jsText(n)
    case OtherFlag(shown) => shown
  }

  function JsFlag(num: Numerals, key: string, value: FlagValue): seq<string> {
    if value == BoolFlag(true) then [key]
    else if key == "--verbose" && value == NumberFlag(2.0) then ["-vv"]
    else if value == BoolFlag(false) || value == NullFlag || value == TextFlag("") then []
    else [key, JsString(num, value)]
  }

  function JsFlagArgs(num: Numerals, flags: FlagMap, keys: seq<string>): seq<string>
    requires forall k | k in keys :: k in flags
  {
    if keys == [] then [] else JsFlag(num, keys[0], flags[keys[0]]) + JsFlagArgs(num, flags, keys[1..])
  }

  ghost function PreviewFlags(num: Numerals, flags: FlagMap): seq<string> {
    JsFlagArgs(num, flags, SortedKeys(flags))
  }

  ghost function PreviewArgs(num: Numerals, task: Task): seq<string> {
    Assemble(PreviewFlags(num, JsonObject(task.extraFlags)),
             JsonArray(task.excludes), JsonArray(task.tags), JsonArray(task.sourcePaths))
  }

  /** The whole argument list still follows from what was pushed and the keys left. */
  ghost predicate Pushed(num: Numerals, flags: FlagMap, keys: seq<string>, i: nat, args: seq<string>)
    requires i <= |keys| && forall k | k in keys :: k in flags
  {
    args + JsFlagArgs(num, flags, keys[i..]) == JsFlagArgs(num, flags, keys)
  }

  lemma {:induction false} JsFlagStep(num: Numerals, flags: FlagMap, keys: seq<string>, i: nat, args: seq<string>,
      args': seq<string>)
    requires i < |keys| && forall k | k in keys :: k in flags
    requires Pushed(num, flags, keys, i, args) && args' == args + JsFlag(num, keys[i], flags[keys[i]])
    ensures Pushed(num, flags, keys, i + 1, args')
  {
    assert keys[i..][0] == keys[i] && keys[i..][1..] == keys[i + 1..];
    var first, rest := JsFlag(num, keys[i], flags[keys[i]]), JsFlagArgs(num, flags, keys[i + 1..]);
    assert args + (first + rest) == args + first + rest;
  }

  lemma {:induction false} JsFlagEnds(num: Numerals, flags: FlagMap, keys: seq<string>, args: seq<string>)
    requires forall k | k in keys :: k in flags
    ensures Pushed(num, flags, keys, 0, [])
    ensures Pushed(num, flags, keys, |keys|, args) ==> args == JsFlagArgs(num, flags, keys)
  {
    assert keys[0..] == keys && [] + JsFlagArgs(num, flags, keys) == JsFlagArgs(num, flags, keys);
    assert keys[|keys|..] == [] && args + [] == args;
  }

  method PreviewExtraFlagArgs(num: Numerals, doc: FlagsDoc) returns (args: seq<string>)
    ensures args == PreviewFlags(num, JsonObject(doc))
  {
    var flags := JsonObject(doc);
    LexStrict(flags.Keys);
    var keys := SortSet(LexLess, flags.Keys);
    args := PushFlagArgs(num, flags, keys);
  }

  /** The `forEach` over the sorted keys. */
  method PushFlagArgs(num: Numerals, flags: FlagMap, keys: seq<string>) returns (args: seq<string>)
    requires forall k | k in keys :: k in flags
    ensures args == JsFlagArgs(num, flags, keys)
  {
    args := [];
    JsFlagEnds(num, flags, keys, []);
    for i := 0 to |keys|
      invariant Pushed(num, flags, keys, i, args)
    {
      var key := keys[i];
      var value := flags[key];
      ghost var before := args;
      if value == BoolFlag(true) {
        args := args + [key];
      } else if key == "--verbose" && value == NumberFlag(2.0) {
        args := args + ["-vv"];
      } else if value != BoolFlag(false) && value != NullFlag && value != TextFlag("") {
        args := args + [key, JsString(num, value)];
      }
      JsFlagStep(num, flags, keys, i, before, args);
    }
    JsFlagEnds(num, flags, keys, args);
  }

  datatype Repository = Repository(kind: string, endpoint: string)

  function RepositoryPreview(repo: Option<Repository>): string {
    if repo.None? then ""
    else if repo.value.kind == "rclone" then "rclone:" + repo.value.endpoint
    else if repo.value.kind == "webdav" then "webdav:" + repo.value.endpoint
    else repo.value.endpoint
  }

  /** `resticCommandPreview` */
  function CommandPreview(repo: Option<Repository>, args: seq<string>): string {
    var repository := RepositoryPreview(repo);
    (if repository != "" then "RESTIC_REPOSITORY=" + ShellQuote(repository) + " " else "") + "restic "
        + PrintedLine(args)
  }

  /** The backup line of `taskRunCommandPreview`. */
  method TaskRunCommandPreview(num: Numerals, task: Task, repo: Option<Repository>) returns (line: string)
    ensures line == CommandPreview(repo, PreviewArgs(num, task))
  {
    var args := ["backup"];
    var extra := PreviewExtraFlagArgs(num, task.extraFlags);
    args := args + extra;
    var found := "--json" in args;
    if !found {
      args := args + ["--json"];
    }
    assert args == ["backup"] + extra + if found then [] else ["--json"];
    args := AppendPairs(args, "--exclude", JsonArray(task.excludes));
    args := AppendPairs(args, "--tag", JsonArray(task.tags));
    args := args + JsonArray(task.sourcePaths);
    line := CommandPreview(repo, args);
  }

  // ---- preview equals execution ----

  predicate Filled(doc: ListDoc) {
    doc.Items? ==> forall item | item in doc.items :: FilledItem(item)
  }

  /** Every number the flags print reads the same in both languages. */
  predicate NumbersAgree(num: Numerals, flags: FlagMap) {
    forall key | key in flags && flags[key].NumberFlag? && !(key == "--verbose" && flags[key].n == 2.0) ::
      num.goText(flags[key].n) == num.jsText(flags[key].n)
  }

  predicate FilledItem(item: Item) {
    item.TextItem? && item.text != ""
  }

  lemma {:induction false} ItemsAgree(items: seq<Item>)
    requires GoItems(items).Some?
    ensures |JsItems(items)| <= |GoItems(items).value|
    ensures JsItems(items) == GoItems(items).value <==> forall item | item in items :: FilledItem(item)
  {
    if items != [] {
      ItemsAgree(items[1..]);
      var js, go := JsItems(items[1..]), GoItems(items[1..]).value;
      var whole := GoItems(items).value;
      assert whole[0] == GoItem(items[0]).value && whole[1..] == go;
      assert items == [items[0]] + items[1..];
      assert (forall item | item in items :: FilledItem(item)) <==>
          FilledItem(items[0]) && forall item | item in items[1..] :: FilledItem(item);
      if JsItem(items[0]) != "" {
        assert JsItems(items)[0] == JsItem(items[0]) && JsItems(items)[1..] == js;
        assert JsItem(items[0]) == GoItem(items[0]).value <==> FilledItem(items[0]);
      }
    }
  }

  lemma ListsAgree(doc: ListDoc)
    requires GoList(doc).Some?
    ensures |JsonArray(doc)| <= |GoList(doc).value|
    ensures JsonArray(doc) == GoList(doc).value <==> Filled(doc)
  {
    if doc.Items? {
      ItemsAgree(doc.items);
    }
  }

  lemma {:induction false} FlagsAgree(num: Numerals, flags: FlagMap, keys: seq<string>)
    requires forall k | k in keys :: k in flags
    requires GoFlagArgs(num, flags, keys).Success?
    ensures |JsFlagArgs(num, flags, keys)| == |GoFlagArgs(num, flags, keys).value|
    ensures JsFlagArgs(num, flags, keys) == GoFlagArgs(num, flags, keys).value <==>
            forall k | k in keys && flags[k].NumberFlag? && !(k == "--verbose" && flags[k].n == 2.0) ::
              num.goText(flags[k].n) == num.jsText(flags[k].n)
  {
    if keys != [] {
      var key := keys[0];
      FlagsAgree(num, flags, keys[1..]);
      assert keys == [key] + keys[1..];
      var js, go := JsFlag(num, key, flags[key]), GoFlag(num, key, flags[key]).value;
      var jsRest, goRest := JsFlagArgs(num, flags, keys[1..]), GoFlagArgs(num, flags, keys[1..]).value;
      assert |js| == |go|;
      if js + jsRest == go + goRest {
        assert js == (js + jsRest)[..|js|] && go == (go + goRest)[..|go|];
        assert jsRest == (js + jsRest)[|js|..] && goRest == (go + goRest)[|go|..];
      }
      if flags[key].NumberFlag? && |js| == 2 {
        assert js[1] == num.jsText(flags[key].n) && go[1] == num.goText(flags[key].n);
      }
    }
  }

  lemma {:induction false} PairsLength(flag: string, items: seq<string>)
    ensures |Pairs(flag, items)| == 2 * |items|
  {
    if items != [] { PairsLength(flag, items[1..]); }
  }

  lemma {:induction false} PairsInjective(flag: string, a: seq<string>, b: seq<string>)
    requires Pairs(flag, a) == Pairs(flag, b)
    ensures a == b
  {
    PairsLength(flag, a);
    PairsLength(flag, b);
    if a != [] {
      assert Pairs(flag, a)[1] == a[0] && Pairs(flag, b)[1] == b[0];
      assert Pairs(flag, a)[2..] == Pairs(flag, a[1..]) && Pairs(flag, b)[2..] == Pairs(flag, b[1..]);
      PairsInjective(flag, a[1..], b[1..]);
      assert a == [a[0]] + a[1..] && b == [b[0]] + b[1..];
    }
  }

  lemma SplitEqual<T>(a: seq<T>, b: seq<T>, c: seq<T>, d: seq<T>)
    requires a + b == c + d && |a| == |c|
    ensures a == c && b == d
  {
    assert a == (a + b)[..|a|] && c == (c + d)[..|c|];
    assert b == (a + b)[|a|..] && d == (c + d)[|c|..];
  }

  function Json(flagArgs: seq<string>): seq<string> {
    if "--json" in ["backup"] + flagArgs then [] else ["--json"]
  }

  function Lists(excludes: seq<string>, tags: seq<string>, paths: seq<string>): seq<string> {
    Pairs("--exclude", excludes) + Pairs("--tag", tags) + paths
  }

  lemma AssembleParts(f: seq<string>, e: seq<string>, t: seq<string>, p: seq<string>)
    ensures Assemble(f, e, t, p) == ["backup"] + (f + (Json(f) + Lists(e, t, p)))
  {
  }

  lemma ListsInjective(e: seq<string>, t: seq<string>, p: seq<string>, e': seq<string>, t': seq<string>,
      p': seq<string>)
    requires |e| <= |e'| && |t| <= |t'| && |p| <= |p'|
    requires Lists(e, t, p) == Lists(e', t', p')
    ensures e == e' && t == t' && p == p'
  {
    PairsLength("--exclude", e);
    PairsLength("--exclude", e');
    PairsLength("--tag", t);
    PairsLength("--tag", t');
    SplitEqual(Pairs("--exclude", e) + Pairs("--tag", t), p, Pairs("--exclude", e') + Pairs("--tag", t'), p');
    SplitEqual(Pairs("--exclude", e), Pairs("--tag", t), Pairs("--exclude", e'), Pairs("--tag", t'));
    PairsInjective("--exclude", e, e');
    PairsInjective("--tag", t, t');
  }

  /** When no list grew, equal command lines have equal parts. */
  lemma AssembleInjective(f: seq<string>, e: seq<string>, t: seq<string>, p: seq<string>,
                          f': seq<string>, e': seq<string>, t': seq<string>, p': seq<string>)
    requires |f| == |f'| && |e| <= |e'| && |t| <= |t'| && |p| <= |p'|
    requires Assemble(f, e, t, p) == Assemble(f', e', t', p')
    ensures f == f' && e == e' && t == t' && p == p'
  {
    var tail, tail' := Lists(e, t, p), Lists(e', t', p');
    AssembleParts(f, e, t, p);
    AssembleParts(f', e', t', p');
    SplitEqual(["backup"], f + (Json(f) + tail), ["backup"], f' + (Json(f') + tail'));
    SplitEqual(f, Json(f) + tail, f', Json(f') + tail');
    SplitEqual(Json(f), tail, Json(f'), tail');
    ListsInjective(e, t, p, e', t', p');
  }

  lemma FlagDocsAgree(num: Numerals, doc: FlagsDoc)
    requires BackendFlags(num, doc).Success?
    ensures var js, go := PreviewFlags(num, JsonObject(doc)), BackendFlags(num, doc).value;
            |js| == |go| && (js == go <==> NumbersAgree(num, JsonObject(doc)))
  {
    var keys := SortedKeys(JsonObject(doc));
    if doc.Flags? {
      FlagsAgree(num, doc.flags, keys);
    } else {
      assert forall k :: k !in keys;
      assert keys == [];
    }
  }

  /** The preview shows the command that runs exactly when every list item is a non-empty string and the numbers
      agree. */
  lemma PreviewEqualsExecution(num: Numerals, task: Task)
    requires BackendArgs(num, task).Success?
    ensures PreviewArgs(num, task) == BackendArgs(num, task).value <==>
            Filled(task.sourcePaths) && Filled(task.excludes) && Filled(task.tags)
            && NumbersAgree(num, JsonObject(task.extraFlags))
  {
    ListsAgree(task.sourcePaths);
    ListsAgree(task.excludes);
    ListsAgree(task.tags);
    FlagDocsAgree(num, task.extraFlags);
    if PreviewArgs(num, task) == BackendArgs(num, task).value {
      AssembleInjective(PreviewFlags(num, JsonObject(task.extraFlags)),
                        JsonArray(task.excludes), JsonArray(task.tags), JsonArray(task.sourcePaths),
                        BackendFlags(num, task.extraFlags).value,
                        GoList(task.excludes).value, GoList(task.tags).value, GoList(task.sourcePaths).value);
    }
  }

  // ---- which tasks the backend refuses ----

  /** A JSON array of strings, or `null`. */
  predicate TextList(doc: ListDoc) {
    doc.NullDoc? || (doc.Items? && forall item | item in doc.items :: item.TextItem? || item.NullItem?)
  }

  /** An allowed flag with a string, a number or a boolean. */
  predicate FlagAccepted(key: string, value: FlagValue) {
    AllowedFlag(key) && (value.BoolFlag? || value.NumberFlag? || value.TextFlag?)
  }

  lemma {:induction false} GoItemsAccept(items: seq<Item>)
    ensures GoItems(items).Some? <==> forall item | item in items :: item.TextItem? || item.NullItem?
    ensures GoItems(items).Some? ==> |GoItems(items).value| == |items|
  {
    if items != [] {
      GoItemsAccept(items[1..]);
      assert items == [items[0]] + items[1..];
    }
  }

  lemma GoListAccepts(doc: ListDoc)
    ensures GoList(doc).Some? <==> TextList(doc)
    ensures GoList(doc) == Some([]) <==> doc == NullDoc || doc == Items([])
  {
    if doc.Items? { GoItemsAccept(doc.items); }
  }

  /** The first key in order that is not accepted, and the error it gives. */
  predicate FirstRefusal(flags: FlagMap, keys: seq<string>, i: nat, e: ArgsError)
    requires forall k | k in keys :: k in flags
  {
    && i < |keys| && !FlagAccepted(keys[i], flags[keys[i]])
    && (forall j | 0 <= j < i :: FlagAccepted(keys[j], flags[keys[j]]))
    && e == if AllowedFlag(keys[i]) then UnsupportedValue(keys[i]) else UnsupportedFlag(keys[i])
  }

  lemma LaterRefusal(flags: FlagMap, keys: seq<string>, i: nat, e: ArgsError)
    requires keys != [] && (forall k | k in keys :: k in flags) && FlagAccepted(keys[0], flags[keys[0]])
    requires FirstRefusal(flags, keys[1..], i, e)
    ensures FirstRefusal(flags, keys, i + 1, e)
  {
    forall j | 0 <= j < i + 1 ensures FlagAccepted(keys[j], flags[keys[j]]) {
      if j > 0 { assert keys[j] == keys[1..][j - 1]; }
    }
  }

  lemma GoFlagAccepts(num: Numerals, key: string, value: FlagValue)
    ensures GoFlag(num, key, value).Success? <==> FlagAccepted(key, value)
    ensures !FlagAccepted(key, value) ==>
              GoFlag(num, key, value)
                  == Failure(if AllowedFlag(key) then UnsupportedValue(key) else UnsupportedFlag(key))
  {
  }

  lemma {:induction false} GoFlagsAccept(num: Numerals, flags: FlagMap, keys: seq<string>) returns (i: nat)
    requires forall k | k in keys :: k in flags
    ensures GoFlagArgs(num, flags, keys).Failure? ==> FirstRefusal(flags, keys, i, GoFlagArgs(num, flags, keys).error)
    ensures GoFlagArgs(num, flags, keys).Success? ==>
            forall j | 0 <= j < |keys| :: FlagAccepted(keys[j], flags[keys[j]])
  {
    i := 0;
    if keys != [] {
      var rest := keys[1..];
      GoFlagAccepts(num, keys[0], flags[keys[0]]);
      if FlagAccepted(keys[0], flags[keys[0]]) {
        i := GoFlagsAccept(num, flags, rest);
        if GoFlagArgs(num, flags, rest).Failure? {
          LaterRefusal(flags, keys, i, GoFlagArgs(num, flags, rest).error);
          i := i + 1;
        } else {
          assert forall j | 1 <= j < |keys| :: keys[j] == rest[j - 1];
        }
      }
    }
  }

  /** The backend builds a command if and only if the lists are arrays of strings or `null`, there is a source path, and
      the flags are an object whose keys are all on the allow-list, with values it can print; it names the first key, in
      order, of another kind. */
  lemma BackendAcceptsExactly(num: Numerals, task: Task)
    ensures BackendArgs(num, task).Success? <==>
              && TextList(task.sourcePaths) && task.sourcePaths != NullDoc && task.sourcePaths != Items([])
              && TextList(task.excludes) && TextList(task.tags)
              && (task.extraFlags.Blank? || task.extraFlags.NullFlags?
                  || (task.extraFlags.Flags? && forall key | key in task.extraFlags.flags ::
                        FlagAccepted(key, task.extraFlags.flags[key])))
    ensures forall key | BackendArgs(num, task) == Failure(UnsupportedFlag(key)) ::
              && task.extraFlags.Flags? && key in task.extraFlags.flags && !AllowedFlag(key)
              && forall other | other in task.extraFlags.flags && LexLess(other, key) ::
                   FlagAccepted(other, task.extraFlags.flags[other])
  {
    GoListAccepts(task.sourcePaths);
    GoListAccepts(task.excludes);
    GoListAccepts(task.tags);
    if task.extraFlags.Flags? {
      var flags := task.extraFlags.flags;
      FlagsAccepted(num, flags);
      forall key | BackendArgs(num, task) == Failure(UnsupportedFlag(key))
        ensures key in flags && !AllowedFlag(key)
        ensures forall other | other in flags && LexLess(other, key) :: FlagAccepted(other, flags[other]) {
        FirstRefused(num, flags, key);
      }
    }
  }

  lemma FlagsAccepted(num: Numerals, flags: FlagMap)
    ensures GoFlagArgs(num, flags, SortedKeys(flags)).Success? <==>
              forall key | key in flags :: FlagAccepted(key, flags[key])
  {
    var keys := SortedKeys(flags);
    var i := GoFlagsAccept(num, flags, keys);
    forall key | key in flags && GoFlagArgs(num, flags, keys).Success? ensures FlagAccepted(key, flags[key]) {
      assert key in keys;
    }
    assert GoFlagArgs(num, flags, keys).Failure? ==> keys[i] in flags;
  }

  lemma EarlierKey(keys: seq<string>, i: nat, j: nat)
    requires Ascending(LexLess, keys) && i < |keys| && j < |keys| && LexLess(keys[j], keys[i])
    ensures j < i
  {
    LexIrreflexive(keys[i]);
    if i < j { LexTransitive(keys[i], keys[j], keys[i]); }
  }

  lemma FirstRefused(num: Numerals, flags: FlagMap, key: string)
    requires GoFlagArgs(num, flags, SortedKeys(flags)) == Failure(UnsupportedFlag(key))
    ensures key in flags && !AllowedFlag(key)
    ensures forall other | other in flags && LexLess(other, key) :: FlagAccepted(other, flags[other])
  {
    var keys := SortedKeys(flags);
    var i := GoFlagsAccept(num, flags, keys);
    assert keys[i] == key && keys[i] in keys;
    LexStrict(flags.Keys);
    assert keys == Sorted(LexLess, flags.Keys);
    forall other | other in flags && LexLess(other, key) ensures FlagAccepted(other, flags[other]) {
      assert other in keys;
      var j :| 0 <= j < |keys| && keys[j] == other;
      EarlierKey(keys, i, j);
    }
  }

  // ---- a printed line ----

  lemma {:induction false} EscapeNothing(s: string)
    requires '\'' !in s
    ensures EscapeQuotes(s) == s
  {
    if s != "" {
      assert s[0] in s;
      EscapeNothing(s[1..]);
    }
  }

  /** A plain word is printed bare, one without single quotes between them. */
  lemma {:induction false} QuotedForms(value: string)
    ensures value != "" && AllPlain(value) ==> ShellQuote(value) == value
    ensures '\'' !in value && (value == "" || !AllPlain(value)) ==> ShellQuote(value) == "'" + value + "'"
  {
    if '\'' !in value { EscapeNothing(value); }
  }

  /** Words are printed in order with one space between, after `restic`. */
  lemma {:induction false} PreviewWords(command: string, path: string)
    ensures CommandPreview(None, [command]) == "restic " + ShellQuote(command)
    ensures CommandPreview(None, [command, path]) == "restic " + (ShellQuote(command) + " " + ShellQuote(path))
  {
    PrintedHead([command]);
    PrintedHead([command, path]);
    PrintedHead([path]);
    assert [command, path][1..] == [path];
    assert "" + "restic " == "restic ";
  }

  lemma PlainAfter(scheme: string, endpoint: string)
    requires AllPlain(scheme) && AllPlain(endpoint)
    ensures AllPlain(scheme + endpoint)
  {
  }

  /** The repository comes first as an assignment: an endpoint of `rclone` or `webdav` after that name and a colon, any
      other as it is, an empty one not at all. */
  lemma {:induction false} PreviewRepository(kind: string, endpoint: string, args: seq<string>)
    requires endpoint != "" && AllPlain(endpoint)
    ensures var shown := if kind == "rclone" then "rclone:" + endpoint
                         else if kind == "webdav" then "webdav:" + endpoint else endpoint;
            CommandPreview(Some(Repository(kind, endpoint)), args)
            == "RESTIC_REPOSITORY=" + shown + " " + CommandPreview(None, args)
    ensures kind != "rclone" && kind != "webdav" ==>
              CommandPreview(Some(Repository(kind, "")), args) == CommandPreview(None, args)
  {
    var repo, line := Some(Repository(kind, endpoint)), "restic " + PrintedLine(args);
    var shown := RepositoryPreview(repo);
    PlainAfter("rclone:", endpoint);
    PlainAfter("webdav:", endpoint);
    QuotedForms(shown);
    assert "" + "restic " == "restic " && CommandPreview(None, args) == line;
    assert CommandPreview(repo, args) == "RESTIC_REPOSITORY=" + shown + " " + "restic " + PrintedLine(args);
    assert "RESTIC_REPOSITORY=" + shown + " " + line == "RESTIC_REPOSITORY=" + shown + " " + "restic "
        + PrintedLine(args);
  }

  /** The order of the arguments, for one item each: `backup`, the flags, `--json` unless a flag is it, the exclude, the
      tag, the path. */
  lemma {:induction false} ArgumentsInOrder(flagArgs: seq<string>, exclude: string, tag: string, path: string)
    ensures Assemble(flagArgs, [exclude], [tag], [path])
         == ["backup"] + flagArgs + (if "--json" in flagArgs then [] else ["--json"])
            + ["--exclude", exclude, "--tag", tag, path]
  {
    assert [exclude][1..] == [] && [tag][1..] == [];
    assert Pairs("--exclude", [exclude]) == ["--exclude", exclude] && Pairs("--tag", [tag]) == ["--tag", tag];
    assert "--json" in ["backup"] + flagArgs <==> "--json" in flagArgs;
  }
}
