/** Paths inside a snapshot: normalization, parent, base, and the root listing made from a snapshot's backup paths. */
module SnapshotPath {
  import opened Ordering

  // ---- the functions of the service ----

  /** What `strings.TrimSpace` removes. */
  predicate IsSpace(c: char) {
    || '\U{0009}' <= c <= '\U{000D}' || c == ' ' || c == '\U{0085}' || c == '\U{00A0}' || c == '\U{1680}'
    || '\U{2000}' <= c <= '\U{200A}' || c == '\U{2028}' || c == '\U{2029}' || c == '\U{202F}'
    || c == '\U{205F}' || c == '\U{3000}'
  }

  function TrimLeft(s: string): string {
    if s != "" && IsSpace(s[0]) then TrimLeft(s[1..]) else s
  }

  function TrimRight(s: string): string {
    if s != "" && IsSpace(s[|s| - 1]) then TrimRight(s[..|s| - 1]) else s
  }

  function TrimSpace(s: string): string {
    TrimRight(TrimLeft(s))
  }

  function Split(s: string): (parts: seq<string>)
    ensures |parts| >= 1
    decreases |s|
  {
    if s == "" then [""]
    else
      var rest := Split(s[1..]);
      if s[0] == '/' then [""] + rest else [[s[0]] + rest[0]] + rest[1..]
  }

  function Resolve(stack: seq<string>, parts: seq<string>): seq<string>
    decreases |parts|
  {
    if parts == [] then stack
    else
      var part := parts[0];
      var next := if part == "" || part == "." then stack
                  else if part == ".." then (if stack == [] then [] else stack[..|stack| - 1])
                  else stack + [part];
      Resolve(next, parts[1..])
  }

  function Show(names: seq<string>): string {
    if names == [] then "" else "/" + names[0] + Show(names[1..])
  }

  /** The library's `path.Clean` on a rooted path. */
  function Clean(path: string): string
    requires path != "" && path[0] == '/'
  {
    var names := Resolve([], Split(path));
    if names == [] then "/" else Show(names)
  }

  function Normalize(raw: string): string {
    var path := TrimSpace(raw);
    if path == "" || path == "/" then ""
    else
      var clean := Clean(if path[0] == '/' then path else "/" + path);
      if clean == "." || clean == "/" then "" else clean
  }

  function LastSlash(s: string): (k: int)
    ensures -1 <= k < |s|
    ensures k >= 0 ==> s[k] == '/'
    ensures forall j | k < j < |s| :: s[j] != '/'
  {
    if s == "" then -1 else if s[|s| - 1] == '/' then |s| - 1 else LastSlash(s[..|s| - 1])
  }

  function Parent(raw: string): string {
    var path := Normalize(raw);
    if path == "" then ""
    else
      var idx := LastSlash(path);
      if idx <= 0 then "" else path[..idx]
  }

  function Base(raw: string): string {
    var path := Normalize(raw);
    if path == "" then "/"
    else
      var idx := LastSlash(path);
      if idx < 0 then path else path[idx + 1..]
  }

  // ---- normal paths ----

  predicate Proper(name: string) {
    name != "" && '/' !in name && name != "." && name != ".."
  }

  predicate AllProper(names: seq<string>) {
    forall i | 0 <= i < |names| :: Proper(names[i])
  }

  /** The root is "", every other normal path is "/" and a proper name, repeated. */
  ghost predicate IsNormal(path: string) {
    exists names :: AllProper(names) && path == Show(names)
  }

  predicate EndsInSpace(s: string) {
    s != "" && IsSpace(s[|s| - 1])
  }

  function Depth(path: string): nat {
    if path == "" then 0 else (if path[0] == '/' then 1 else 0) + Depth(path[1..])
  }

  lemma {:induction false} ShowAppend(a: seq<string>, b: seq<string>)
    ensures Show(a + b) == Show(a) + Show(b)
    decreases |a|
  {
    if a == [] {
      assert a + b == b;
    } else {
      assert (a + b)[1..] == a[1..] + b;
      ShowAppend(a[1..], b);
    }
  }

  lemma ShowOne(name: string)
    ensures Show([name]) == "/" + name
  {
    assert Show([name][1..]) == "";
  }

  lemma {:induction false} SplitNoSlash(s: string)
    ensures forall part | part in Split(s) :: '/' !in part
    decreases |s|
  {
    if s != "" { SplitNoSlash(s[1..]); }
  }

  lemma {:induction false} SplitName(name: string, rest: string)
    requires '/' !in name && (rest == "" || rest[0] == '/')
    ensures Split(name + rest) == [name] + Split(rest)[1..]
    decreases |name|
  {
    if name == "" {
      assert name + rest == rest;
    } else {
      assert (name + rest)[1..] == name[1..] + rest;
      SplitName(name[1..], rest);
      assert [name[0]] + name[1..] == name;
    }
  }

  lemma SplitSlash(rest: string)
    ensures Split("/" + rest) == [""] + Split(rest)
  {
    assert ("/" + rest)[1..] == rest;
  }

  predicate NoSlashes(names: seq<string>) {
    forall i | 0 <= i < |names| :: '/' !in names[i]
  }

  lemma {:induction false} SplitShow(names: seq<string>)
    requires NoSlashes(names)
    ensures Split(Show(names)) == [""] + names
    decreases |names|
  {
    if names != [] {
      var rest := Show(names[1..]);
      SplitShow(names[1..]);
      SplitName(names[0], rest);
      SplitSlash(names[0] + rest);
      assert Show(names) == "/" + (names[0] + rest);
      assert ([""] + names[1..])[1..] == names[1..];
      assert [names[0]] + names[1..] == names;
    }
  }

  lemma {:induction false} ResolveProper(stack: seq<string>, parts: seq<string>)
    requires AllProper(stack) && forall part | part in parts :: '/' !in part
    ensures AllProper(Resolve(stack, parts))
    decreases |parts|
  {
    if parts != [] {
      var part := parts[0];
      if part == "" || part == "." { ResolveProper(stack, parts[1..]); }
      else if part == ".." { ResolveProper(if stack == [] then [] else stack[..|stack| - 1], parts[1..]); }
      else { ResolveProper(stack + [part], parts[1..]); }
    }
  }

  lemma {:induction false} ResolveKeeps(stack: seq<string>, names: seq<string>)
    requires AllProper(names)
    ensures Resolve(stack, names) == stack + names
    decreases |names|
  {
    if names == [] {
      assert stack + names == stack;
    } else {
      ResolveKeeps(stack + [names[0]], names[1..]);
      assert stack + [names[0]] + names[1..] == stack + names;
    }
  }

  lemma {:induction false} ResolveShortens(stack: seq<string>, parts: seq<string>)
    ensures |Show(Resolve(stack, parts))| <= |Show(stack)| + |Show(parts)|
    decreases |parts|
  {
    if parts != [] {
      var part := parts[0];
      if part == "" || part == "." {
        ResolveShortens(stack, parts[1..]);
      } else if part == ".." {
        var shorter := if stack == [] then [] else stack[..|stack| - 1];
        if stack != [] {
          ShowAppend(shorter, stack[|stack| - 1..]);
          assert shorter + stack[|stack| - 1..] == stack;
        }
        ResolveShortens(shorter, parts[1..]);
      } else {
        ShowAppend(stack, [part]);
        ShowOne(part);
        ResolveShortens(stack + [part], parts[1..]);
      }
    }
  }

  lemma {:induction false} SplitLength(s: string)
    ensures |Show(Split(s))| == |s| + 1
    decreases |s|
  {
    if s == "" {
      ShowOne("");
    } else {
      SplitLength(s[1..]);
      var rest := Split(s[1..]);
      if s[0] != '/' {
        assert Show(Split(s)) == "/" + ([s[0]] + rest[0]) + Show(rest[1..]);
      }
    }
  }

  lemma CleanShortens(path: string)
    requires path != "" && path[0] == '/'
    ensures |Clean(path)| <= |path|
  {
    SplitLength(path[1..]);
    ResolveShortens([], Split(path)[1..]);
    assert Resolve([], Split(path)) == Resolve([], Split(path)[1..]);
  }

  lemma CleanFixed(names: seq<string>)
    requires AllProper(names) && names != []
    ensures Clean(Show(names)) == Show(names)
  {
    SplitShow(names);
    ResolveKeeps([], names);
    assert ([""] + names)[1..] == names && [] + names == names;
  }

  /** The names that stay of a path once white space is trimmed and `.` and `..` are resolved. */
  function NamesOf(raw: string): seq<string> {
    Resolve([], Split(TrimSpace(raw)))
  }

  /** Whatever the input, the result is a normal path: its names, each after a slash. */
  lemma NormalizeIsNormal(raw: string) returns (names: seq<string>)
    ensures names == NamesOf(raw) && AllProper(names) && Normalize(raw) == Show(names)
    ensures IsNormal(Normalize(raw))
  {
    var path := TrimSpace(raw);
    names := NamesOf(raw);
    SplitNoSlash(path);
    ResolveProper([], Split(path));
    assert [""][1..] == [] && ["", ""][1..] == [""];
    if path == "/" {
      SplitSlash("");
      assert "/" + "" == "/";
    } else if path != "" {
      ShownClean(path);
    }
  }

  lemma ShownClean(path: string)
    requires path != "" && AllProper(Resolve([], Split(path)))
    ensures var clean := Clean(if path[0] == '/' then path else "/" + path);
            (if clean == "." || clean == "/" then "" else clean) == Show(Resolve([], Split(path)))
  {
    var names := Resolve([], Split(path));
    if path[0] != '/' {
      SplitSlash(path);
      assert ([""] + Split(path))[1..] == Split(path);
      assert Resolve([], Split("/" + path)) == names;
    }
    if names != [] {
      assert Show(names)[0] == '/' && |Show(names)| >= 1 + |names[0]|;
    }
  }

  lemma {:induction false} TrimRightShortens(s: string)
    ensures |TrimRight(s)| <= |s| && TrimRight(s) == s[..|TrimRight(s)|]
    ensures EndsInSpace(s) <==> TrimRight(s) != s
    ensures s != "" && !IsSpace(s[0]) ==> TrimRight(s) != ""
    decreases |s|
  {
    if s != "" && IsSpace(s[|s| - 1]) { TrimRightShortens(s[..|s| - 1]); }
  }

  lemma ResultSettles(raw: string)
    ensures Normalize(Normalize(raw)) == Normalize(raw) <==> !EndsInSpace(Normalize(raw))
  {
    var names := NormalizeIsNormal(raw);
    var path := Normalize(raw);
    if names != [] {
      assert path[0] == '/' && |path| >= 1 + |names[0]|;
      assert TrimLeft(path) == path;
      TrimRightShortens(path);
      CleanFixed(names);
      var trimmed := TrimRight(path);
      assert trimmed[0] == path[0];
      CleanShortens(trimmed);
    }
  }

  /** Normalizing twice is normalizing once, exactly when the last name that stays of the path does not end in white
      space. */
  lemma NormalizeIdempotent(raw: string)
    ensures Normalize(Normalize(raw)) == Normalize(raw) <==>
            NamesOf(raw) == [] || !EndsInSpace(NamesOf(raw)[|NamesOf(raw)| - 1])
  {
    var names := NormalizeIsNormal(raw);
    ResultSettles(raw);
    if names != [] { ShowEnds(names); }
  }

  lemma ShowEnds(names: seq<string>)
    requires AllProper(names) && names != []
    ensures EndsInSpace(Show(names)) <==> EndsInSpace(names[|names| - 1])
  {
    SplitLast(names);
    var last := names[|names| - 1];
    assert Show(names)[|Show(names)| - 1] == last[|last| - 1];
  }

  // ---- paths without white space ----

  predicate NoSpace(s: string) {
    forall i | 0 <= i < |s| :: !IsSpace(s[i])
  }

  lemma {:induction false} PartsWithoutSpace(s: string)
    requires NoSpace(s)
    ensures forall i | 0 <= i < |Split(s)| :: NoSpace(Split(s)[i])
    decreases |s|
  {
    if s != "" { PartsWithoutSpace(s[1..]); }
  }

  /** Resolving invents no names. */
  lemma {:induction false} ResolveSelects(stack: seq<string>, parts: seq<string>)
    ensures forall name | name in Resolve(stack, parts) :: name in stack || name in parts
    decreases |parts|
  {
    if parts != [] {
      var part := parts[0];
      if part == "" || part == "." { ResolveSelects(stack, parts[1..]); }
      else if part == ".." { ResolveSelects(if stack == [] then [] else stack[..|stack| - 1], parts[1..]); }
      else { ResolveSelects(stack + [part], parts[1..]); }
    }
  }

  lemma NamesWithoutSpace(raw: string)
    requires NoSpace(raw)
    ensures forall i | 0 <= i < |NamesOf(raw)| :: NoSpace(NamesOf(raw)[i])
  {
    assert TrimSpace(raw) == raw;
    PartsWithoutSpace(raw);
    ResolveSelects([], Split(raw));
    forall i | 0 <= i < |NamesOf(raw)| ensures NoSpace(NamesOf(raw)[i]) {
      assert NamesOf(raw)[i] in Split(raw);
    }
  }

  /** On paths without white space normalization is idempotent. */
  lemma SpaceFreeIdempotent(raw: string)
    requires NoSpace(raw)
    ensures Normalize(Normalize(raw)) == Normalize(raw)
  {
    NamesWithoutSpace(raw);
    NormalizeIdempotent(raw);
  }

  // ---- parent and base ----

  lemma {:induction false} LastSlashShow(names: seq<string>, last: string)
    requires '/' !in last
    ensures LastSlash(Show(names) + "/" + last) == |Show(names)|
  {
    var s := Show(names) + "/" + last;
    assert s[|Show(names)|] == '/';
    assert forall j | |Show(names)| < j < |s| :: s[j] == last[j - |Show(names)| - 1];
  }

  lemma SplitLast(names: seq<string>)
    requires names != []
    ensures Show(names) == Show(names[..|names| - 1]) + "/" + names[|names| - 1]
  {
    var init, last := names[..|names| - 1], names[|names| - 1];
    LastShown(init, last);
    assert init + [last] == names;
  }

  lemma LastShown(init: seq<string>, last: string)
    ensures Show(init + [last]) == Show(init) + "/" + last
  {
    ShowAppend(init, [last]);
    ShowOne(last);
  }

  lemma FixedShow(names: seq<string>)
    requires AllProper(names) && !EndsInSpace(Show(names))
    ensures Normalize(Show(names)) == Show(names)
  {
    if names != [] {
      assert |Show(names)| >= 1 + |names[0]|;
      CleanFixed(names);
      TrimRightShortens(Show(names));
    }
  }

  lemma ParentOfLast(init: seq<string>, last: string, raw: string)
    requires '/' !in last && Normalize(raw) == Show(init) + "/" + last
    ensures Parent(raw) == Show(init) && Base(raw) == last
  {
    var path := Normalize(raw);
    LastSlashShow(init, last);
    assert path[..|Show(init)|] == Show(init);
    assert path[|Show(init)| + 1..] == last;
  }

  /** Every path but the root is, once normalized, its parent, a slash and its base name. */
  lemma ParentAndBase(raw: string)
    requires Normalize(raw) != ""
    ensures Normalize(raw) == Parent(raw) + "/" + Base(raw)
    ensures IsNormal(Parent(raw)) && Proper(Base(raw))
  {
    var names := NormalizeIsNormal(raw);
    var init, last := names[..|names| - 1], names[|names| - 1];
    SplitLast(names);
    ParentOfLast(init, last, raw);
    assert AllProper(init);
  }

  function Up(path: string, steps: nat): string
    decreases steps
  {
    if steps == 0 then path else Up(Parent(path), steps - 1)
  }

  lemma {:induction false} DepthAppend(a: string, b: string)
    ensures Depth(a + b) == Depth(a) + Depth(b)
    decreases |a|
  {
    if a == "" {
      assert a + b == b;
    } else {
      assert (a + b)[1..] == a[1..] + b;
      DepthAppend(a[1..], b);
    }
  }

  lemma {:induction false} DepthName(name: string)
    requires '/' !in name
    ensures Depth(name) == 0
  {
    if name != "" { DepthName(name[1..]); }
  }

  lemma {:induction false} DepthShow(names: seq<string>)
    requires AllProper(names)
    ensures Depth(Show(names)) == |names|
    decreases |names|
  {
    if names != [] {
      DepthShow(names[1..]);
      DepthName(names[0]);
      DepthAppend(names[0], Show(names[1..]));
      assert Show(names)[1..] == names[0] + Show(names[1..]);
    }
  }

  lemma {:induction false} TrimRightLast(before: string, last: string)
    ensures TrimRight(before + "/" + last) == before + "/" + TrimRight(last)
    decreases |last|
  {
    if last == "" {
      assert before + "/" + last == before + "/";
    } else if IsSpace(last[|last| - 1]) {
      var path := before + "/" + last;
      assert path[..|path| - 1] == before + "/" + last[..|last| - 1];
      TrimRightLast(before, last[..|last| - 1]);
    }
  }

  lemma {:induction false} ResolveAppend(stack: seq<string>, a: seq<string>, b: seq<string>)
    ensures Resolve(stack, a + b) == Resolve(Resolve(stack, a), b)
    decreases |a|
  {
    if a == [] {
      assert a + b == b;
    } else {
      assert (a + b)[1..] == a[1..] + b;
      var part := a[0];
      if part == "" || part == "." { ResolveAppend(stack, a[1..], b); }
      else if part == ".." { ResolveAppend(if stack == [] then [] else stack[..|stack| - 1], a[1..], b); }
      else { ResolveAppend(stack + [part], a[1..], b); }
    }
  }

  lemma TrimmedShow(init: seq<string>, last: string)
    requires AllProper(init) && Proper(last)
    ensures TrimSpace(Show(init + [last])) == Show(init + [TrimRight(last)])
    ensures NoSlashes(init + [TrimRight(last)])
  {
    LastShown(init, last);
    LastShown(init, TrimRight(last));
    TrimRightLast(Show(init), last);
    TrimRightShortens(last);
    var path := Show(init + [last]);
    assert path[0] == '/' by {
      if init != [] { assert Show(init)[0] == '/'; }
    }
    assert TrimLeft(path) == path;
  }

  /** The names that normalization leaves of a normal path. */
  lemma NamesOfShow(init: seq<string>, last: string)
    requires AllProper(init) && Proper(last)
    ensures NamesOf(Show(init + [last])) == Resolve(init, [TrimRight(last)])
  {
    TrimmedShow(init, last);
    var trimmed := init + [TrimRight(last)];
    SplitShow(trimmed);
    assert ([""] + trimmed)[1..] == trimmed;
    ResolveAppend([], init, [TrimRight(last)]);
    ResolveKeeps([], init);
    assert [] + init == init;
  }

  /** A name that is still a name without the white space at its end. */
  predicate Sturdy(name: string) {
    Proper(TrimRight(name))
  }

  lemma ResolveSturdy(init: seq<string>, name: string)
    requires AllProper(init) && '/' !in name
    ensures Proper(name) ==> Resolve(init, [name]) == init + [name]
    ensures !Proper(name) ==> |Resolve(init, [name])| <= |init| && AllProper(Resolve(init, [name]))
  {
    assert [name][1..] == [];
  }

  /** Above a sturdy last name is the directory it stands in; above any other the path loses two levels or more. */
  lemma ParentOfShow(init: seq<string>, last: string)
    requires AllProper(init) && Proper(last)
    ensures Sturdy(last) || init == [] ==> Parent(Show(init + [last])) == Show(init)
    ensures !Sturdy(last) && init != [] ==> Depth(Parent(Show(init + [last]))) < |init|
  {
    var path, name := Show(init + [last]), TrimRight(last);
    TrimRightShortens(last);
    NamesOfShow(init, last);
    ResolveSturdy(init, name);
    var names := NormalizeIsNormal(path);
    if Sturdy(last) {
      LastShown(init, name);
      ParentOfLast(init, name, path);
    } else if names != [] {
      var upper := names[..|names| - 1];
      SplitLast(names);
      ParentOfLast(upper, names[|names| - 1], path);
      assert AllProper(upper);
      DepthShow(upper);
    }
  }

  predicate AllSturdyBelow(names: seq<string>) {
    forall i | 1 <= i < |names| :: Sturdy(names[i])
  }

  lemma InitAndLast(names: seq<string>) returns (init: seq<string>, last: string)
    requires AllProper(names) && names != []
    ensures init == names[..|names| - 1] && names == init + [last] && AllProper(init) && Proper(last)
    ensures AllSturdyBelow(names) <==> AllSturdyBelow(init) && (init != [] ==> Sturdy(last))
  {
    init, last := names[..|names| - 1], names[|names| - 1];
  }

  lemma UpOnce(path: string, upper: string, steps: nat)
    requires steps > 0 && Parent(path) == upper
    ensures Up(path, steps) == Up(upper, steps - 1)
  {
  }

  lemma UpStep(names: seq<string>) returns (init: seq<string>)
    requires AllProper(names) && AllSturdyBelow(names) && names != []
    ensures Parent(Show(names)) == Show(init) && AllProper(init) && AllSturdyBelow(init)
    ensures init == names[..|names| - 1]
  {
    var last;
    init, last := InitAndLast(names);
    ParentOfShow(init, last);
  }

  /** Going up once for each name that goes. */
  lemma {:induction false} UpFrom(kept: seq<string>, gone: seq<string>, names: seq<string>)
    requires names == kept + gone && AllProper(names) && AllSturdyBelow(names)
    ensures Up(Show(names), |gone|) == Show(kept)
    decreases |gone|
  {
    if gone == [] {
      assert names == kept;
    } else {
      var fewer := gone[..|gone| - 1];
      var init := UpStep(names);
      assert init == kept + fewer;
      UpOnce(Show(names), Show(init), |gone|);
      UpFrom(kept, fewer, init);
    }
  }

  lemma UpShow(names: seq<string>, steps: nat)
    requires AllProper(names) && AllSturdyBelow(names) && steps <= |names|
    ensures Up(Show(names), steps) == Show(names[..|names| - steps])
  {
    var kept, gone := names[..|names| - steps], names[|names| - steps..];
    assert names == kept + gone;
    UpFrom(kept, gone, names);
  }

  /** Every step up loses one level. */
  ghost predicate LevelByLevel(path: string) {
    forall steps: nat | steps <= Depth(path) :: Depth(Up(path, steps)) == Depth(path) - steps
  }

  lemma SturdyLevels(names: seq<string>)
    requires AllProper(names) && AllSturdyBelow(names)
    ensures LevelByLevel(Show(names))
  {
    DepthShow(names);
    forall steps: nat | steps <= |names| ensures Depth(Up(Show(names), steps)) == |names| - steps {
      UpShow(names, steps);
      var left := names[..|names| - steps];
      assert AllProper(left);
      DepthShow(left);
    }
  }

  lemma {:induction false} LevelsAreSturdy(names: seq<string>)
    requires AllProper(names) && LevelByLevel(Show(names))
    ensures AllSturdyBelow(names)
    decreases |names|
  {
    if |names| > 1 {
      var init, last := InitAndLast(names);
      DepthShow(names);
      DepthShow(init);
      assert Up(Show(names), 1) == Up(Parent(Show(names)), 0) == Parent(Show(names));
      ParentOfShow(init, last);
      forall steps: nat | steps <= |init| ensures Depth(Up(Show(init), steps)) == |init| - steps {
        assert Up(Show(names), steps + 1) == Up(Show(init), steps);
      }
      LevelsAreSturdy(init);
    }
  }

  /** Going up from a path loses one level a step, down to the root after exactly its depth, if and only if every name
      below the first is still a name without the white space at its end. */
  lemma ParentsReachRoot(raw: string)
    ensures LevelByLevel(Normalize(raw)) <==> AllSturdyBelow(NamesOf(raw))
    ensures AllSturdyBelow(NamesOf(raw)) ==> Up(Normalize(raw), Depth(Normalize(raw))) == ""
  {
    var names := NormalizeIsNormal(raw);
    DepthShow(names);
    if AllSturdyBelow(names) {
      SturdyLevels(names);
      UpShow(names, |names|);
      assert names[..0] == [];
    }
    if LevelByLevel(Show(names)) { LevelsAreSturdy(names); }
  }

  lemma TrimNothing(s: string)
    requires NoSpace(s)
    ensures TrimRight(s) == s
  {
  }

  lemma NamesAreSturdy(raw: string)
    requires NoSpace(raw)
    ensures AllSturdyBelow(NamesOf(raw))
  {
    var names := NormalizeIsNormal(raw);
    NamesWithoutSpace(raw);
    forall i | 1 <= i < |names| ensures Sturdy(names[i]) {
      TrimNothing(names[i]);
    }
  }

  lemma ParentIsSettled(raw: string)
    requires NoSpace(raw) && Normalize(raw) != ""
    ensures Normalize(Parent(raw)) == Parent(raw)
  {
    var names := NormalizeIsNormal(raw);
    NamesWithoutSpace(raw);
    var init, last := InitAndLast(names);
    SplitLast(names);
    ParentOfLast(init, last, raw);
    SettledShow(init);
  }

  /** A path without white space is its parent, a slash and its base, is settled, and goes up level by level to the
      root. */
  lemma SpaceFreePaths(raw: string)
    requires NoSpace(raw) && Normalize(raw) != ""
    ensures Normalize(raw) == Parent(raw) + "/" + Base(raw) && Normalize(Parent(raw)) == Parent(raw)
    ensures LevelByLevel(Normalize(raw)) && Up(Normalize(raw), Depth(Normalize(raw))) == ""
  {
    NamesAreSturdy(raw);
    ParentsReachRoot(raw);
    ParentAndBase(raw);
    ParentIsSettled(raw);
  }

  /** Names without white space show a settled path. */
  lemma SettledShow(names: seq<string>)
    requires AllProper(names) && forall i | 0 <= i < |names| :: NoSpace(names[i])
    ensures Normalize(Show(names)) == Show(names)
  {
    if names != [] {
      ShowEnds(names);
      FixedShow(names);
    }
  }

  // ---- what normalizing does, said by the paths alone ----

  lemma {:induction false} SplitAfter(path: string, name: string)
    requires '/' !in name
    ensures Split(path + "/" + name) == Split(path) + [name]
    decreases |path|
  {
    if path == "" {
      assert path + "/" + name == "/" + name;
      SplitSlash(name);
      SplitName(name, "");
      assert name + "" == name && Split("")[1..] == [];
    } else {
      assert (path + "/" + name)[1..] == path[1..] + "/" + name;
      SplitAfter(path[1..], name);
    }
  }

  lemma {:induction false} NamesAfter(path: string, name: string)
    requires NoSpace(path) && NoSpace(name) && '/' !in name
    ensures NamesOf(path + "/" + name) == Resolve(NamesOf(path), [name])
  {
    NoTrim(path);
    NoTrim(path + "/" + name);
    SplitAfter(path, name);
    ResolveAppend([], Split(path), [name]);
  }

  lemma {:induction false} NoTrim(path: string)
    requires NoSpace(path)
    ensures TrimSpace(path) == path
  {
  }

  /** A name below a path is below it once normalized, unless it is `.` or empty, which stay where they are. */
  lemma NormalizeBelow(path: string, name: string)
    requires NoSpace(path) && NoSpace(name)
    ensures Proper(name) ==> Normalize(path + "/" + name) == Normalize(path) + "/" + name
    ensures name == "." || name == "" ==> Normalize(path + "/" + name) == Normalize(path)
  {
    if Proper(name) || name == "." || name == "" {
      var names := NormalizeIsNormal(path);
      var below := NormalizeIsNormal(path + "/" + name);
      NamesAfter(path, name);
      assert [name][1..] == [];
      LastShown(names, name);
    }
  }

  lemma {:induction false} SameNames(a: string, b: string)
    requires NamesOf(a) == NamesOf(b)
    ensures Normalize(a) == Normalize(b)
  {
    var names := NormalizeIsNormal(a);
    var same := NormalizeIsNormal(b);
  }

  lemma {:induction false} ResolveUp(names: seq<string>)
    ensures Resolve(names, [".."]) == if names == [] then [] else names[..|names| - 1]
  {
    assert [".."][1..] == [];
  }

  /** `..` takes back the last name. */
  lemma {:induction false} NormalizeAbove(path: string, name: string)
    requires NoSpace(path) && NoSpace(name) && Proper(name)
    ensures Normalize(path + "/" + name + "/" + "..") == Normalize(path)
  {
    var below := path + "/" + name;
    NamesAfter(path, name);
    NamesAfter(below, "..");
    ResolveUp(NamesOf(below));
    assert [name][1..] == [] && NamesOf(below) == NamesOf(path) + [name];
    assert NamesOf(below)[..|NamesOf(path)|] == NamesOf(path);
    SameNames(below + "/" + "..", path);
  }

  /** From the root it leads nowhere. */
  lemma {:induction false} NormalizeAboveRoot(path: string)
    requires NoSpace(path) && Normalize(path) == ""
    ensures Normalize(path + "/" + "..") == ""
  {
    var names := NormalizeIsNormal(path);
    NamesAfter(path, "..");
    ResolveUp(NamesOf(path));
    assert names != [] ==> Show(names) != "";
    SameNames(path + "/" + "..", path);
  }

  /** A slash in front changes nothing. */
  lemma {:induction false} NormalizeSlashed(path: string)
    requires NoSpace(path)
    ensures Normalize("/" + path) == Normalize(path)
  {
    NoTrim(path);
    NoTrim("/" + path);
    SplitSlash(path);
    assert ([""] + Split(path))[1..] == Split(path);
    SameNames("/" + path, path);
  }

  /** Nor does white space around it. */
  lemma {:induction false} NormalizeTrims(path: string, c: char)
    requires NoSpace(path) && IsSpace(c)
    ensures Normalize([c] + path) == Normalize(path) == Normalize(path + [c])
  {
    NoTrim(path);
    assert ([c] + path)[1..] == path && (path + [c])[..|path|] == path;
    assert path == "" ==> [c][1..] == "" && path + [c] == [c];
    SameNames([c] + path, path);
    SameNames(path + [c], path);
  }

  // ---- paths that take more than one round ----

  /** A path that shows empty names normalizes to what resolving leaves of them. */
  lemma NormalizeParts(path: string, parts: seq<string>)
    requires path == Show(parts) && NoSlashes(parts) && TrimSpace(path) == path
    ensures Normalize(path) == Show(Resolve([], parts))
  {
    SplitShow(parts);
    assert ([""] + parts)[1..] == parts;
    var names := NormalizeIsNormal(path);
  }

  lemma NormalizeShown(init: seq<string>, last: string)
    requires AllProper(init) && Proper(last)
    ensures Normalize(Show(init + [last])) == Show(Resolve(init, [TrimRight(last)]))
  {
    NamesOfShow(init, last);
    var names := NormalizeIsNormal(Show(init + [last]));
  }

  lemma ResolveTrailing(names: seq<string>)
    requires AllProper(names)
    ensures Resolve([], names + [""]) == names
  {
    ResolveAppend([], names, [""]);
    ResolveKeeps([], names);
    assert [] + names == names && [""][1..] == [];
  }

  lemma ShowTwo(a: string, b: string)
    ensures Show([a, b]) == "/" + a + "/" + b
  {
    LastShown([a], b);
    ShowOne(a);
    assert [a] + [b] == [a, b];
  }

  /** One space after a name that stands alone. */
  lemma SpaceAfterName(name: string)
    requires Proper(name) && !EndsInSpace(name)
    ensures TrimRight(name + " ") == name
    ensures Normalize("/" + name + " ") == "/" + name && Normalize("/" + name) == "/" + name
  {
    var last := name + " ";
    assert last[..|last| - 1] == name && TrimRight(name) == name;
    NormalizeShown([], last);
    NormalizeShown([], name);
    ResolveSturdy([], name);
    ShowOne(last);
    ShowOne(name);
    assert [] + [last] == [last] && [] + [name] == [name];
    assert "/" + name + " " == "/" + last;
  }

  /** `"/x /"` settles in the second round. */
  lemma SecondRoundExample()
    ensures Normalize("/x /") == "/x " && Normalize("/x ") == "/x"
  {
    ShowTwo("x ", "");
    ShowOne("x ");
    assert "/" + "x " + "/" + "" == "/x /" && ["x "] + [""] == ["x ", ""];
    NormalizeParts("/x /", ["x ", ""]);
    ResolveTrailing(["x "]);
    SpaceAfterName("x");
    assert "/" + "x" + " " == "/x ";
  }

  lemma FirstOfThreeRounds()
    ensures Normalize("/a /. /") == "/a /. "
  {
    var names := ["a ", ". "];
    ShowTwo("a ", ". ");
    LastShown(names, "");
    assert "/" + "a " + "/" + ". " == "/a /. " && "/a /. " + "/" + "" == "/a /. /";
    NormalizeParts("/a /. /", names + [""]);
    ResolveTrailing(names);
  }

  lemma SecondOfThreeRounds()
    ensures Normalize("/a /. ") == "/a "
  {
    ShowTwo("a ", ". ");
    ShowOne("a ");
    assert ["a "] + [". "] == ["a ", ". "] && "/" + "a " + "/" + ". " == "/a /. ";
    NormalizeShown(["a "], ". ");
    assert TrimRight(". ") == "." by { assert ". "[..1] == "."; }
    assert ["."][1..] == [];
  }

  lemma ThirdOfThreeRounds()
    ensures Normalize("/a ") == "/a" && Normalize("/a") == "/a"
  {
    SpaceAfterName("a");
    assert "/" + "a" + " " == "/a ";
  }

  /** `"/a /. /"` settles in the third round only. */
  lemma ThirdRoundExample()
    ensures Normalize(Normalize("/a /. /")) == "/a " && Normalize("/a ") == "/a" && Normalize("/a") == "/a"
  {
    FirstOfThreeRounds();
    SecondOfThreeRounds();
    ThirdOfThreeRounds();
  }

  // ---- the root listing ----

  datatype FileEntry = FileEntry(name: string, path: string, kind: string)

  function FirstSlash(s: string): (k: int)
    ensures -1 <= k < |s|
    ensures k >= 0 ==> s[k] == '/' && '/' !in s[..k]
    ensures k < 0 ==> '/' !in s
  {
    if s == "" then -1
    else if s[0] == '/' then 0
    else
      var k := FirstSlash(s[1..]);
      assert s == [s[0]] + s[1..];
      assert k >= 0 ==> s[..k + 1] == [s[0]] + s[1..][..k];
      if k < 0 then -1 else k + 1
  }

  /** The top-level names of the backup paths. */
  function RootPaths(paths: seq<string>): set<string> {
    set i | 0 <= i < |paths| && Normalize(paths[i]) != "" && |Split(Normalize(paths[i]))| > 1 ::
        "/" + Split(Normalize(paths[i]))[1]
  }

  /** The first name of a normalized path. */
  function FirstSegment(normalized: string): string {
    var trimmed := if normalized != "" && normalized[0] == '/' then normalized[1..] else normalized;
    var idx := FirstSlash(trimmed);
    if idx >= 0 then trimmed[..idx] else trimmed
  }

  lemma {:induction false} FirstSlashAfter(name: string, tail: string)
    requires '/' !in name && (tail == "" || tail[0] == '/')
    ensures FirstSlash(name + tail) == if tail == "" then -1 else |name|
  {
    if name == "" {
      assert name + tail == tail;
    } else {
      assert (name + tail)[1..] == name[1..] + tail;
      FirstSlashAfter(name[1..], tail);
    }
  }

  lemma FirstSegmentIsName(raw: string)
    requires Normalize(raw) != ""
    ensures |Split(Normalize(raw))| > 1 && FirstSegment(Normalize(raw)) == Split(Normalize(raw))[1]
    ensures Proper(FirstSegment(Normalize(raw)))
  {
    var names := NormalizeIsNormal(raw);
    SplitShow(names);
    var tail := Show(names[1..]);
    FirstSlashAfter(names[0], tail);
    assert Normalize(raw)[1..] == names[0] + tail;
    assert (names[0] + tail)[..|names[0]|] == names[0];
    assert tail == "" ==> names[0] + tail == names[0];
  }

  lemma RootPathsStep(paths: seq<string>, i: nat)
    requires i < |paths|
    ensures RootPaths(paths[..i + 1]) ==
            RootPaths(paths[..i]) + if Normalize(paths[i]) != "" then {"/" + FirstSegment(Normalize(paths[i]))} else {}
    ensures Normalize(paths[i]) != "" ==> FirstSegment(Normalize(paths[i])) != ""
  {
    var before, after := paths[..i], paths[..i + 1];
    assert forall j | 0 <= j < i :: after[j] == before[j];
    assert after[i] == paths[i];
    if Normalize(paths[i]) != "" { FirstSegmentIsName(paths[i]); }
  }

  predicate Listed(roots: map<string, FileEntry>) {
    forall path | path in roots :: roots[path] == FileEntry(Base(path), path, "dir")
  }

  method RootEntriesFromSnapshotPaths(paths: seq<string>) returns (entries: seq<FileEntry>)
    ensures forall i, j | 0 <= i < j < |entries| :: LexLess(entries[i].path, entries[j].path)
    ensures (set entry | entry in entries :: entry.path) == RootPaths(paths)
    ensures forall entry | entry in entries :: entry == FileEntry(Base(entry.path), entry.path, "dir")
  {
    var roots := CollectRoots(paths);
    entries := EntriesInOrder(roots);
  }

  method CollectRoots(paths: seq<string>) returns (roots: map<string, FileEntry>)
    ensures roots.Keys == RootPaths(paths) && Listed(roots)
  {
    roots := map[];
    for i := 0 to |paths|
      invariant roots.Keys == RootPaths(paths[..i]) && Listed(roots)
    {
      RootPathsStep(paths, i);
      var normalized := Normalize(paths[i]);
      if normalized == "" {
        continue;
      }
      var firstSegment := FirstSegment(normalized);
      if firstSegment == "" {
        continue;
      }
      var rootPath := "/" + firstSegment;
      roots := roots[rootPath := FileEntry(Base(rootPath), rootPath, "dir")];
    }
    assert paths[..|paths|] == paths;
  }

  method EntriesInOrder(roots: map<string, FileEntry>) returns (entries: seq<FileEntry>)
    requires Listed(roots)
    ensures forall i, j | 0 <= i < j < |entries| :: LexLess(entries[i].path, entries[j].path)
    ensures (set entry | entry in entries :: entry.path) == roots.Keys
    ensures forall entry | entry in entries :: entry == FileEntry(Base(entry.path), entry.path, "dir")
  {
    LexStrict(roots.Keys);
    var keys := SortSet(LexLess, roots.Keys);
    assert forall i | 0 <= i < |keys| :: keys[i] in Elements(keys);
    entries := CollectEntries(roots, keys);
    EntryPaths(entries, keys);
  }

  lemma EntryPaths(entries: seq<FileEntry>, keys: seq<string>)
    requires |entries| == |keys| && forall i | 0 <= i < |keys| :: entries[i].path == keys[i]
    ensures (set entry | entry in entries :: entry.path) == Elements(keys)
  {
    forall path | path in keys ensures exists entry | entry in entries :: entry.path == path {
      var i :| 0 <= i < |keys| && keys[i] == path;
      assert entries[i] in entries;
    }
  }

  method CollectEntries(roots: map<string, FileEntry>, keys: seq<string>) returns (entries: seq<FileEntry>)
    requires forall i | 0 <= i < |keys| :: keys[i] in roots
    ensures |entries| == |keys|
    ensures forall i | 0 <= i < |keys| :: entries[i] == roots[keys[i]]
  {
    entries := [];
    while |entries| < |keys|
      invariant |entries| <= |keys|
      invariant forall i | 0 <= i < |entries| :: entries[i] == roots[keys[i]]
    {
      entries := entries + [roots[keys[|entries|]]];
    }
  }
}
