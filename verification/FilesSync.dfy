/** `runFilesSync` on the tables: every way it can go is a run of the protocol. */
module FilesSync {
  import opened Wrappers
  import opened CacheTables
  import opened FileTables
  import opened CacheStore
  import opened FileIndexProtocol
  import SnapshotPath

  /** What the world answers to a request below the root: the two state writes before the command, the command's
      output unless it fails, the calls of the store, and the last state write. */
  datatype Answers = Answers(running: bool, syncState: bool, output: Option<Payload<Node>>, store: Database,
      err: string, last: bool)

  /** The same for a root: the paths of the snapshot unless they cannot be read, and the write that stands in for a
      store. */
  datatype RootAnswers = RootAnswers(
    running: bool, syncState: bool, paths: Option<seq<string>>, mark: bool, store: Database, err: string, last: bool)

  datatype Request =
    | Below(key: IndexKey, prewarm: bool, answers: Answers)
    | Root(snapshot: string, prewarm: bool, rootAnswers: RootAnswers)

  /** `steps` lead from `s` to a state with these tables and this worker; they queue nothing and publish nothing. */
  ghost predicate Leads(s: State, steps: seq<Step>, f: FilesState, worker: Worker) {
    && Legal(s, steps) && Run(s, steps).f == f && Run(s, steps).worker == worker
    && Run(s, steps).asked == s.asked && Run(s, steps).generation == s.generation
  }

  /** One index row is written with these columns; every other row stays, and so does its own generation. */
  predicate RowIs(before: IndexRows, after: IndexRows, key: IndexKey, status: Status, count: nat, err: string,
                  stale: bool) {
    && after.Keys == before.Keys + {key} && (forall k | k in before && k != key :: after[k] == before[k])
    && after[key].status == status && after[key].count == count && after[key].lastError == err
    && after[key].stale == stale
  }

  predicate GenerationKept(before: IndexRows, after: IndexRows, key: IndexKey) {
    key in after && after[key].generation == if key in before then before[key].generation else 0
  }

  /** The directory is stored: its command succeeds, the payload decodes without a repeated child, and no call fails. */
  ghost predicate StoreWorks(path: string, output: Option<Payload<Node>>, db: Database) {
    var parent := SnapshotPath.Normalize(path);
    && output.Some? && output.value.opens && output.value.closes
    && db.begin && db.query(0) && db.query(1) && db.prepare && db.commit
    && InsertsAll(db, parent, output.value.items, |output.value.items|)
    && Distinct(parent, Decoded(output.value.items))
  }

  // ---- a directory below the root ----

  /** The failed state of a request, its result ignored. */
  method RecordFailure(cache: RepoCache, key: IndexKey, generation: nat, err: string, db: bool, ghost s: State,
      ghost steps: seq<Step>)
    returns (ghost all: seq<Step>)
    requires RowsOk(cache.files.rows) && Leads(s, steps, cache.files, Failing(generation, key))
    modifies cache`files
    ensures RowsOk(cache.files.rows) && Leads(s, all, cache.files, Polling(generation))
    ensures cache.files.rows == old(cache.files).rows
    ensures db ==> RowIs(old(cache.files).indexes, cache.files.indexes, key, Failed, 0, err, true)
                   && GenerationKept(old(cache.files).indexes, cache.files.indexes, key)
    ensures !db ==> cache.files == old(cache.files)
  {
    var written := cache.SetFileIndexState(key, IndexRow(Failed, 0, err, true, 0), db);
    all := RunStep(s, steps, Fail(err, db));
  }

  /** One request; the worker ends when a state write it depends on fails. The index row of the directory says how it
      went, and its rows are the payload's child entries or as they were. */
  method ServeRequest(cache: RepoCache, key: IndexKey, generation: nat, a: Answers, ghost s: State)
    returns (goes: bool, ghost steps: seq<Step>)
    requires RowsOk(cache.files.rows) && s.f == cache.files && s.worker == Polling(generation) && key in s.asked
    modifies cache`files
    ensures RowsOk(cache.files.rows) && Leads(s, steps, cache.files, if goes then Polling(generation) else Idle)
    ensures goes <==> a.running && a.syncState && (StoreWorks(key.path, a.output, a.store) ==> a.last)
    ensures !a.running ==> cache.files == old(cache.files)
    ensures a.running && !(a.syncState && a.last) ==>
              RowIs(old(cache.files).indexes, cache.files.indexes, key, Running, 0, "", true)
              && GenerationKept(old(cache.files).indexes, cache.files.indexes, key)
    ensures a.running && a.syncState && a.last && !StoreWorks(key.path, a.output, a.store) ==>
              RowIs(old(cache.files).indexes, cache.files.indexes, key, Failed, 0, a.err, true)
              && GenerationKept(old(cache.files).indexes, cache.files.indexes, key)
    ensures a.running && a.syncState && a.last && StoreWorks(key.path, a.output, a.store) ==>
              var nodes := Decoded(a.output.value.items);
              RowIs(old(cache.files).indexes, cache.files.indexes, key, Successful,
                    |ChildEntries(SnapshotPath.Normalize(key.path), nodes)|, "", false)
              && (generation > 0 ==> cache.files.indexes[key].generation == generation)
    ensures if a.running && a.syncState && StoreWorks(key.path, a.output, a.store) then
              var parent := SnapshotPath.Normalize(key.path);
              RowsAreEntries(Listing(cache.files.rows, key.snapshot, parent, generation), parent,
                             Decoded(a.output.value.items))
            else cache.files.rows == old(cache.files).rows
  {
    goes, steps := StartRequest(cache, key, generation, a, s);
    if !goes {
      return;
    }
    ghost var started := cache.files.indexes;
    var count: Option<nat>;
    count, steps := FetchRequest(cache, key, generation, a, s, steps);
    goes, steps := FinishRequest(cache, key, generation, a, count, s, steps);
    if goes && a.last {
      RowIsAgain(s.f.indexes, started, cache.files.indexes, key, if count.Some? then Successful else Failed,
                 count, if count.Some? then "" else a.err, count.None?);
    }
  }

  function CountOf(count: Option<nat>): nat {
    if count.Some? then count.value else 0
  }

  /** The last state of a request: a success that must be written, or a failure that need not be. */
  method FinishRequest(cache: RepoCache, key: IndexKey, generation: nat, a: Answers, count: Option<nat>,
      ghost s: State, ghost before: seq<Step>)
    returns (goes: bool, ghost steps: seq<Step>)
    requires RowsOk(cache.files.rows)
    requires Leads(s, before, cache.files, if count.Some? then Succeeding(generation, key, count.value)
            else Failing(generation, key))
    modifies cache`files
    ensures RowsOk(cache.files.rows) && Leads(s, steps, cache.files, if goes then Polling(generation) else Idle)
    ensures goes <==> count.None? || a.last
    ensures cache.files.rows == old(cache.files).rows && (!a.last ==> cache.files == old(cache.files))
    ensures a.last ==> RowIs(old(cache.files).indexes, cache.files.indexes, key,
                             if count.Some? then Successful else Failed, CountOf(count),
                             if count.Some? then "" else a.err, count.None?)
    ensures a.last && count.Some? && generation > 0 ==> cache.files.indexes[key].generation == generation
    ensures a.last && count.None? ==> GenerationKept(old(cache.files).indexes, cache.files.indexes, key)
  {
    if count.None? {
      steps := RecordFailure(cache, key, generation, a.err, a.last, s, before);
      return true, steps;
    }
    goes := cache.SetFileIndexState(key, IndexRow(Successful, count.value, "", false, generation), a.last);
    steps := RunStep(s, before, Succeed(goes));
  }

  /** A second write of one index row. */
  lemma RowIsAgain(before: IndexRows, middle: IndexRows, after: IndexRows, key: IndexKey, status: Status,
                   count: Option<nat>, err: string, stale: bool)
    requires RowIs(before, middle, key, Running, 0, "", true) && GenerationKept(before, middle, key)
    requires RowIs(middle, after, key, status, CountOf(count), err, stale)
    ensures RowIs(before, after, key, status, CountOf(count), err, stale)
    ensures GenerationKept(middle, after, key) ==> GenerationKept(before, after, key)
  {
  }

  /** The running state of the directory and of the domain. */
  method StartRequest(cache: RepoCache, key: IndexKey, generation: nat, a: Answers, ghost s: State)
    returns (goes: bool, ghost steps: seq<Step>)
    requires RowsOk(cache.files.rows) && s.f == cache.files && s.worker == Polling(generation) && key in s.asked
    modifies cache`files
    ensures RowsOk(cache.files.rows) && Leads(s, steps, cache.files, if goes then Fetching(generation, key) else Idle)
    ensures goes == (a.running && a.syncState) && cache.files.rows == old(cache.files).rows
    ensures a.running ==> RowIs(old(cache.files).indexes, cache.files.indexes, key, Running, 0, "", true)
                          && GenerationKept(old(cache.files).indexes, cache.files.indexes, key)
    ensures !a.running ==> cache.files == old(cache.files)
  {
    goes := cache.SetFileIndexState(key, IndexRow(Running, 0, "", true, 0), a.running);
    steps := RunStep(s, [], Serve(key, goes));
    if goes && !a.syncState {
      goes := false;
      steps := RunStep(s, steps, Abort);
    }
  }

  /** The command and the store; without rows the worker is about to record a failure. */
  method FetchRequest(cache: RepoCache, key: IndexKey, generation: nat, a: Answers, ghost s: State,
      ghost before: seq<Step>)
    returns (count: Option<nat>, ghost steps: seq<Step>)
    requires RowsOk(cache.files.rows) && Leads(s, before, cache.files, Fetching(generation, key))
    modifies cache`files
    ensures RowsOk(cache.files.rows)
    ensures Leads(s, steps, cache.files, if count.Some? then Succeeding(generation, key, count.value)
            else Failing(generation, key))
    ensures count.Some? <==> StoreWorks(key.path, a.output, a.store)
    ensures cache.files.indexes == old(cache.files).indexes
    ensures count.None? ==> cache.files == old(cache.files)
    ensures count.Some? ==>
              var parent, nodes := SnapshotPath.Normalize(key.path), Decoded(a.output.value.items);
              RowsAreEntries(Listing(cache.files.rows, key.snapshot, parent, generation), parent, nodes)
              && count.value == |ChildEntries(parent, nodes)|
  {
    if a.output.None? {
      steps := RunStep(s, before, FetchFails);
      return None, steps;
    }
    steps := RunStep(s, before, FetchReturns(a.output.value));
    count, steps := StoreRequest(cache, key, generation, a, s, steps);
  }

  lemma StoreIsStep(s: State, f: FilesState, count: Option<nat>)
    requires s.worker.Storing? && (count.None? ==> f == s.f)
    requires count.Some? ==>
               var dir, payload := Directory(s.worker.key), s.worker.payload;
               Decodes(payload) && Distinct(dir.path, Decoded(payload.items)) && f.indexes == s.f.indexes
               && var children := Children(dir.path, Decoded(payload.items));
                  f.rows == WithDirectory(s.f.rows, dir.snapshot, dir.path, s.worker.generation, children)
                      && count.value == |children|
    ensures var after := Apply(s, StoreFiles(count.Some?));
            after.f == f && after.asked == s.asked && after.worker ==
            if count.Some? then Succeeding(s.worker.generation, s.worker.key, count.value)
                else Failing(s.worker.generation, s.worker.key)
  {
  }

  method StoreRequest(cache: RepoCache, key: IndexKey, generation: nat, a: Answers, ghost s: State,
      ghost before: seq<Step>)
    returns (count: Option<nat>, ghost steps: seq<Step>)
    requires a.output.Some? && RowsOk(cache.files.rows)
    requires Leads(s, before, cache.files, Storing(generation, key, a.output.value))
    modifies cache`files
    ensures RowsOk(cache.files.rows)
    ensures Leads(s, steps, cache.files, if count.Some? then Succeeding(generation, key, count.value)
            else Failing(generation, key))
    ensures count.Some? <==> StoreWorks(key.path, a.output, a.store)
    ensures cache.files.indexes == old(cache.files).indexes
    ensures count.None? ==> cache.files == old(cache.files)
    ensures count.Some? ==>
              var parent, nodes := SnapshotPath.Normalize(key.path), Decoded(a.output.value.items);
              RowsAreEntries(Listing(cache.files.rows, key.snapshot, parent, generation), parent, nodes)
              && count.value == |ChildEntries(parent, nodes)|
  {
    ghost var now := Run(s, before);
    count := cache.StoreSnapshotFiles(key.snapshot, key.path, generation, a.output.value, a.store);
    StoreIsStep(now, cache.files, count);
    steps := RunStep(s, before, StoreFiles(count.Some?));
  }

  // ---- a root ----

  /** An index state of a root; a failing write is no step. */
  method WriteRoot(cache: RepoCache, snapshot: string, row: IndexRow, db: bool, ghost generation: nat, ghost s: State,
      ghost before: seq<Step>)
    returns (ok: bool, ghost steps: seq<Step>)
    requires RowsOk(cache.files.rows) && Leads(s, before, cache.files, Polling(generation))
    modifies cache`files
    ensures ok == db && RowsOk(cache.files.rows) && Leads(s, steps, cache.files, Polling(generation))
    ensures cache.files.rows == old(cache.files).rows && (!ok ==> cache.files == old(cache.files))
    ensures ok ==> RowIs(old(cache.files).indexes, cache.files.indexes, IndexKey(snapshot, ""), row.status, row.count,
                         row.lastError, row.stale)
  {
    ok := cache.SetFileIndexState(IndexKey(snapshot, ""), row, db);
    steps := before;
    if ok {
      steps := RunStep(s, before, WriteRootIndex(snapshot, row));
    }
  }

  /** The decoded lines of the root entries. */
  function RootNodes(entries: seq<SnapshotPath.FileEntry>): (items: seq<Option<Node>>)
    ensures AllDecode(items)
  {
    seq(|entries|, i requires 0 <= i < |entries| => Some(Node(entries[i].path, entries[i].name, entries[i].kind, "")))
  }

  lemma RootIsRoot()
    ensures SnapshotPath.Normalize("") == ""
  {
  }

  /** The entries of a root: one directory for each top-level name of the backup paths. */
  ghost predicate AreRoots(nodes: seq<Node>, paths: seq<string>) {
    && (forall node | node in nodes :: node == Node(node.path, SnapshotPath.Base(node.path), "dir", ""))
    && (set node | node in nodes :: node.path) == SnapshotPath.RootPaths(paths)
  }

  lemma RootPathsOf(entries: seq<SnapshotPath.FileEntry>, nodes: seq<Node>)
    requires |nodes| == |entries| && forall i | 0 <= i < |entries| :: nodes[i].path == entries[i].path
    ensures (set node | node in nodes :: node.path) == (set entry | entry in entries :: entry.path)
  {
    var named, listed := (set node | node in nodes :: node.path), (set entry | entry in entries :: entry.path);
    forall path | path in listed ensures path in named {
      var i :| 0 <= i < |entries| && entries[i].path == path;
      assert nodes[i] in nodes;
    }
    forall path | path in named ensures path in listed {
      var i :| 0 <= i < |nodes| && nodes[i].path == path;
      assert entries[i] in entries;
    }
  }

  lemma RootNodesAreRoots(entries: seq<SnapshotPath.FileEntry>, paths: seq<string>)
    requires (set entry | entry in entries :: entry.path) == SnapshotPath.RootPaths(paths)
    requires forall entry | entry in entries :: entry ==
                                              SnapshotPath.FileEntry(SnapshotPath.Base(entry.path), entry.path, "dir")
    ensures AreRoots(Decoded(RootNodes(entries)), paths)
  {
    var nodes := Decoded(RootNodes(entries));
    RootPathsOf(entries, nodes);
    forall i | 0 <= i < |entries| ensures nodes[i] == Node(nodes[i].path, SnapshotPath.Base(nodes[i].path), "dir", "") {
      assert entries[i] in entries;
    }
  }

  predicate OthersKept(before: IndexRows, after: IndexRows, key: IndexKey) {
    after.Keys + {key} == before.Keys + {key} && forall k | k in before && k != key :: after[k] == before[k]
  }

  lemma WrittenLast(before: IndexRows, running: IndexRows, stored: IndexRows, after: IndexRows, key: IndexKey,
                    count: Option<nat>, err: string)
    requires RowIs(before, running, key, Running, 0, "", true) && OthersKept(running, stored, key)
    requires RowIs(stored, after, key, if count.Some? then Successful else Failed, CountOf(count), err, count.None?)
    ensures RowIs(before, after, key, if count.Some? then Successful else Failed, CountOf(count), err, count.None?)
  {
  }

  /** `storeSnapshotFileRoots`: unknown paths mark the root stale and count as no entries. */
  method StoreRoots(cache: RepoCache, snapshot: string, generation: nat, a: RootAnswers, ghost s: State,
      ghost before: seq<Step>)
    returns (count: Option<nat>, ghost nodes: seq<Node>, ghost steps: seq<Step>)
    requires RowsOk(cache.files.rows) && Leads(s, before, cache.files, Polling(generation))
    modifies cache`files
    ensures RowsOk(cache.files.rows) && Leads(s, steps, cache.files, Polling(generation))
    ensures a.paths.None? ==> count.None?
    ensures a.paths.Some? ==> AreRoots(nodes, a.paths.value)
    ensures a.paths.Some? && nodes == [] ==> count == (if a.mark then Some(0) else None)
                                             && cache.files.rows == old(cache.files).rows
    ensures count.None? ==> cache.files == old(cache.files)
    ensures count.Some? && nodes != [] ==>
              && RowsAreEntries(Listing(cache.files.rows, snapshot, "", generation), "", nodes)
              && count.value == |ChildEntries("", nodes)|
    ensures OthersKept(old(cache.files).indexes, cache.files.indexes, IndexKey(snapshot, ""))
  {
    steps, nodes := before, [];
    if a.paths.None? {
      return None, nodes, steps;
    }
    if |a.paths.value| == 0 {
      assert SnapshotPath.RootPaths(a.paths.value) == {};
      var ok: bool;
      ok, steps := WriteRoot(cache, snapshot, IndexRow(Stale, 0, "snapshot paths are not indexed yet", true, 0),
          a.mark, generation, s, steps);
      return if ok then Some(0) else None, nodes, steps;
    }
    var entries := SnapshotPath.RootEntriesFromSnapshotPaths(a.paths.value);
    nodes := Decoded(RootNodes(entries));
    RootNodesAreRoots(entries, a.paths.value);
    if |entries| == 0 {
      var ok: bool;
      ok, steps := WriteRoot(cache, snapshot, IndexRow(Successful, 0, "", false, generation), a.mark, generation, s,
          steps);
      return if ok then Some(0) else None, nodes, steps;
    }
    var payload := Payload(true, RootNodes(entries), true);
    count := cache.StoreSnapshotFiles(snapshot, "", generation, payload, a.store);
    RootIsRoot();
    if count.Some? {
      steps := RunStep(s, steps, StoreRoot(snapshot, generation, nodes));
    }
  }

  /** One root request. With unknown paths the stale mark does not last: the root ends as a success of no entries. */
  method ServeRoot(cache: RepoCache, snapshot: string, generation: nat, a: RootAnswers, ghost s: State)
    returns (goes: bool, ghost count: Option<nat>, ghost nodes: seq<Node>, ghost steps: seq<Step>)
    requires RowsOk(cache.files.rows) && s.f == cache.files && s.worker == Polling(generation)
    modifies cache`files
    ensures RowsOk(cache.files.rows) && Leads(s, steps, cache.files, if goes then Polling(generation) else Idle)
    ensures goes <==> a.running && a.syncState && (count.Some? ==> a.last)
    ensures a.paths.None? ==> count.None?
    ensures a.running && a.syncState && a.paths.Some? ==>
              && AreRoots(nodes, a.paths.value) && (nodes == [] && a.mark ==> count == Some(0))
    ensures a.running && a.syncState && count.Some? && nodes != [] ==>
              && RowsAreEntries(Listing(cache.files.rows, snapshot, "", generation), "", nodes)
              && count.value == |ChildEntries("", nodes)|
    ensures !a.running ==> cache.files == old(cache.files)
    ensures goes && a.last ==>
              RowIs(old(cache.files).indexes, cache.files.indexes, IndexKey(snapshot, ""),
                    if count.Some? then Successful else Failed, CountOf(count), if count.Some? then "" else a.err,
                    count.None?)
  {
    count, nodes := None, [];
    goes, steps := WriteRoot(cache, snapshot, IndexRow(Running, 0, "", true, 0), a.running, generation, s, []);
    if !goes || !a.syncState {
      steps := RunStep(s, steps, EndWork(false));
      return false, count, nodes, steps;
    }
    ghost var running := cache.files.indexes;
    var stored: Option<nat>;
    stored, nodes, steps := StoreRoots(cache, snapshot, generation, a, s, steps);
    count := stored;
    ghost var middle := cache.files.indexes;
    goes, steps := FinishRoot(cache, snapshot, generation, a, stored, s, steps);
    if goes && a.last {
      WrittenLast(s.f.indexes, running, middle, cache.files.indexes, IndexKey(snapshot, ""), count,
                  if count.Some? then "" else a.err);
    }
  }

  /** The last state of a root request. */
  method FinishRoot(cache: RepoCache, snapshot: string, generation: nat, a: RootAnswers, count: Option<nat>,
      ghost s: State, ghost before: seq<Step>)
    returns (goes: bool, ghost steps: seq<Step>)
    requires RowsOk(cache.files.rows) && Leads(s, before, cache.files, Polling(generation))
    modifies cache`files
    ensures RowsOk(cache.files.rows) && Leads(s, steps, cache.files, if goes then Polling(generation) else Idle)
    ensures goes <==> count.None? || a.last
    ensures cache.files.rows == old(cache.files).rows
    ensures a.last ==> RowIs(old(cache.files).indexes, cache.files.indexes, IndexKey(snapshot, ""),
                             if count.Some? then Successful else Failed, CountOf(count),
                             if count.Some? then "" else a.err, count.None?)
  {
    if count.None? {
      var recorded: bool;
      recorded, steps := WriteRoot(cache, snapshot, IndexRow(Failed, 0, a.err, true, 0), a.last, generation, s, before);
      return true, steps;
    }
    goes, steps := WriteRoot(cache, snapshot, IndexRow(Successful, count.value, "", false, generation), a.last,
        generation, s, before);
    if !goes {
      steps := RunStep(s, steps, EndWork(false));
    }
  }

  // ---- the worker ----

  const PENDING_BACKGROUND := "background_pending"

  const ROOTS_PREWARMED := "roots_prewarmed"

  predicate AnyStale(indexes: IndexRows) {
    exists k | k in indexes :: indexes[k].stale
  }

  /** The state a worker leaves: stale while any index row is, or when it only prewarmed roots. */
  function LastState(indexes: IndexRows, readable: bool, requests: seq<Request>): (Status, string) {
    if readable && AnyStale(indexes) then (Stale, PENDING_BACKGROUND)
    else if requests != [] && (forall i | 0 <= i < |requests| :: requests[i].prewarm) then (Stale, ROOTS_PREWARMED)
    else (Successful, "")
  }

  /** Background work that is left over goes before roots that were prewarmed. */
  lemma LastStateMeans(indexes: IndexRows, readable: bool, requests: seq<Request>)
    ensures var pending := readable && exists k | k in indexes :: indexes[k].stale;
            var prewarms := requests != [] && forall i | 0 <= i < |requests| :: requests[i].prewarm;
            && (LastState(indexes, readable, requests) == (Stale, "background_pending") <==> pending)
            && (LastState(indexes, readable, requests) == (Stale, "roots_prewarmed") <==> !pending && prewarms)
            && (LastState(indexes, readable, requests) == (Successful, "") <==> !pending && !prewarms)
  {
  }

  method RunFilesSync(cache: RepoCache, requests: seq<Request>, generation: nat, readable: bool, published: bool,
      ghost s: State)
    returns (last: Option<(Status, string)>, ghost steps: seq<Step>)
    requires RowsOk(cache.files.rows) && s.f == cache.files && s.worker == Polling(generation)
    requires forall i | 0 <= i < |requests| && requests[i].Below? :: requests[i].key in s.asked
    modifies cache`files
    ensures RowsOk(cache.files.rows) && Legal(s, steps)
    ensures Run(s, steps).f == cache.files && Run(s, steps).worker == Idle
    ensures last.Some? ==> last.value == LastState(cache.files.indexes, readable, requests)
    ensures Run(s, steps).generation == if last.Some? && published then generation else s.generation
  {
    var goes := true;
    var onlyPrewarm := true;
    steps := [];
    var i := 0;
    while i < |requests|
      invariant 0 <= i <= |requests| && RowsOk(cache.files.rows)
      invariant Leads(s, steps, cache.files, Polling(generation))
      invariant onlyPrewarm <==> forall j | 0 <= j < i :: requests[j].prewarm
    {
      if !requests[i].prewarm {
        onlyPrewarm := false;
      }
      goes, steps := ServeNext(cache, requests[i], generation, s, steps);
      if !goes {
        return None, steps;
      }
      i := i + 1;
    }
    steps := RunStep(s, steps, EndWork(published));
    var state := ChooseLastState(cache.files.indexes, readable, requests, onlyPrewarm);
    last := Some(state);
  }

  method ChooseLastState(indexes: IndexRows, readable: bool, requests: seq<Request>, onlyPrewarm: bool)
    returns (last: (Status, string))
    requires onlyPrewarm <==> forall i | 0 <= i < |requests| :: requests[i].prewarm
    ensures last == LastState(indexes, readable, requests)
  {
    var status := Successful;
    var phase := "";
    if readable && AnyStale(indexes) {
      status, phase := Stale, PENDING_BACKGROUND;
    }
    if |requests| > 0 && onlyPrewarm && status == Successful {
      status, phase := Stale, ROOTS_PREWARMED;
    }
    last := (status, phase);
  }

  method ServeNext(cache: RepoCache, request: Request, generation: nat, ghost s: State, ghost before: seq<Step>)
    returns (goes: bool, ghost steps: seq<Step>)
    requires RowsOk(cache.files.rows) && Leads(s, before, cache.files, Polling(generation))
    requires request.Below? ==> request.key in s.asked
    modifies cache`files
    ensures RowsOk(cache.files.rows) && Leads(s, steps, cache.files, if goes then Polling(generation) else Idle)
  {
    ghost var more;
    if request.Below? {
      goes, more := ServeRequest(cache, request.key, generation, request.answers, Run(s, before));
    } else {
      ghost var count, nodes;
      goes, count, nodes, more := ServeRoot(cache, request.snapshot, generation, request.rootAnswers, Run(s, before));
    }
    RunConcat(s, before, more);
    steps := before + more;
  }
}
