/** All interleavings of the files worker, root listings, stale marks and core finalizes on the file index of one
    repository. */
module FileIndexProtocol {
  import opened Wrappers
  import opened CacheTables
  import opened FileTables
  import SnapshotPath

  /** Where `runFilesSync` is with a request for a directory other than the root. */
  datatype Worker =
    | Idle
    | Polling(generation: nat)
    | Fetching(generation: nat, key: IndexKey)
    | Storing(generation: nat, key: IndexKey, payload: Payload<Node>)
    | Succeeding(generation: nat, key: IndexKey, count: nat)
    | Failing(generation: nat, key: IndexKey)

  /** The tables, the published generation, the requests queued so far and the worker; and, for stating the
      properties, the last payload committed for each directory, and the directories whose rows changed in another way
      than by a request for them. */
  datatype State = State(
    f: FilesState, generation: nat, asked: set<IndexKey>, worker: Worker,
    stored: map<IndexKey, seq<Node>>, doubtful: set<IndexKey>)

  const INITIAL := State(FilesState(map[], map[]), 0, {}, Idle, map[], {})

  datatype Step =
    | Ask(snapshot: string, raw: string)                // ListSnapshotFiles and EnsureSnapshotPathIndex
    | Recollect(key: IndexKey)                          // collectFileSyncTargets
    | BeginWork(db: bool)
    | Serve(key: IndexKey, db: bool)                    // a request leaves the queue: the running state
    | Abort                                             // a state write fails and the worker returns
    | FetchFails
    | FetchReturns(payload: Payload<Node>)
    | StoreFiles(db: bool)                              // storeSnapshotFiles
    | Succeed(db: bool)                                 // the success state
    | Fail(err: string, db: bool)                       // the failed state, its result ignored
    | EndWork(db: bool)
    // storeSnapshotFileRoots, by the worker or by a reader
    | StoreRoot(snapshot: string, generation: nat, nodes: seq<Node>)
    | WriteRootIndex(snapshot: string, row: IndexRow)   // any index state of a root
    | MarkAllStale                                      // markFilesDomainStale
    | DropSnapshots(listed: set<string>)                // finalizeCoreGeneration
    | Reset
    | Crash

  /** The path a reader's path is queued under: it is normalized by the listing and again before it is queued. */
  function Requested(raw: string): string {
    SnapshotPath.Normalize(SnapshotPath.Normalize(raw))
  }

  predicate Enabled(s: State, step: Step) {
    match step
    case Ask(_, raw) => Requested(raw) != ""
    case Recollect(key) => key in s.f.indexes && s.f.indexes[key].stale && key.path != ""
    case BeginWork(_) => s.worker.Idle?
    case Serve(key, _) => s.worker.Polling? && key in s.asked
    case Abort => s.worker.Fetching?
    case FetchFails => s.worker.Fetching?
    case FetchReturns(_) => s.worker.Fetching?
    case StoreFiles(_) => s.worker.Storing?
    case Succeed(_) => s.worker.Succeeding?
    case Fail(_, _) => s.worker.Failing?
    case EndWork(_) => s.worker.Polling?
    case StoreRoot(_, _, _) => true
    case WriteRootIndex(_, _) => true
    case MarkAllStale => true
    case DropSnapshots(_) => true
    case Reset => s.worker.Idle?
    case Crash => true
  }

  function WriteIndex(s: State, key: IndexKey, row: IndexRow): State {
    s.(f := s.f.(indexes := IndexWritten(s.f.indexes, key, row)))
  }

  function Directory(key: IndexKey): IndexKey {
    key.(path := SnapshotPath.Normalize(key.path))
  }

  predicate Storable(payload: Payload<Node>, key: IndexKey) {
    Decodes(payload) && Distinct(Directory(key).path, Decoded(payload.items))
  }

  function Served(s: State, key: IndexKey, db: bool): State
    requires s.worker.Polling?
  {
    if !db then s.(worker := Idle)
    else WriteIndex(s, key, IndexRow(Running, 0, "", true, 0)).(worker := Fetching(s.worker.generation, key))
  }

  function FilesStored(s: State, db: bool): State
    requires Enabled(s, StoreFiles(db))
  {
    var key, generation, payload := s.worker.key, s.worker.generation, s.worker.payload;
    if !db || !Storable(payload, key) then s.(worker := Failing(generation, key))
    else
      var dir, nodes := Directory(key), Decoded(payload.items);
      var children := Children(dir.path, nodes);
      s.(f := s.f.(rows := WithDirectory(s.f.rows, dir.snapshot, dir.path, generation, children)),
         worker := Succeeding(generation, key, |children|),
         stored := s.stored[dir := nodes],
         doubtful := if dir == key then s.doubtful - {key} else s.doubtful + {dir})
  }

  function Succeeded(s: State, db: bool): State
    requires Enabled(s, Succeed(db))
  {
    if !db then s.(worker := Idle)
    else
      WriteIndex(s, s.worker.key, IndexRow(Successful, s.worker.count, "", false, s.worker.generation))
      .(worker := Polling(s.worker.generation))
  }

  function Dropped(s: State, listed: set<string>): State {
    s.(f := OnlySnapshots(s.f, listed),
       doubtful :=
         if s.worker.Succeeding? && s.worker.key.snapshot !in listed && s.worker.count > 0
         then s.doubtful + {s.worker.key} else s.doubtful)
  }

  function Apply(s: State, step: Step): State
    requires Enabled(s, step)
  {
    match step
    case Ask(snapshot, raw) => s.(asked := s.asked + {IndexKey(snapshot, Requested(raw))})
    case Recollect(key) => s.(asked := s.asked + {key})
    case BeginWork(db) => if db then s.(worker := Polling(s.generation + 1)) else s
    case Serve(key, db) => Served(s, key, db)
    case Abort => s.(worker := Idle)
    case FetchFails => s.(worker := Failing(s.worker.generation, s.worker.key))
    case FetchReturns(payload) => s.(worker := Storing(s.worker.generation, s.worker.key, payload))
    case StoreFiles(db) => FilesStored(s, db)
    case Succeed(db) => Succeeded(s, db)
    case Fail(err, db) =>
      var next := s.(worker := Polling(s.worker.generation));
      if db then WriteIndex(next, s.worker.key, IndexRow(Failed, 0, err, true, 0)) else next
    case EndWork(db) => s.(worker := Idle, generation := if db then s.worker.generation else s.generation)
    case StoreRoot(snapshot, generation, nodes) =>
      s.(f := s.f.(rows := WithDirectory(s.f.rows, snapshot, "", generation, Children("", nodes))))
    case WriteRootIndex(snapshot, row) => WriteIndex(s, IndexKey(snapshot, ""), row)
    case MarkAllStale => s.(f := s.f.(indexes := AllStale(s.f.indexes)))
    case DropSnapshots(listed) => Dropped(s, listed)
    case Reset => INITIAL.(asked := s.asked)
    case Crash => s.(asked := {}, worker := Idle)
  }

  predicate Legal(s: State, steps: seq<Step>)
    decreases |steps|
  {
    steps == [] || (Enabled(s, steps[0]) && Legal(Apply(s, steps[0]), steps[1..]))
  }

  function Run(s: State, steps: seq<Step>): State
    requires Legal(s, steps)
    decreases |steps|
  {
    if steps == [] then s else Run(Apply(s, steps[0]), steps[1..])
  }

  ghost predicate Reachable(s: State) {
    exists steps :: Legal(INITIAL, steps) && Run(INITIAL, steps) == s
  }

  // ---- the invariant ----

  predicate Settled(path: string) {
    path != "" && SnapshotPath.Normalize(path) == path
  }

  /** What a reader of the directory gets at this generation is the children of the last payload stored for it. */
  predicate Lists(s: State, key: IndexKey, generation: nat, count: nat) {
    && key in s.stored && Distinct(key.path, s.stored[key])
    && Listing(s.f.rows, key.snapshot, key.path, generation) == Children(key.path, s.stored[key])
    && count == |Children(key.path, s.stored[key])|
  }

  /** A fresh index row tells the truth. */
  predicate IndexOk(s: State, key: IndexKey)
    requires key in s.f.indexes
  {
    var row := s.f.indexes[key];
    Settled(key.path) && key !in s.doubtful && !row.stale ==>
        row.status == Successful && Lists(s, key, row.generation, row.count)
  }

  predicate IndexesOk(s: State) {
    forall key | key in s.f.indexes :: IndexOk(s, key)
  }

  /** The directory being served is stale, and once its rows are stored they are the payload's. */
  predicate WorkerOk(s: State) {
    && (!s.worker.Idle? && !s.worker.Polling? ==>
          s.worker.key.path != "" && (s.worker.key in s.f.indexes ==> s.f.indexes[s.worker.key].stale))
    && (!s.worker.Idle? ==> s.worker.generation > 0)
    && (s.worker.Succeeding? && Settled(s.worker.key.path) && s.worker.key !in s.doubtful ==>
          Lists(s, s.worker.key, s.worker.generation, s.worker.count))
  }

  ghost predicate Inv(s: State) {
    RowsOk(s.f.rows) && IndexesOk(s) && WorkerOk(s) && forall key | key in s.asked :: key.path != ""
  }

  // ---- every step keeps it ----

  /** Steps that leave the rows alone and write at most the index of the directory being served, or a root's, as
      stale. */
  lemma IndexWriteKeeps(s: State, key: IndexKey, row: IndexRow, worker: Worker)
    requires Inv(s) && (row.stale || key.path == "")
    requires key.path == "" ==> worker == s.worker
    requires worker.Idle? || (worker.Polling? && worker.generation > 0)
             || (worker.Fetching? && worker.generation > 0 && worker.key == key)
             || worker == s.worker
    ensures Inv(WriteIndex(s, key, row).(worker := worker))
  {
    var s' := WriteIndex(s, key, row).(worker := worker);
    forall k | k in s'.f.indexes ensures IndexOk(s', k) {
      if k != key { assert IndexOk(s, k); }
    }
  }

  lemma SucceedKeeps(s: State, db: bool)
    requires Inv(s) && Enabled(s, Succeed(db))
    ensures Inv(Apply(s, Succeed(db)))
  {
    var s' := Apply(s, Succeed(db));
    forall k | k in s'.f.indexes ensures IndexOk(s', k) {
      if k in s.f.indexes { assert IndexOk(s, k); }
    }
  }

  /** Storing one directory leaves what is listed for every other. */
  lemma OtherDirectoryOk(s: State, s': State, dir: IndexKey, generation: nat, nodes: seq<Node>, key: IndexKey)
    requires RowsOk(s.f.rows) && key != dir && key in s.f.indexes && IndexOk(s, key)
    requires s'.f.rows == WithDirectory(s.f.rows, dir.snapshot, dir.path, generation, Children(dir.path, nodes))
    requires key in s'.f.indexes && s'.f.indexes[key] == s.f.indexes[key]
    requires key !in s'.doubtful ==> key !in s.doubtful
    requires key in s.stored ==> key in s'.stored && s'.stored[key] == s.stored[key]
    ensures IndexOk(s', key)
  {
    StoredListing(s.f.rows, dir.snapshot, dir.path, generation, nodes);
    assert (key.snapshot, key.path) != (dir.snapshot, dir.path);
  }

  /** The directory that is stored lists what was stored for it. */
  lemma {:induction false} StoredLists(s: State)
    requires RowsOk(s.f.rows) && Enabled(s, StoreFiles(true)) && Storable(s.worker.payload, s.worker.key)
    ensures var s', dir := Apply(s, StoreFiles(true)), Directory(s.worker.key);
            RowsOk(s'.f.rows) && Lists(s', dir, s.worker.generation, s'.worker.count)
  {
    var dir, nodes := Directory(s.worker.key), Decoded(s.worker.payload.items);
    StoredListing(s.f.rows, dir.snapshot, dir.path, s.worker.generation, nodes);
  }

  lemma {:induction false} StoredDirectoryOk(s: State)
    requires Inv(s) && Enabled(s, StoreFiles(true)) && Storable(s.worker.payload, s.worker.key)
    ensures var s' := Apply(s, StoreFiles(true));
            RowsOk(s'.f.rows) && WorkerOk(s')
            && (Directory(s.worker.key) in s'.f.indexes ==> IndexOk(s', Directory(s.worker.key)))
  {
    StoredLists(s);
    var s', key := Apply(s, StoreFiles(true)), s.worker.key;
    assert Settled(key.path) ==> Directory(key) == key;
    assert s'.worker.key == key && s'.worker.generation == s.worker.generation && s'.f.indexes == s.f.indexes;
    assert Directory(key) != key ==> Directory(key) in s'.doubtful;
  }

  lemma {:induction false} StoreSaid(s: State, dir: IndexKey, nodes: seq<Node>)
    requires Enabled(s, StoreFiles(true)) && Storable(s.worker.payload, s.worker.key)
    requires dir == Directory(s.worker.key) && nodes == Decoded(s.worker.payload.items)
    ensures var s' := Apply(s, StoreFiles(true));
            && s'.f.indexes == s.f.indexes && s'.stored == s.stored[dir := nodes] && s'.doubtful + {dir} >= s.doubtful
            && s'.f.rows
               == WithDirectory(s.f.rows, dir.snapshot, dir.path, s.worker.generation, Children(dir.path, nodes))
  {
  }

  lemma {:induction false} OtherIndexOk(s: State, s': State, dir: IndexKey, nodes: seq<Node>, generation: nat,
                                        k: IndexKey)
    requires RowsOk(s.f.rows) && IndexesOk(s) && k in s.f.indexes && k != dir
    requires s'.f.indexes == s.f.indexes && s'.stored == s.stored[dir := nodes] && s'.doubtful + {dir} >= s.doubtful
    requires s'.f.rows == WithDirectory(s.f.rows, dir.snapshot, dir.path, generation, Children(dir.path, nodes))
    ensures IndexOk(s', k)
  {
    assert IndexOk(s, k);
    OtherDirectoryOk(s, s', dir, generation, nodes, k);
  }

  lemma {:induction false} OtherIndexesOk(s: State)
    requires Inv(s) && Enabled(s, StoreFiles(true)) && Storable(s.worker.payload, s.worker.key)
    ensures var s' := Apply(s, StoreFiles(true));
            forall k | k in s'.f.indexes && k != Directory(s.worker.key) :: IndexOk(s', k)
  {
    var s' := Apply(s, StoreFiles(true));
    var dir, nodes := Directory(s.worker.key), Decoded(s.worker.payload.items);
    StoreSaid(s, dir, nodes);
    forall k | k in s'.f.indexes && k != dir ensures IndexOk(s', k) {
      OtherIndexOk(s, s', dir, nodes, s.worker.generation, k);
    }
  }

  lemma {:induction false} StoreKeeps(s: State)
    requires Inv(s) && Enabled(s, StoreFiles(true)) && Storable(s.worker.payload, s.worker.key)
    ensures Inv(Apply(s, StoreFiles(true)))
  {
    StoredDirectoryOk(s);
    OtherIndexesOk(s);
    assert Apply(s, StoreFiles(true)).asked == s.asked;
  }

  lemma StoreRootKeeps(s: State, snapshot: string, generation: nat, nodes: seq<Node>)
    requires Inv(s)
    ensures Inv(Apply(s, StoreRoot(snapshot, generation, nodes)))
  {
    var s' := Apply(s, StoreRoot(snapshot, generation, nodes));
    var root := IndexKey(snapshot, "");
    StoredListing(s.f.rows, snapshot, "", generation, nodes);
    forall k | k in s'.f.indexes ensures IndexOk(s', k) {
      if k != root { OtherDirectoryOk(s, s', root, generation, nodes, k); }
    }
    if s.worker.Succeeding? {
      assert (s.worker.key.snapshot, s.worker.key.path) != (snapshot, "");
    }
  }

  lemma ListingKept(s: FilesState, listed: set<string>, snapshot: string, path: string, generation: nat)
    requires snapshot in listed
    ensures Listing(OnlySnapshots(s, listed).rows, snapshot, path, generation)
            == Listing(s.rows, snapshot, path, generation)
  {
  }

  lemma DropKeeps(s: State, listed: set<string>)
    requires Inv(s)
    ensures Inv(Apply(s, DropSnapshots(listed)))
  {
    var s' := Apply(s, DropSnapshots(listed));
    forall k | k in s'.f.indexes ensures IndexOk(s', k) {
      assert IndexOk(s, k);
      ListingKept(s.f, listed, k.snapshot, k.path, s.f.indexes[k].generation);
    }
    if s.worker.Succeeding? && s.worker.key.snapshot in listed {
      ListingKept(s.f, listed, s.worker.key.snapshot, s.worker.key.path, s.worker.generation);
    }
  }

  lemma StepKeeps(s: State, step: Step)
    requires Inv(s) && Enabled(s, step)
    ensures Inv(Apply(s, step))
  {
    match step
    case Serve(key, db) =>
      if db { IndexWriteKeeps(s, key, IndexRow(Running, 0, "", true, 0), Apply(s, step).worker); }
    case StoreFiles(db) =>
      if db && Storable(s.worker.payload, s.worker.key) { StoreKeeps(s); }
    case Succeed(db) => SucceedKeeps(s, db);
    case Fail(err, db) =>
      if db { IndexWriteKeeps(s, s.worker.key, IndexRow(Failed, 0, err, true, 0), Apply(s, step).worker); }
    case StoreRoot(snapshot, generation, nodes) => StoreRootKeeps(s, snapshot, generation, nodes);
    case WriteRootIndex(snapshot, row) => IndexWriteKeeps(s, IndexKey(snapshot, ""), row, s.worker);
    case DropSnapshots(listed) => DropKeeps(s, listed);
    case _ =>
  }

  lemma {:induction false} RunKeeps(s: State, steps: seq<Step>)
    requires Inv(s) && Legal(s, steps)
    ensures Inv(Run(s, steps))
    decreases |steps|
  {
    if steps != [] {
      StepKeeps(s, steps[0]);
      RunKeeps(Apply(s, steps[0]), steps[1..]);
    }
  }

  lemma ReachableInv(s: State)
    requires Reachable(s)
    ensures Inv(s)
  {
    var steps :| Legal(INITIAL, steps) && Run(INITIAL, steps) == s;
    RunKeeps(INITIAL, steps);
  }

  // ---- the index agrees with the payload ----

  /** A fresh index row is a success, and a reader of the directory gets one row for each child entry of the last
      payload stored for it, with its columns, and no other; the count is theirs. */
  lemma FreshIndexAgrees(s: State, key: IndexKey)
    requires Reachable(s) && Settled(key.path) && key !in s.doubtful
    requires key in s.f.indexes && !s.f.indexes[key].stale
    ensures s.f.indexes[key].status == Successful && Lists(s, key, s.f.indexes[key].generation, s.f.indexes[key].count)
    ensures RowsAreEntries(Listing(s.f.rows, key.snapshot, key.path, s.f.indexes[key].generation), key.path,
                           s.stored[key])
    ensures s.f.indexes[key].count == |ChildEntries(key.path, s.stored[key])|
  {
    ReachableInv(s);
    assert IndexOk(s, key);
    ChildrenAreEntries(key.path, s.stored[key]);
  }

  /** A request for this path stores no settled directory but its own. */
  predicate Harmless(path: string) {
    path != "" && (Settled(path) || !Settled(SnapshotPath.Normalize(path)))
  }

  /** A finalize now would take the rows of a settled directory whose success is about to be written. */
  predicate Exposed(s: State, snapshot: string) {
    && s.worker.Succeeding? && s.worker.key.snapshot == snapshot
    && Settled(s.worker.key.path) && s.worker.count > 0
  }

  /** No path that readers of this snapshot ask for settles in the third round, and no finalize drops the snapshot
      between a store of rows and its success. */
  predicate Careful(s: State, step: Step, snapshot: string) {
    && (step.Ask? && step.snapshot == snapshot ==> Harmless(Requested(step.raw)))
    && (step.DropSnapshots? && Exposed(s, snapshot) ==> snapshot in step.listed)
  }

  predicate AllCareful(s: State, steps: seq<Step>, snapshot: string)
    requires Legal(s, steps)
    decreases |steps|
  {
    steps == [] || (Careful(s, steps[0], snapshot) && AllCareful(Apply(s, steps[0]), steps[1..], snapshot))
  }

  /** No settled directory of the snapshot is doubtful, and every path of it that is queued, served or indexed is
      harmless. */
  ghost predicate Trusted(s: State, snapshot: string) {
    && (forall key | key in s.doubtful && key.snapshot == snapshot :: !Settled(key.path))
    && (forall key | key in s.asked && key.snapshot == snapshot :: Harmless(key.path))
    && (forall key | key in s.f.indexes && key.snapshot == snapshot && key.path != "" :: Harmless(key.path))
    && (!s.worker.Idle? && !s.worker.Polling? && s.worker.key.snapshot == snapshot ==> Harmless(s.worker.key.path))
  }

  lemma TrustStep(s: State, step: Step, snapshot: string)
    requires Inv(s) && Trusted(s, snapshot) && Enabled(s, step) && Careful(s, step, snapshot)
    ensures Trusted(Apply(s, step), snapshot)
  {
    if step.StoreFiles? { TrustStore(s, step.db, snapshot); }
    else if step.DropSnapshots? { TrustDrop(s, step.listed, snapshot); }
    else if step.Ask? || step.Recollect? || step.Serve? { TrustQueue(s, step, snapshot); }
    else { TrustOther(s, step, snapshot); }
  }

  lemma TrustStore(s: State, db: bool, snapshot: string)
    requires Inv(s) && Trusted(s, snapshot) && Enabled(s, StoreFiles(db))
    ensures Trusted(Apply(s, StoreFiles(db)), snapshot)
  {
  }

  lemma {:induction false} TrustDrop(s: State, listed: set<string>, snapshot: string)
    requires Trusted(s, snapshot) && (Exposed(s, snapshot) ==> snapshot in listed)
    ensures Trusted(Apply(s, DropSnapshots(listed)), snapshot)
  {
    var s' := Apply(s, DropSnapshots(listed));
    forall key | key in s'.doubtful && key.snapshot == snapshot ensures !Settled(key.path) {
      assert key !in s.doubtful && Settled(key.path) ==> Exposed(s, snapshot);
    }
    assert s'.f.indexes.Keys <= s.f.indexes.Keys && s'.asked == s.asked && s'.worker == s.worker;
  }

  lemma TrustQueue(s: State, step: Step, snapshot: string)
    requires Trusted(s, snapshot) && Enabled(s, step) && Careful(s, step, snapshot)
    requires step.Ask? || step.Recollect? || step.Serve?
    ensures Trusted(Apply(s, step), snapshot)
  {
    assert Apply(s, step).doubtful == s.doubtful;
  }

  lemma TrustOther(s: State, step: Step, snapshot: string)
    requires Inv(s) && Trusted(s, snapshot) && Enabled(s, step) && Careful(s, step, snapshot)
    requires !step.StoreFiles? && !step.DropSnapshots? && !step.Ask? && !step.Recollect? && !step.Serve?
    ensures Trusted(Apply(s, step), snapshot)
  {
    assert Apply(s, step).doubtful <= s.doubtful;
  }

  lemma {:induction false} TrustStays(s: State, steps: seq<Step>, snapshot: string)
    requires Inv(s) && Trusted(s, snapshot) && Legal(s, steps) && AllCareful(s, steps, snapshot)
    ensures Inv(Run(s, steps)) && Trusted(Run(s, steps), snapshot)
    decreases |steps|
  {
    if steps != [] {
      StepKeeps(s, steps[0]);
      TrustStep(s, steps[0], snapshot);
      TrustStays(Apply(s, steps[0]), steps[1..], snapshot);
    }
  }

  /** From any state in which no settled directory of the snapshot is doubtful, every fresh index row of a settled path
      stays true for as long as no path asked for settles in the third round and no finalize drops the snapshot between
      a store of rows and its success, however often it is dropped otherwise. */
  lemma ListedSnapshotAgrees(s0: State, steps: seq<Step>, key: IndexKey)
    requires Reachable(s0) && Trusted(s0, key.snapshot) && Settled(key.path)
    requires Legal(s0, steps) && AllCareful(s0, steps, key.snapshot)
    ensures var s := Run(s0, steps);
            key in s.f.indexes && !s.f.indexes[key].stale ==>
              s.f.indexes[key].status == Successful
                  && Lists(s, key, s.f.indexes[key].generation, s.f.indexes[key].count)
  {
    ReachableInv(s0);
    TrustStays(s0, steps, key.snapshot);
    var s := Run(s0, steps);
    assert key in s.f.indexes ==> IndexOk(s, key);
  }

  /** Asking for a path without white space is always careful. */
  lemma SpaceFreeRequestsSettle(raw: string)
    requires SnapshotPath.NoSpace(raw) && Requested(raw) != ""
    ensures Settled(Requested(raw)) && Requested(raw) == SnapshotPath.Normalize(raw)
  {
    SnapshotPath.SpaceFreeIdempotent(raw);
  }

  /** A payload that does not decode, repeats a child or fails half way leaves every row, and the directory stale. */
  lemma FailedStoreKeepsRows(s: State, db: bool, err: string, reported: bool)
    requires Reachable(s) && Enabled(s, StoreFiles(db)) && (!db || !Storable(s.worker.payload, s.worker.key))
    ensures var after := Apply(s, StoreFiles(db));
            after.f == s.f && Enabled(after, Fail(err, reported))
            && Apply(after, Fail(err, reported)).f.rows == s.f.rows
            && forall key | key == s.worker.key && key in s.f.indexes ::
                Apply(after, Fail(err, reported)).f.indexes[key].stale
  {
    ReachableInv(s);
  }

  lemma {:induction false} RunCons(s: State, step: Step, rest: seq<Step>)
    requires Enabled(s, step) && Legal(Apply(s, step), rest)
    ensures Legal(s, [step] + rest) && Run(s, [step] + rest) == Run(Apply(s, step), rest)
  {
    assert ([step] + rest)[1..] == rest;
  }

  /** A way to run step lists: nothing to do for none, and the first step before the rest. */
  ghost predicate StepByStep<S(!new), T(!new)>(legal: (S, seq<T>) -> bool, run: (S, seq<T>) -> S,
                                               enabled: (S, T) -> bool, next: (S, T) -> S) {
    && (forall s :: legal(s, []) && run(s, []) == s)
    && (forall s, t, rest :: legal(s, [t] + rest) <==> enabled(s, t) && legal(next(s, t), rest))
    && (forall s, t, rest | legal(s, [t] + rest) :: run(s, [t] + rest) == run(next(s, t), rest))
  }

  lemma {:induction false} Composes<S(!new), T(!new)>(
      legal: (S, seq<T>) -> bool, run: (S, seq<T>) -> S, enabled: (S, T) -> bool, next: (S, T) -> S,
      s: S, a: seq<T>, b: seq<T>)
    requires StepByStep(legal, run, enabled, next) && legal(s, a) && legal(run(s, a), b)
    ensures legal(s, a + b) && run(s, a + b) == run(run(s, a), b)
    decreases |a|
  {
    if a == [] {
      assert a + b == b;
    } else {
      var first, rest := a[0], a[1..];
      assert a == [first] + rest && a + b == [first] + (rest + b);
      Composes(legal, run, enabled, next, next(s, first), rest, b);
    }
  }

  lemma {:induction false} RunFrom(s: State, first: Step, rest: seq<Step>)
    ensures Legal(s, [first] + rest) <==> Enabled(s, first) && Legal(Apply(s, first), rest)
    ensures Legal(s, [first] + rest) ==> Run(s, [first] + rest) == Run(Apply(s, first), rest)
  {
    assert ([first] + rest)[1..] == rest;
  }

  function RunOrStay(s: State, steps: seq<Step>): State {
    if Legal(s, steps) then Run(s, steps) else s
  }

  function ApplyOrStay(s: State, step: Step): State {
    if Enabled(s, step) then Apply(s, step) else s
  }

  lemma {:induction false} RunsStepByStep()
    ensures StepByStep(Legal, RunOrStay, Enabled, ApplyOrStay)
  {
    forall s: State, first: Step, rest: seq<Step>
      ensures Legal(s, [first] + rest) <==> Enabled(s, first) && Legal(ApplyOrStay(s, first), rest)
      ensures Legal(s, [first] + rest) ==> RunOrStay(s, [first] + rest) == RunOrStay(ApplyOrStay(s, first), rest)
    {
      RunFrom(s, first, rest);
    }
  }

  lemma {:induction false} RunConcat(s: State, a: seq<Step>, b: seq<Step>)
    requires Legal(s, a) && Legal(Run(s, a), b)
    ensures Legal(s, a + b) && Run(s, a + b) == Run(Run(s, a), b)
  {
    RunsStepByStep();
    Composes(Legal, RunOrStay, Enabled, ApplyOrStay, s, a, b);
  }

  /** A run so far, one step longer. */
  lemma RunStep(s: State, steps: seq<Step>, step: Step) returns (all: seq<Step>)
    requires Legal(s, steps) && Enabled(Run(s, steps), step)
    ensures Legal(s, all) && Run(s, all) == Apply(Run(s, steps), step)
  {
    var now := Run(s, steps);
    assert Legal(Apply(now, step), []);
    RunCons(now, step, []);
    assert [step] + [] == [step];
    RunConcat(s, steps, [step]);
    all := steps + [step];
  }

  lemma EmptiedListing(rows: FileRows, snapshot: string, path: string, stored: nat, generation: nat)
    ensures Listing(WithDirectory(rows, snapshot, path, stored, map[]), snapshot, path, generation) == map[]
  {
  }

  lemma EmptyStore(s: State, dir: IndexKey, generation: nat)
    requires s.worker.Storing? && s.worker.payload == Payload(true, [], true) && Directory(s.worker.key) == dir
    ensures Apply(s, StoreFiles(true)).f.indexes == s.f.indexes
    ensures Listing(Apply(s, StoreFiles(true)).f.rows, dir.snapshot, dir.path, generation) == map[]
  {
    var nodes := Decoded(s.worker.payload.items);
    assert nodes == [] && Storable(s.worker.payload, s.worker.key);
    var children := Children(dir.path, nodes);
    assert children == map[];
    EmptiedListing(s.f.rows, dir.snapshot, dir.path, s.worker.generation, generation);
    assert FilesStored(s, true).f.rows
        == WithDirectory(s.f.rows, dir.snapshot, dir.path, s.worker.generation, children);
  }

  /** The two ways a fresh index row can be wrong. First: a request whose path settles in the third round only
      replaces the rows of the directory it reaches then, whose own index row stays fresh. */
  lemma AliasedRequestBreaks(s: State, key: IndexKey, raw: string) returns (steps: seq<Step>)
    requires s.worker.Polling? && key.path != "" && key in s.f.indexes && !s.f.indexes[key].stale
    requires Requested(raw) != "" && Requested(raw) != key.path && SnapshotPath.Normalize(Requested(raw)) == key.path
    ensures Legal(s, steps) && key in Run(s, steps).f.indexes && Run(s, steps).f.indexes[key] == s.f.indexes[key]
    ensures Listing(Run(s, steps).f.rows, key.snapshot, key.path, s.f.indexes[key].generation) == map[]
  {
    var alias := IndexKey(key.snapshot, Requested(raw));
    steps := RunStep(s, [], Ask(key.snapshot, raw));
    steps := RunStep(s, steps, Serve(alias, true));
    steps := RunStep(s, steps, FetchReturns(Payload(true, [], true)));
    EmptyStore(Run(s, steps), key, s.f.indexes[key].generation);
    steps := RunStep(s, steps, StoreFiles(true));
  }

  /** Second: a finalize that drops the snapshot between the store and the success write leaves an index row without
      its rows; it is wrong exactly when it counts any. */
  lemma DropBeforeSuccessBreaks(s: State, listed: set<string>) returns (steps: seq<Step>)
    requires s.worker.Succeeding? && s.worker.key.snapshot !in listed && s.worker.generation > 0
    ensures var key := s.worker.key;
            Legal(s, steps) && key in Run(s, steps).f.indexes
            && Run(s, steps).f.indexes[key] == IndexRow(Successful, s.worker.count, "", false, s.worker.generation)
            && Listing(Run(s, steps).f.rows, key.snapshot, key.path, s.worker.generation) == map[]
    ensures s.worker.count > 0 <==>
            Run(s, steps).f.indexes[s.worker.key].count
            != |Listing(Run(s, steps).f.rows, s.worker.key.snapshot, s.worker.key.path, s.worker.generation)|
  {
    steps := RunStep(s, [], DropSnapshots(listed));
    steps := RunStep(s, steps, Succeed(true));
  }

  // ---- both happen ----

  /** From the empty tables to a directory whose rows are stored. */
  lemma StoreFirst(key: IndexKey, node: Node) returns (steps: seq<Step>)
    requires Settled(key.path) && IsChild(key.path, node)
    ensures Legal(INITIAL, steps) && Run(INITIAL, steps).worker == Succeeding(1, key, 1)
  {
    steps := RunStep(INITIAL, [], Ask(key.snapshot, key.path));
    steps := RunStep(INITIAL, steps, BeginWork(true));
    steps := RunStep(INITIAL, steps, Serve(key, true));
    var payload := Payload(true, [Some(node)], true);
    steps := RunStep(INITIAL, steps, FetchReturns(payload));
    OneChild(key, node, payload);
    steps := RunStep(INITIAL, steps, StoreFiles(true));
  }

  lemma OneChild(key: IndexKey, node: Node, payload: Payload<Node>)
    requires Settled(key.path) && IsChild(key.path, node) && payload == Payload(true, [Some(node)], true)
    ensures Directory(key) == key && Storable(payload, key) && |Children(key.path, Decoded(payload.items))| == 1
  {
    var nodes := Decoded(payload.items);
    assert nodes == [node] && nodes[..0] == [];
    assert Children(key.path, nodes) == map[][SnapshotPath.Normalize(node.path) := ChildRow(key.path, node)];
  }

  lemma ChildInRootDirectory(a: string, b: string, node: Node)
    requires SnapshotPath.Proper(a) && SnapshotPath.Proper(b) && SnapshotPath.NoSpace(a) && SnapshotPath.NoSpace(b)
    requires node.path == "/" + a + "/" + b && node.kind != ""
    ensures Settled("/" + a) && IsChild("/" + a, node)
  {
    SnapshotPath.ShowTwo(a, b);
    SnapshotPath.ShowOne(a);
    assert [a] + [b] == [a, b];
    SnapshotPath.SettledShow([a]);
    SnapshotPath.SettledShow([a, b]);
    SnapshotPath.TrimNothing(b);
    SnapshotPath.ParentOfShow([a], b);
  }

  lemma ExampleChild()
    ensures Settled("/a") && IsChild("/a", Node("/a/b", "b", "file", ""))
  {
    assert "/" + "a" + "/" + "b" == "/a/b" && "/" + "a" == "/a";
    ChildInRootDirectory("a", "b", Node("/a/b", "b", "file", ""));
  }

  /** A run from the empty tables to a fresh index row of `/a` that counts one entry and lists none, by a request for
      `/a /. /`. */
  lemma AliasExample(snapshot: string) returns (steps: seq<Step>)
    ensures var key := IndexKey(snapshot, "/a");
            Legal(INITIAL, steps) && key in Run(INITIAL, steps).f.indexes
            && Run(INITIAL, steps).f.indexes[key] == IndexRow(Successful, 1, "", false, 1)
            && Listing(Run(INITIAL, steps).f.rows, snapshot, "/a", 1) == map[]
  {
    ExampleChild();
    SnapshotPath.ThirdRoundExample();
    steps := StoreFirst(IndexKey(snapshot, "/a"), Node("/a/b", "b", "file", ""));
    steps := RunStep(INITIAL, steps, Succeed(true));
    var more := AliasedRequestBreaks(Run(INITIAL, steps), IndexKey(snapshot, "/a"), "/a /. /");
    RunConcat(INITIAL, steps, more);
    steps := steps + more;
  }

  /** The same by a finalize that lists nothing. */
  lemma DropExample(snapshot: string) returns (steps: seq<Step>)
    ensures var key := IndexKey(snapshot, "/a");
            Legal(INITIAL, steps) && key in Run(INITIAL, steps).f.indexes
            && Run(INITIAL, steps).f.indexes[key] == IndexRow(Successful, 1, "", false, 1)
            && Listing(Run(INITIAL, steps).f.rows, snapshot, "/a", 1) == map[]
  {
    ExampleChild();
    steps := StoreFirst(IndexKey(snapshot, "/a"), Node("/a/b", "b", "file", ""));
    var more := DropBeforeSuccessBreaks(Run(INITIAL, steps), {});
    RunConcat(INITIAL, steps, more);
    steps := steps + more;
  }
}
