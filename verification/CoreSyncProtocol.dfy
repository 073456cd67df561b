/** All interleavings of core syncs, backup summaries, stale marks and resets of one repository: one step per
    statement or transaction, each of which can fail. */
module CoreSyncProtocol {
  import opened Wrappers
  import opened CacheTables

  /** Where `runCoreSync` is: what it does next. */
  datatype Phase =
    | OpenConfig
    | RunConfig
    | StoreConfig(config: Option<Config>)
    | OpenSnapshots
    | RunSnapshots
    | Replace(payload: Payload<Entry>)
    | Finalize(entries: seq<Entry>)
    | Publish(entries: seq<Entry>)
    | MarkFiles
    | Report(phase: string, progress: int)

  /** Loads are single-flight, so there is at most one core sync. */
  datatype Sync = Idle | At(phase: Phase, generation: nat)

  /** `StoreBackupSummary` after it read the generation. */
  datatype Writer = Writing(generation: nat, summary: Entry) | Written

  /** The tables and the goroutines; and, for stating the properties, the ids of the last published payload, the ids
      of the summaries written at the published generation since, and whether a finalize has committed that is not
      published. */
  datatype State = State(
    t: CoreTables, sync: Sync, writers: seq<Writer>,
    published: set<string>, added: set<string>, unpublished: bool)

  const INITIAL := State(CoreTables(None, map[], map[]), Idle, [], {}, {}, false)

  datatype Step =
    | Begin(db: bool)                                // nextGeneration
    | Open(logID: Option<int>, db: bool)             // the running state, before each command
    | Log(id: int, db: bool)                         // the log id of a command, its result ignored
    | CommandFails
    | ConfigReturns(config: Option<Config>)          // None: the output does not decode
    | SnapshotsReturn(payload: Payload<Entry>)
    | Store(db: bool)                                // storeResticConfig
    | ReplaceRows(db: bool)                          // replaceSnapshots
    | FinalizeRows(db: bool)                         // finalizeCoreGeneration
    | PublishState(now: int, logID: Option<int>, db: bool)
    | ReportFailure(err: string, logID: Option<int>, db: bool)
    | FilesMarked                                    // markFilesDomainStale and the prewarm, results ignored
    | MarkStale(message: string, db: bool)           // markSyncStateStale, by any caller
    | ReadGeneration(summary: Entry)                 // first half of StoreBackupSummary
    | WriteSummary(w: nat, db: bool)                 // second half
    | Reset                                          // ResetRepository
    | Crash                                          // the process ends; the tables stay

  predicate Enabled(s: State, step: Step) {
    match step
    case Begin(_) => s.sync.Idle?
    case Open(_, _) => s.sync.At? && (s.sync.phase.OpenConfig? || s.sync.phase.OpenSnapshots?)
    case Log(id, _) => s.sync.At? && (s.sync.phase.RunConfig? || s.sync.phase.RunSnapshots?) && id > 0
    case CommandFails => s.sync.At? && (s.sync.phase.RunConfig? || s.sync.phase.RunSnapshots?)
    case ConfigReturns(_) => s.sync.At? && s.sync.phase.RunConfig?
    case SnapshotsReturn(_) => s.sync.At? && s.sync.phase.RunSnapshots?
    case Store(_) => s.sync.At? && s.sync.phase.StoreConfig?
    case ReplaceRows(_) => s.sync.At? && s.sync.phase.Replace?
    case FinalizeRows(_) => s.sync.At? && s.sync.phase.Finalize?
    case PublishState(_, _, _) => s.sync.At? && s.sync.phase.Publish?
    case ReportFailure(_, _, _) => s.sync.At? && s.sync.phase.Report?
    case FilesMarked => s.sync.At? && s.sync.phase.MarkFiles?
    case MarkStale(_, _) => true
    case ReadGeneration(_) => true
    case WriteSummary(w, _) => w < |s.writers| && s.writers[w].Writing?
    case Reset => s.sync.Idle? && forall w | 0 <= w < |s.writers| :: s.writers[w].Written?
    case Crash => true
  }

  function Goto(s: State, phase: Phase): State
    requires s.sync.At?
  {
    s.(sync := s.sync.(phase := phase))
  }

  function WriteRow(s: State, row: SyncRow): State {
    s.(t := s.t.(sync := Some(SyncWritten(s.t.sync, row))))
  }

  function InPhase(phase: Phase): (string, int) {
    match phase
    case OpenConfig => ("config", 10)
    case RunConfig => ("config", 25)
    case StoreConfig(_) => ("config", 25)
    case OpenSnapshots => ("snapshots", 50)
    case Finalize(_) => ("snapshots", 90)
    case _ => ("snapshots", 75)
  }

  function Failing(s: State): State
    requires s.sync.At?
  {
    Goto(s, Report(InPhase(s.sync.phase).0, InPhase(s.sync.phase).1))
  }

  function RunningRow(phase: Phase, logID: Option<int>): SyncRow {
    SyncRow(Running, InPhase(phase).0, InPhase(phase).1, 0, None, "", logID)
  }

  function Opened(s: State, logID: Option<int>, db: bool): State
    requires Enabled(s, Open(logID, db))
  {
    if !db then s.(sync := Idle)
    else
      Goto(WriteRow(s, RunningRow(s.sync.phase, if s.sync.phase.OpenConfig? then None else logID)),
           if s.sync.phase.OpenConfig? then RunConfig else RunSnapshots)
  }

  function Stored(s: State, db: bool): State
    requires Enabled(s, Store(db))
  {
    if !db || s.sync.phase.config.None? || s.sync.generation in s.t.configs then Failing(s)
    else Goto(s.(t := s.t.(configs := s.t.configs[s.sync.generation := s.sync.phase.config.value])), OpenSnapshots)
  }

  function RowsReplaced(s: State, db: bool): State
    requires Enabled(s, ReplaceRows(db))
  {
    if !db || !Decodes(s.sync.phase.payload) then Failing(s)
    else
      var entries := Decoded(s.sync.phase.payload.items);
      Goto(s.(t := s.t.(snapshots := Replaced(s.t.snapshots, s.sync.generation, entries))), Finalize(entries))
  }

  function RowsFinalized(s: State, db: bool): State
    requires Enabled(s, FinalizeRows(db))
  {
    if !db then Failing(s)
    else Goto(s.(t := Finalized(s.t, s.sync.generation), added := {}, unpublished := true),
        Publish(s.sync.phase.entries))
  }

  function StatePublished(s: State, now: int, logID: Option<int>, db: bool): State
    requires Enabled(s, PublishState(now, logID, db))
  {
    if !db then s.(sync := Idle)
    else
      Goto(WriteRow(s, SyncRow(Successful, "", 100, s.sync.generation, Some(now), "", logID)), MarkFiles)
      .(published := Ids(s.sync.phase.entries), added := {}, unpublished := false)
  }

  function SummaryWritten(s: State, w: nat, db: bool): State
    requires Enabled(s, WriteSummary(w, db))
  {
    var done := s.(writers := s.writers[w := Written]);
    if !db then done
    else
      var writer := s.writers[w];
      done.(t := s.t.(snapshots := WithSummary(s.t.snapshots, writer.generation, writer.summary)),
            added := if writer.generation == Published(s.t) then s.added + {writer.summary.id} else s.added)
  }

  function Apply(s: State, step: Step): State
    requires Enabled(s, step)
  {
    match step
    case Begin(db) => if db then s.(sync := At(OpenConfig, Published(s.t) + 1)) else s
    case Open(logID, db) => Opened(s, logID, db)
    case Log(id, db) =>
      if db then WriteRow(s, RunningRow(if s.sync.phase.RunConfig? then RunConfig else RunSnapshots, Some(id))) else s
    case CommandFails => Failing(s)
    case ConfigReturns(config) => Goto(s, StoreConfig(config))
    case SnapshotsReturn(payload) => Goto(s, Replace(payload))
    case Store(db) => Stored(s, db)
    case ReplaceRows(db) => RowsReplaced(s, db)
    case FinalizeRows(db) => RowsFinalized(s, db)
    case PublishState(now, logID, db) => StatePublished(s, now, logID, db)
    case ReportFailure(err, logID, db) =>
      var ended := s.(sync := Idle);
      if db then WriteRow(ended, SyncRow(Failed, s.sync.phase.phase, s.sync.phase.progress, 0, None, err, logID))
          else ended
    case FilesMarked => s.(sync := Idle)
    case MarkStale(message, db) => if db then s.(t := s.t.(sync := Some(MarkedStale(s.t.sync, message)))) else s
    case ReadGeneration(summary) => s.(writers := s.writers + [Writing(Published(s.t), summary)])
    case WriteSummary(w, db) => SummaryWritten(s, w, db)
    case Reset => INITIAL
    case Crash => s.(sync := Idle, writers := [])
  }

  predicate Legal(s: State, steps: seq<Step>)
    decreases |steps|
  {
    steps == [] || (Enabled(s, steps[0]) && Legal(Apply(s, steps[0]), steps[1..]))
  }

  function Run(s: State, steps: seq<Step>): State
    requires Legal(s, steps)
    decreases |steps|
  {
    if steps == [] then s else Run(Apply(s, steps[0]), steps[1..])
  }

  ghost predicate Reachable(s: State) {
    exists steps :: Legal(INITIAL, steps) && Run(INITIAL, steps) == s
  }

  // ---- the invariant ----

  /** Nothing is stored above the next generation, and snapshot rows stand there only together with a config row. */
  predicate TablesOk(t: CoreTables) {
    var next := Published(t) + 1;
    && (forall k | k in t.snapshots :: k.generation <= next)
    && (forall g | g in t.configs :: g <= next)
    && (IdsAt(t.snapshots, next) != {} ==> next in t.configs)
  }

  /** What the phase of the sync says about the rows of its generation. */
  predicate SyncOk(s: State) {
    var next := Published(s.t) + 1;
    s.sync.At? && !s.sync.phase.MarkFiles? ==>
      && s.sync.generation == next
      && (s.sync.phase.OpenSnapshots? || s.sync.phase.RunSnapshots? || s.sync.phase.Replace? ==>
            next in s.t.configs && IdsAt(s.t.snapshots, next) == {} && !s.unpublished)
      && (s.sync.phase.Finalize? ==>
          next in s.t.configs && IdsAt(s.t.snapshots, next) == Ids(s.sync.phase.entries) && !s.unpublished)
      && (s.sync.phase.Publish? ==> IdsAt(s.t.snapshots, next) == Ids(s.sync.phase.entries) && s.unpublished)
  }

  predicate WritersOk(s: State) {
    forall w | 0 <= w < |s.writers| && s.writers[w].Writing? :: s.writers[w].generation <= Published(s.t)
  }

  /** The visible list, and what an unpublished finalize leaves behind. */
  predicate ViewOk(s: State) {
    && Visible(s.t) == (if s.unpublished then {} else s.published) + s.added
    && (s.unpublished ==> Published(s.t) + 1 in s.t.configs)
  }

  predicate Inv(s: State) {
    TablesOk(s.t) && SyncOk(s) && WritersOk(s) && ViewOk(s)
  }

  // ---- every step keeps it ----

  /** A write of the sync state that does not publish. */
  lemma StateWriteKeeps(s: State, row: SyncRow, sync: Sync)
    requires Inv(s) && Published(s.t.(sync := Some(row))) == Published(s.t)
    requires SyncOk(s.(sync := sync))
    ensures Inv(s.(t := s.t.(sync := Some(row)), sync := sync))
  {
  }

  lemma StoreKeeps(s: State, db: bool)
    requires Inv(s) && Enabled(s, Store(db))
    ensures Inv(Apply(s, Store(db)))
  {
    var s' := Apply(s, Store(db));
    assert IdsAt(s'.t.snapshots, Published(s.t) + 1) == IdsAt(s.t.snapshots, Published(s.t) + 1);
  }

  lemma ReplaceKeeps(s: State, db: bool)
    requires Inv(s) && Enabled(s, ReplaceRows(db))
    ensures Inv(Apply(s, ReplaceRows(db)))
  {
    if db && Decodes(s.sync.phase.payload) {
      var entries := Decoded(s.sync.phase.payload.items);
      var rows, next := s.t.snapshots, s.sync.generation;
      ReplacedKeys(rows, next, entries);
      assert forall k | k in Replaced(rows, next, entries) && k.generation != next :: k in rows;
      OtherIds(rows, Replaced(rows, next, entries), next, next - 1);
    }
  }

  /** Tables that agree off one generation have the same ids at every other. */
  lemma OtherIds(a: SnapshotRows, b: SnapshotRows, generation: nat, g: nat)
    requires forall k: RowKey | k.generation != generation :: k in a <==> k in b
    requires g != generation
    ensures IdsAt(a, g) == IdsAt(b, g)
  {
    forall id ensures id in IdsAt(a, g) <==> id in IdsAt(b, g) {
      assert RowKey(id, g) in a <==> RowKey(id, g) in b;
    }
  }

  lemma FinalizeKeeps(s: State, db: bool)
    requires Inv(s) && Enabled(s, FinalizeRows(db))
    ensures Inv(Apply(s, FinalizeRows(db)))
  {
    if db {
      var next := s.sync.generation;
      var after := Finalized(s.t, next);
      assert IdsAt(after.snapshots, next) == IdsAt(s.t.snapshots, next);
      assert IdsAt(after.snapshots, next - 1) == {};
    }
  }

  lemma PublishKeeps(s: State, now: int, logID: Option<int>, db: bool)
    requires Inv(s) && Enabled(s, PublishState(now, logID, db))
    ensures Inv(Apply(s, PublishState(now, logID, db)))
  {
    if db {
      assert IdsAt(s.t.snapshots, s.sync.generation + 1) == {};
    }
  }

  lemma SummaryIds(rows: SnapshotRows, generation: nat, entry: Entry, g: nat)
    ensures IdsAt(WithSummary(rows, generation, entry), g) == IdsAt(rows, g) + if g == generation then {entry.id}
            else {}
  {
    var after := WithSummary(rows, generation, entry);
    assert RowKey(entry.id, generation) in after;
    forall id ensures id in IdsAt(after, g) <==> id in IdsAt(rows, g) || (g == generation && id == entry.id) {
      assert RowKey(id, g) in after <==> RowKey(id, g) in rows || RowKey(id, g) == RowKey(entry.id, generation);
    }
  }

  lemma WriteSummaryKeeps(s: State, w: nat, db: bool)
    requires Inv(s) && Enabled(s, WriteSummary(w, db))
    ensures Inv(Apply(s, WriteSummary(w, db)))
  {
    if db {
      var writer := s.writers[w];
      SummaryIds(s.t.snapshots, writer.generation, writer.summary, Published(s.t));
      SummaryIds(s.t.snapshots, writer.generation, writer.summary, Published(s.t) + 1);
    }
  }

  lemma QuietStepKeeps(s: State, step: Step)
    requires Inv(s) && Enabled(s, step)
    requires step.Begin? || step.CommandFails? || step.ConfigReturns? || step.SnapshotsReturn? || step.FilesMarked?
             || step.ReadGeneration? || step.Crash? || step.Reset?
    ensures Inv(Apply(s, step))
  {
  }

  lemma RowStepKeeps(s: State, step: Step)
    requires Inv(s) && Enabled(s, step)
    requires step.Open? || step.Log? || step.ReportFailure? || step.MarkStale?
    ensures Inv(Apply(s, step))
  {
    var s' := Apply(s, step);
    if s'.t != s.t {
      StateWriteKeeps(s, s'.t.sync.value, s'.sync);
    }
  }

  lemma StepKeeps(s: State, step: Step)
    requires Inv(s) && Enabled(s, step)
    ensures Inv(Apply(s, step))
  {
    match step
    case Store(db) => StoreKeeps(s, db);
    case ReplaceRows(db) => ReplaceKeeps(s, db);
    case FinalizeRows(db) => FinalizeKeeps(s, db);
    case PublishState(now, logID, db) => PublishKeeps(s, now, logID, db);
    case WriteSummary(w, db) => WriteSummaryKeeps(s, w, db);
    case Open(_, _) => RowStepKeeps(s, step);
    case Log(_, _) => RowStepKeeps(s, step);
    case ReportFailure(_, _, _) => RowStepKeeps(s, step);
    case MarkStale(_, _) => RowStepKeeps(s, step);
    case _ => QuietStepKeeps(s, step);
  }

  lemma {:induction false} RunKeeps(s: State, steps: seq<Step>)
    requires Inv(s) && Legal(s, steps)
    ensures Inv(Run(s, steps))
    decreases |steps|
  {
    if steps != [] {
      StepKeeps(s, steps[0]);
      RunKeeps(Apply(s, steps[0]), steps[1..]);
    }
  }

  lemma ReachableInv(s: State)
    requires Reachable(s)
    ensures Inv(s)
  {
    var steps :| Legal(INITIAL, steps) && Run(INITIAL, steps) == s;
    RunKeeps(INITIAL, steps);
  }

  // ---- exact publication ----

  /** Nothing is stored above the next generation; a row there stands beside a config row; the visible list is the last
      published payload and the summaries written since, except between a finalize and its publication. */
  lemma VisibleIsLastPayload(s: State)
    requires Reachable(s)
    ensures forall k | k in s.t.snapshots :: k.generation <= Published(s.t) + 1
    ensures forall k | k in s.t.snapshots && k.generation == Published(s.t) + 1 :: k.generation in s.t.configs
    ensures Visible(s.t) == (if s.unpublished then {} else s.published) + s.added
  {
    ReachableInv(s);
    forall k | k in s.t.snapshots && k.generation == Published(s.t) + 1 ensures k.generation in s.t.configs {
      assert k.id in IdsAt(s.t.snapshots, Published(s.t) + 1);
    }
  }

  /** A sync that publishes makes the visible ids exactly those of the payload it read. */
  lemma PublicationIsExact(s: State, now: int, logID: Option<int>)
    requires Reachable(s) && Enabled(s, PublishState(now, logID, true))
    ensures Visible(Apply(s, PublishState(now, logID, true)).t) == Ids(s.sync.phase.entries)
    ensures Published(Apply(s, PublishState(now, logID, true)).t) == Published(s.t) + 1
  {
    ReachableInv(s);
  }

  // ---- a failed refresh keeps the old index ----

  function RowsAt(rows: SnapshotRows, generation: nat): map<string, SnapshotRow> {
    map k | k in rows && k.generation == generation :: k.id := rows[k]
  }

  /** No finalize commits, no summary is written and nothing is reset; everything else may happen and fail. */
  predicate CommitsNothing(step: Step) {
    !step.Reset? && (step.FinalizeRows? ==> !step.db) && (step.WriteSummary? ==> !step.db)
  }

  predicate AllCommitNothing(steps: seq<Step>)
    decreases |steps|
  {
    steps == [] || (CommitsNothing(steps[0]) && AllCommitNothing(steps[1..]))
  }

  predicate AboutToPublish(s: State) {
    s.sync.At? && s.sync.phase.Publish?
  }

  lemma StepKeepsVisibleRows(s: State, step: Step)
    requires Inv(s) && !AboutToPublish(s) && Enabled(s, step) && CommitsNothing(step)
    ensures !AboutToPublish(Apply(s, step)) && Published(Apply(s, step).t) == Published(s.t)
    ensures RowsAt(Apply(s, step).t.snapshots, Published(s.t)) == RowsAt(s.t.snapshots, Published(s.t))
  {
    if step.ReplaceRows? && step.db && Decodes(s.sync.phase.payload) {
      var entries := Decoded(s.sync.phase.payload.items);
      ReplacedKeys(s.t.snapshots, s.sync.generation, entries);
      SameRowsAt(s.t.snapshots, Replaced(s.t.snapshots, s.sync.generation, entries), Published(s.t));
    }
  }

  /** A failed refresh keeps the old index: over any run of syncs, each failing before or at its finalize, of stale
      marks, crashes and summaries that are not written, readers see the same rows at the same generation. */
  lemma {:induction false} FailedRefreshKeepsIndex(s: State, steps: seq<Step>)
    requires Inv(s) && !AboutToPublish(s) && Legal(s, steps) && AllCommitNothing(steps)
    ensures Published(Run(s, steps).t) == Published(s.t)
    ensures RowsAt(Run(s, steps).t.snapshots, Published(s.t)) == RowsAt(s.t.snapshots, Published(s.t))
    decreases |steps|
  {
    if steps != [] {
      StepKeepsVisibleRows(s, steps[0]);
      StepKeeps(s, steps[0]);
      FailedRefreshKeepsIndex(Apply(s, steps[0]), steps[1..]);
    }
  }

  /** In every reachable state, one step at a time; a publishing write that fails keeps the rows too. */
  lemma SyncStepsKeepVisibleRows(s: State, step: Step)
    requires Reachable(s) && Enabled(s, step) && CommitsNothing(step) && (step.PublishState? ==> !step.db)
    ensures Published(Apply(s, step).t) == Published(s.t)
    ensures RowsAt(Apply(s, step).t.snapshots, Published(s.t)) == RowsAt(s.t.snapshots, Published(s.t))
  {
    ReachableInv(s);
    if !AboutToPublish(s) { StepKeepsVisibleRows(s, step); }
  }

  lemma SameRowsAt(a: SnapshotRows, b: SnapshotRows, g: nat)
    requires forall k: RowKey | k.generation == g :: k in a <==> k in b
    requires forall k | k in a && k.generation == g :: b[k] == a[k]
    ensures RowsAt(a, g) == RowsAt(b, g)
  {
    forall id ensures id in RowsAt(a, g) <==> id in RowsAt(b, g) {
      assert RowKey(id, g) in a <==> RowKey(id, g) in b;
    }
  }

  predicate NoReset(steps: seq<Step>)
    decreases |steps|
  {
    steps == [] || (!steps[0].Reset? && NoReset(steps[1..]))
  }

  lemma ProgressStays(s: State, step: Step)
    requires Inv(s) && Enabled(s, step) && !step.Reset?
    ensures Published(Apply(s, step).t) >= Published(s.t)
    ensures LastSuccess(s.t).Some? ==> LastSuccess(Apply(s, step).t).Some?
    ensures LastSuccess(Apply(s, step).t) != LastSuccess(s.t) ==>
            step.PublishState? && LastSuccess(Apply(s, step).t) == Some(step.now)
  {
  }

  /** Over any run of syncs, stale marks, summaries and crashes the published generation never falls and the success
      time is never cleared. */
  lemma {:induction false} ProgressNeverLost(s: State, steps: seq<Step>)
    requires Inv(s) && Legal(s, steps) && NoReset(steps)
    ensures Published(Run(s, steps).t) >= Published(s.t)
    ensures LastSuccess(s.t).Some? ==> LastSuccess(Run(s, steps).t).Some?
    decreases |steps|
  {
    if steps != [] {
      ProgressStays(s, steps[0]);
      StepKeeps(s, steps[0]);
      ProgressNeverLost(Apply(s, steps[0]), steps[1..]);
    }
  }

  // ---- when a later sync can still publish ----

  /** A config row at the next generation blocks every sync that has not stored its own. */
  predicate Free(s: State) {
    if s.sync.At? && (s.sync.phase.OpenSnapshots? || s.sync.phase.RunSnapshots? || s.sync.phase.Finalize?
        || s.sync.phase.Publish?) then true
    else if s.sync.At? && s.sync.phase.Replace? then Decodes(s.sync.phase.payload)
    else Published(s.t) + 1 !in s.t.configs
  }

  lemma BlockedStays(s: State, step: Step)
    requires Inv(s) && !Free(s) && Enabled(s, step) && !step.Reset?
    ensures !Free(Apply(s, step)) && Published(Apply(s, step).t) == Published(s.t)
  {
  }

  lemma {:induction false} BlockedForever(s: State, steps: seq<Step>)
    requires Inv(s) && !Free(s) && Legal(s, steps) && NoReset(steps)
    ensures !Free(Run(s, steps)) && Published(Run(s, steps).t) == Published(s.t)
    decreases |steps|
  {
    if steps != [] {
      BlockedStays(s, steps[0]);
      StepKeeps(s, steps[0]);
      BlockedForever(Apply(s, steps[0]), steps[1..]);
    }
  }

  function Rank(s: State): nat {
    if s.sync.Idle? then 9
    else match s.sync.phase
      case OpenConfig => 8
      case RunConfig => 7
      case StoreConfig(config) => if config.Some? then 6 else 11
      case OpenSnapshots => 5
      case RunSnapshots => 4
      case Replace(_) => 3
      case Finalize(_) => 2
      case Publish(_) => 1
      case MarkFiles => 10
      case Report(_, _) => 10
  }

  function NextStep(s: State): Step {
    if s.sync.Idle? then Begin(true)
    else match s.sync.phase
      case OpenConfig => Open(None, true)
      case RunConfig => ConfigReturns(Some(Config("", 0, "")))
      case StoreConfig(config) => Store(true)
      case OpenSnapshots => Open(None, true)
      case RunSnapshots => SnapshotsReturn(Payload(true, [], true))
      case Replace(_) => ReplaceRows(true)
      case Finalize(_) => FinalizeRows(true)
      case Publish(_) => PublishState(0, None, true)
      case MarkFiles => FilesMarked
      case Report(_, _) => ReportFailure("", None, false)
  }

  lemma FreeAdvances(s: State)
    requires Inv(s) && Free(s)
    ensures Enabled(s, NextStep(s)) && !NextStep(s).Reset?
    ensures var s' := Apply(s, NextStep(s));
            Published(s'.t) > Published(s.t) || (Published(s'.t) == Published(s.t) && Free(s') && Rank(s') < Rank(s))
  {
  }

  lemma RunCons(s: State, step: Step, rest: seq<Step>)
    requires Enabled(s, step) && Legal(Apply(s, step), rest)
    ensures Legal(s, [step] + rest) && Run(s, [step] + rest) == Run(Apply(s, step), rest)
    ensures !step.Reset? && NoReset(rest) ==> NoReset([step] + rest)
  {
    assert ([step] + rest)[1..] == rest;
  }

  lemma {:induction false} RunConcat(s: State, a: seq<Step>, b: seq<Step>)
    requires Legal(s, a) && Legal(Run(s, a), b)
    ensures Legal(s, a + b) && Run(s, a + b) == Run(Run(s, a), b)
    decreases |a|
  {
    if a == [] {
      assert a + b == b;
    } else {
      assert (a + b)[0] == a[0] && (a + b)[1..] == a[1..] + b;
      RunConcat(Apply(s, a[0]), a[1..], b);
    }
  }

  /** A run so far, one step longer. */
  lemma RunStep(s: State, steps: seq<Step>, step: Step) returns (all: seq<Step>)
    requires Legal(s, steps) && Enabled(Run(s, steps), step)
    ensures Legal(s, all) && Run(s, all) == Apply(Run(s, steps), step)
  {
    all := steps + [step];
    var now := Run(s, steps);
    assert Legal(Apply(now, step), []);
    RunCons(now, step, []);
    assert [step] + [] == [step];
    RunConcat(s, steps, [step]);
  }

  lemma {:induction false} FreePublishes(s: State) returns (steps: seq<Step>)
    requires Inv(s) && Free(s)
    ensures Legal(s, steps) && NoReset(steps) && Published(Run(s, steps).t) > Published(s.t)
    decreases Rank(s)
  {
    var s' := Apply(s, NextStep(s));
    FreeAdvances(s);
    StepKeeps(s, NextStep(s));
    var rest := [];
    if Published(s'.t) == Published(s.t) {
      rest := FreePublishes(s');
    }
    RunCons(s, NextStep(s), rest);
    steps := [NextStep(s)] + rest;
  }

  ghost predicate CanPublish(s: State) {
    exists steps :: Legal(s, steps) && NoReset(steps) && Published(Run(s, steps).t) > Published(s.t)
  }

  /** Short of a reset, the list can be refreshed again exactly when no earlier run left a config row at the next
      generation. */
  lemma CanPublishExactly(s: State)
    requires Reachable(s)
    ensures CanPublish(s) <==> Free(s)
    ensures s.sync.Idle? ==> (CanPublish(s) <==> Published(s.t) + 1 !in s.t.configs)
  {
    ReachableInv(s);
    if Free(s) {
      var steps := FreePublishes(s);
    } else {
      forall steps | Legal(s, steps) && NoReset(steps) ensures Published(Run(s, steps).t) == Published(s.t) {
        BlockedForever(s, steps);
      }
    }
  }

  /** A run that fails after it stored its config, or loses the publishing write, leaves the cache in that state. */
  lemma FailureAfterConfigBlocks(s: State, step: Step)
    requires Reachable(s) && Enabled(s, step) && s.sync.At? && s.sync.generation in s.t.configs
    requires || step.CommandFails? || step.Crash? || (step.Open? && !step.db) || (step.FinalizeRows? && !step.db)
             || (step.PublishState? && !step.db) || (step.ReplaceRows? && !(step.db && Decodes(s.sync.phase.payload)))
    requires !s.sync.phase.MarkFiles?
    ensures !CanPublish(Apply(s, step))
  {
    ReachableInv(s);
    StepKeeps(s, step);
    var s' := Apply(s, step);
    assert !Free(s');
    forall steps | Legal(s', steps) && NoReset(steps) ensures Published(Run(s', steps).t) == Published(s'.t) {
      BlockedForever(s', steps);
    }
  }

  // ---- summary carry-over ----

  /** The payload lists the snapshot, and nowhere with a summary of its own. */
  predicate ListsBare(payload: Payload<Entry>, id: string) {
    Decodes(payload) ==>
      id in Ids(Decoded(payload.items)) && forall i | 0 <= i < |payload.items|
          && Decoded(payload.items)[i].id == id :: Decoded(payload.items)[i].facts == NO_FACTS
  }

  predicate Bare(step: Step, id: string) {
    && !step.Reset?
    && (step.SnapshotsReturn? ==> ListsBare(step.payload, id))
    && (step.ReadGeneration? ==> step.summary.id != id)
  }

  predicate AllBare(steps: seq<Step>, id: string)
    decreases |steps|
  {
    steps == [] || (Bare(steps[0], id) && AllBare(steps[1..], id))
  }

  /** The facts stand on the visible row, and once the new rows are written on the row of the next generation too. */
  predicate Carries(s: State, id: string, f: Facts) {
    var p := Published(s.t);
    && Keepable(f)
    && FactsOf(s.t.snapshots, id, if s.unpublished then p + 1 else p) == Some(f)
    && (s.sync.At? && s.sync.phase.Replace? ==> ListsBare(s.sync.phase.payload, id))
    && (s.sync.At? && s.sync.phase.Finalize? ==> FactsOf(s.t.snapshots, id, p + 1) == Some(f))
    && (forall w | 0 <= w < |s.writers| && s.writers[w].Writing? :: s.writers[w].summary.id != id)
  }

  lemma ReplaceCarries(s: State, db: bool, id: string, f: Facts)
    requires Inv(s) && Carries(s, id, f) && Enabled(s, ReplaceRows(db))
    ensures Carries(Apply(s, ReplaceRows(db)), id, f)
  {
    if db && Decodes(s.sync.phase.payload) {
      var entries := Decoded(s.sync.phase.payload.items);
      assert FactsOf(s.t.snapshots, id, s.sync.generation) == None by {
        assert id !in IdsAt(s.t.snapshots, s.sync.generation);
      }
      HighestIsNewest(s.t.snapshots, s.sync.generation - 1, id, f);
      ReplacedKeys(s.t.snapshots, s.sync.generation, entries);
      ReplacedCarries(s.t.snapshots, s.sync.generation, entries, id, f);
    }
  }

  lemma WriteSummaryCarries(s: State, w: nat, db: bool, id: string, f: Facts)
    requires Inv(s) && Carries(s, id, f) && Enabled(s, WriteSummary(w, db))
    ensures Carries(Apply(s, WriteSummary(w, db)), id, f)
  {
  }

  lemma LateStepCarries(s: State, step: Step, id: string, f: Facts)
    requires Inv(s) && Carries(s, id, f) && Enabled(s, step) && (step.FinalizeRows? || step.PublishState?)
    ensures Carries(Apply(s, step), id, f)
  {
  }

  lemma RowStepCarries(s: State, step: Step, id: string, f: Facts)
    requires Inv(s) && Carries(s, id, f) && Enabled(s, step)
            && (step.Open? || step.Log? || step.ReportFailure? || step.MarkStale?)
    ensures Carries(Apply(s, step), id, f)
  {
    assert Published(Apply(s, step).t) == Published(s.t);
  }

  lemma QuietStepCarries(s: State, step: Step, id: string, f: Facts)
    requires Inv(s) && Carries(s, id, f) && Enabled(s, step) && Bare(step, id)
    requires !(step.Open? || step.Log? || step.ReportFailure? || step.MarkStale?)
    requires !step.ReplaceRows? && !step.WriteSummary? && !step.FinalizeRows? && !step.PublishState?
    ensures Carries(Apply(s, step), id, f)
  {
    assert Published(Apply(s, step).t) == Published(s.t);
  }

  /** A summary written at the published generation before the sync replaces its rows is one that carries over. */
  lemma SummaryStartsCarrying(s: State, w: nat)
    requires Reachable(s) && Enabled(s, WriteSummary(w, true)) && !s.unpublished
            && s.writers[w].generation == Published(s.t)
    requires Keepable(s.writers[w].summary.facts)
    requires forall v | 0 <= v < |s.writers| && v != w && s.writers[v].Writing? ::
            s.writers[v].summary.id != s.writers[w].summary.id
    requires s.sync.At? ==>
            !s.sync.phase.Finalize?
            && (s.sync.phase.Replace? ==> ListsBare(s.sync.phase.payload, s.writers[w].summary.id))
    ensures Carries(Apply(s, WriteSummary(w, true)), s.writers[w].summary.id, s.writers[w].summary.facts)
  {
    ReachableInv(s);
  }

  lemma StepCarries(s: State, step: Step, id: string, f: Facts)
    requires Inv(s) && Carries(s, id, f) && Enabled(s, step) && Bare(step, id)
    ensures Carries(Apply(s, step), id, f)
  {
    if step.ReplaceRows? { ReplaceCarries(s, step.db, id, f); }
    else if step.WriteSummary? { WriteSummaryCarries(s, step.w, step.db, id, f); }
    else if step.FinalizeRows? || step.PublishState? { LateStepCarries(s, step, id, f); }
    else if step.Open? || step.Log? || step.ReportFailure? || step.MarkStale? { RowStepCarries(s, step, id, f); }
    else { QuietStepCarries(s, step, id, f); }
  }

  lemma {:induction false} RunCarries(s: State, steps: seq<Step>, id: string, f: Facts)
    requires Inv(s) && Carries(s, id, f) && Legal(s, steps) && AllBare(steps, id)
    ensures Carries(Run(s, steps), id, f)
    decreases |steps|
  {
    if steps != [] {
      StepCarries(s, steps[0], id, f);
      StepKeeps(s, steps[0]);
      RunCarries(Apply(s, steps[0]), steps[1..], id, f);
    }
  }

  /** A stored summary and all its metrics stay on the visible row through any number of syncs whose payloads list the
      snapshot bare. */
  lemma SummaryCarryOver(s: State, steps: seq<Step>, id: string, f: Facts)
    requires Reachable(s) && Carries(s, id, f) && Legal(s, steps) && AllBare(steps, id)
    ensures var s' := Run(s, steps);
            !s'.unpublished ==> FactsOf(s'.t.snapshots, id, Published(s'.t)) == Some(f)
  {
    ReachableInv(s);
    RunCarries(s, steps, id, f);
  }

  /** A summary that arrives between the replacement of the rows and the finalize is dropped: publication shows the
      same rows as without it. */
  lemma LateSummaryIsLost(s: State, w: nat, now: int, logID: Option<int>)
    requires Reachable(s) && Enabled(s, WriteSummary(w, true)) && s.sync.At? && s.sync.phase.Finalize?
    ensures var tail := [FinalizeRows(true), PublishState(now, logID, true)];
            var late := [WriteSummary(w, true)] + tail;
            Legal(s, tail) && Legal(s, late) && Run(s, late).t == Run(s, tail).t
  {
    ReachableInv(s);
    var finalize, publish := FinalizeRows(true), PublishState(now, logID, true);
    var written := Apply(s, WriteSummary(w, true));
    assert Finalized(written.t, s.sync.generation).snapshots == Finalized(s.t, s.sync.generation).snapshots;
    TwoSteps(s, finalize, publish);
    TwoSteps(written, finalize, publish);
    RunCons(s, WriteSummary(w, true), [finalize, publish]);
  }

  lemma TwoSteps(s: State, first: Step, second: Step)
    requires Enabled(s, first) && Enabled(Apply(s, first), second)
    ensures Legal(s, [first, second]) && Run(s, [first, second]) == Apply(Apply(s, first), second)
  {
    assert Legal(Apply(Apply(s, first), second), []);
    RunCons(Apply(s, first), second, []);
    RunCons(s, first, [second]);
    assert [second] + [] == [second] && [first] + [second] == [first, second];
  }
}
