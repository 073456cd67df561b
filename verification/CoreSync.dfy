/** `runCoreSync` on the tables: every way it can go is a run of the protocol. */
module CoreSync {
  import opened Wrappers
  import opened CacheTables
  import opened CacheStore
  import opened CoreSyncProtocol
  import Planner

  /** How a restic command ends: its log id, its output unless it fails, its error text. */
  datatype CommandResult<T> = CommandResult(logID: int, output: Option<T>, err: string)

  /** What the world answers: whether each state read or write succeeds, the two commands, the database calls of the
      stores and the error texts of the stores. */
  datatype Outcomes = Outcomes(
    db: nat -> bool, config: CommandResult<Option<Config>>, snapshots: CommandResult<Payload<Entry>>,
    insert: bool, replace: Database, finalize: Database, now: int,
    insertErr: string, replaceErr: string, finalizeErr: string)

  // ---- the row a sync leaves, said without the way it writes it ----

  /** How a sync ends: before its first write, with the error of a command or store in a phase, cut short by a state
      write that fails, or published. */
  datatype Ending = Untouched | Refused(phase: string, progress: int, err: string, reported: bool)
                  | CutShort(phase: string, progress: int) | Done

  ghost predicate ReplaceWorks(o: Outcomes) {
    && o.snapshots.output.Some? && o.replace.begin && o.replace.prepare && o.replace.commit
    && Decodes(o.snapshots.output.value)
    && StoresAll(o.replace, o.snapshots.output.value.items, |o.snapshots.output.value.items|)
  }

  ghost predicate FinalizeWorks(o: Outcomes) {
    o.finalize.begin && o.finalize.commit && forall i | 0 <= i < 4 :: o.finalize.exec(i)
  }

  /** The progress of a running row: with a log id it is told again. */
  ghost function Reached(logID: int, written: bool, first: int, logged: int): int {
    if logID > 0 && written then logged else first
  }

  /** The config half ends well; `taken` says that a config row of the generation is already there. */
  ghost predicate ConfigWorks(o: Outcomes, taken: bool) {
    o.db(1) && o.config.output.Some? && o.config.output.value.Some? && o.insert && !taken
  }

  ghost function ConfigEnding(o: Outcomes): Ending {
    if !o.db(1) then Untouched
    else Refused("config", 25, if o.config.output.None? then o.config.err else o.insertErr, o.db(3))
  }

  ghost function RowsEnding(o: Outcomes): Ending {
    if !o.db(4) then CutShort("config", Reached(o.config.logID, o.db(2), 10, 25))
    else if !ReplaceWorks(o)
      then Refused("snapshots", 75, if o.snapshots.output.None? then o.snapshots.err else o.replaceErr, o.db(6))
    else PublishEnding(o)
  }

  ghost function PublishEnding(o: Outcomes): Ending {
    if !FinalizeWorks(o) then Refused("snapshots", 90, o.finalizeErr, o.db(7))
    else if !o.db(8) then CutShort("snapshots", Reached(o.snapshots.logID, o.db(5), 50, 75))
    else Done
  }

  /** The way a sync goes, read off the answers in order. */
  ghost function EndingOf(o: Outcomes, taken: bool): Ending {
    if !o.db(0) then Untouched else if !ConfigWorks(o, taken) then ConfigEnding(o) else RowsEnding(o)
  }

  predicate Shows(row: Option<SyncRow>, status: Status, phase: string, progress: int, err: string) {
    row.Some? && row.value.status == status && row.value.phase == phase && row.value.progress == progress
    && row.value.lastError == err
  }

  /** The published generation and the time of the last success are as they were. */
  predicate KeepsSuccess(before: Option<SyncRow>, after: Option<SyncRow>) {
    after.Some?
    && after.value.generation == (if before.Some? then before.value.generation else 0)
    && after.value.lastSuccess == (if before.Some? then before.value.lastSuccess else None)
  }

  /** Only a positive log id is stored, the snapshots command's over the config command's; without one the id before
      stays. */
  predicate LogKept(config: int, snapshots: int, before: Option<SyncRow>, after: Option<SyncRow>) {
    after.Some?
    && after.value.logID == if snapshots > 0 then Some(snapshots)
                            else if config > 0 then Some(config)
                            else if before.Some? then before.value.logID else None
  }

  /** The row a sync leaves behind. */
  ghost predicate Leaves(ending: Ending, o: Outcomes, before: Option<SyncRow>, after: Option<SyncRow>) {
    match ending
    case Untouched => after == before
    case Refused(phase, progress, err, reported) =>
      && KeepsSuccess(before, after) && after.value.phase == phase
      && (reported ==> Shows(after, Failed, phase, progress, err)
                       && LogKept(o.config.logID, if phase == "config" then 0 else o.snapshots.logID, before, after))
      && (!reported ==> after.value.status == Running && after.value.lastError == "")
    case CutShort(phase, progress) => KeepsSuccess(before, after) && Shows(after, Running, phase, progress, "")
    case Done =>
      && Shows(after, Successful, "", 100, "") && after.value.lastSuccess == Some(o.now)
      && after.value.generation == (if before.Some? then before.value.generation else 0) + 1
      && LogKept(o.config.logID, o.snapshots.logID, before, after)
  }

  /** `steps` lead from `s` to a state with these tables. */
  ghost predicate Leads(s: State, steps: seq<Step>, t: CoreTables, sync: Sync) {
    Legal(s, steps) && Run(s, steps).t == t && Run(s, steps).sync == sync
  }

  /** The deferred end of a failed run: the failed state, its result ignored. */
  method ReportFailed(cache: RepoCache, phase: string, progress: int, err: string, logID: int, db: bool,
      ghost s: State, ghost steps: seq<Step>)
    returns (ghost all: seq<Step>)
    requires s.sync.At? && Leads(s, steps, cache.core, At(Report(phase, progress), s.sync.generation))
    modifies cache`core
    ensures Leads(s, all, cache.core, Idle)
    ensures Published(cache.core) == old(Published(cache.core))
    ensures cache.core == old(cache.core).(sync := cache.core.sync)
    ensures db ==> Shows(cache.core.sync, Failed, phase, progress, err)
                   && KeepsSuccess(old(cache.core.sync), cache.core.sync)
                   && LogKept(logID, 0, old(cache.core.sync), cache.core.sync)
    ensures !db ==> cache.core == old(cache.core)
  {
    var written := cache.SetSyncState(SyncRow(Failed, phase, progress, 0, None, err, Some(logID)), db);
    all := RunStep(s, steps, ReportFailure(err, Some(logID), db));
  }

  function RunningAt(phase: string, progress: int, logID: Option<int>): SyncRow {
    SyncRow(Running, phase, progress, 0, None, "", logID)
  }

  method WriteRunning(cache: RepoCache, phase: string, progress: int, logID: Option<int>, db: bool) returns (ok: bool)
    modifies cache`core
    ensures ok == db
    ensures cache.core ==
            var row := SyncWritten(old(cache.core).sync, RunningAt(phase, progress, logID));
            old(cache.core).(sync := if ok then Some(row) else old(cache.core).sync)
  {
    ok := cache.SetSyncState(RunningAt(phase, progress, logID), db);
  }

  /** The running state before a command, and its log id after it. */
  method StartCommand(cache: RepoCache, config: bool, given: Option<int>, logID: int, dbOpen: bool, dbLog: bool,
      ghost s: State)
    returns (ok: bool, ghost steps: seq<Step>)
    requires s.t == cache.core && s.sync.At? && s.sync.phase == (if config then OpenConfig else OpenSnapshots)
    requires config ==> given == None
    modifies cache`core
    ensures Leads(s, steps, cache.core, if ok then At(if config then RunConfig else RunSnapshots, s.sync.generation)
            else Idle)
    ensures cache.core == old(cache.core).(sync := cache.core.sync)
            && Published(cache.core) == old(Published(cache.core))
    ensures ok == dbOpen && (!ok ==> cache.core == old(cache.core))
    ensures ok ==> KeepsSuccess(old(cache.core.sync), cache.core.sync)
                   && Shows(cache.core.sync, Running, if config then "config" else "snapshots",
                            if config then Reached(logID, dbLog, 10, 25) else Reached(logID, dbLog, 50, 75), "")
                   && (logID <= 0 ==>
                         LogKept(if given.Some? then given.value else 0, 0, old(cache.core.sync), cache.core.sync))
  {
    steps := [];
    var phase := if config then "config" else "snapshots";
    ok := WriteRunning(cache, phase, if config then 10 else 50, given, dbOpen);
    steps := RunStep(s, steps, Open(given, ok));
    if ok && logID > 0 {
      var logged := WriteRunning(cache, phase, if config then 25 else 75, Some(logID), dbLog);
      steps := RunStep(s, steps, Log(logID, logged));
    }
  }

  /** The config half. */
  method SyncConfig(cache: RepoCache, generation: nat, o: Outcomes, ghost s: State)
      returns (ok: bool, ghost steps: seq<Step>)
    requires s.t == cache.core && s.sync == At(OpenConfig, generation)
    modifies cache`core
    ensures Leads(s, steps, cache.core, if ok then At(OpenSnapshots, generation) else Idle)
    ensures Published(cache.core) == old(Published(cache.core)) && cache.core.snapshots == old(cache.core.snapshots)
    ensures ok <==> ConfigWorks(o, generation in old(cache.core.configs))
    ensures !ok ==> Leaves(ConfigEnding(o), o, old(cache.core.sync), cache.core.sync)
    ensures ok ==> Shows(cache.core.sync, Running, "config", Reached(o.config.logID, o.db(2), 10, 25), "")
                   && KeepsSuccess(old(cache.core.sync), cache.core.sync)
                   && (o.config.logID <= 0 ==> LogKept(0, 0, old(cache.core.sync), cache.core.sync))
    ensures cache.core.configs == if ok then old(cache.core.configs)[generation := o.config.output.value.value]
                                  else old(cache.core.configs)
  {
    ok, steps := StartCommand(cache, true, None, o.config.logID, o.db(1), o.db(2), s);
    if ok {
      ok, steps := StoreConfigOutput(cache, generation, o, s, steps);
    }
  }

  /** The command's output and its store; a failure is reported in the row, and otherwise the row stays. */
  method StoreConfigOutput(cache: RepoCache, generation: nat, o: Outcomes, ghost s: State, ghost before: seq<Step>)
      returns (ok: bool, ghost steps: seq<Step>)
    requires Leads(s, before, cache.core, At(RunConfig, generation)) && o.db(1)
    requires s.sync.At? && s.sync.generation == generation
    modifies cache`core
    ensures Leads(s, steps, cache.core, if ok then At(OpenSnapshots, generation) else Idle)
    ensures Published(cache.core) == old(Published(cache.core)) && cache.core.snapshots == old(cache.core.snapshots)
    ensures ok <==> ConfigWorks(o, generation in old(cache.core.configs))
    ensures ok || !o.db(3) ==> cache.core.sync == old(cache.core.sync)
    ensures !ok && o.db(3) ==>
              && Shows(cache.core.sync, Failed, "config", 25,
                       if o.config.output.None? then o.config.err else o.insertErr)
              && KeepsSuccess(old(cache.core.sync), cache.core.sync)
              && LogKept(o.config.logID, 0, old(cache.core.sync), cache.core.sync)
    ensures cache.core.configs == if ok then old(cache.core.configs)[generation := o.config.output.value.value]
                                  else old(cache.core.configs)
  {
    var logID := o.config.logID;
    steps := before;
    if o.config.output.None? {
      steps := RunStep(s, steps, CommandFails);
      steps := ReportFailed(cache, "config", 25, o.config.err, logID, o.db(3), s, steps);
      return false, steps;
    }
    steps := RunStep(s, steps, ConfigReturns(o.config.output.value));
    var stored := cache.StoreResticConfig(generation, o.config.output.value, o.insert);
    steps := RunStep(s, steps, Store(stored));
    if !stored {
      steps := ReportFailed(cache, "config", 25, o.insertErr, logID, o.db(3), s, steps);
      return false, steps;
    }
    ok := true;
  }

  /** The snapshots half, up to the replaced rows. */
  method SyncSnapshots(cache: RepoCache, generation: nat, o: Outcomes, ghost s: State)
      returns (ok: bool, ghost steps: seq<Step>)
    requires s.t == cache.core && s.sync == At(OpenSnapshots, generation)
    modifies cache`core
    ensures ok ==> o.snapshots.output.Some? && Decodes(o.snapshots.output.value)
    ensures Leads(s, steps, cache.core, if ok then At(Finalize(Decoded(o.snapshots.output.value.items)), generation)
            else Idle)
    ensures Published(cache.core) == old(Published(cache.core))
    ensures cache.core.snapshots == if ok
            then Replaced(old(cache.core.snapshots), generation, Decoded(o.snapshots.output.value.items))
                                    else old(cache.core.snapshots)
    ensures ok <==> o.db(4) && ReplaceWorks(o)
    ensures cache.core.configs == old(cache.core.configs)
    ensures !ok && !o.db(4) ==> cache.core == old(cache.core)
    ensures !ok && o.db(4) ==> Leaves(RowsEnding(o), o, old(cache.core.sync), cache.core.sync)
    ensures ok ==> Shows(cache.core.sync, Running, "snapshots", Reached(o.snapshots.logID, o.db(5), 50, 75), "")
                   && KeepsSuccess(old(cache.core.sync), cache.core.sync)
                   && (o.snapshots.logID <= 0 ==>
                         LogKept(o.config.logID, 0, old(cache.core.sync), cache.core.sync))
  {
    var logID := o.snapshots.logID;
    ok, steps := StartCommand(cache, false, Some(o.config.logID), logID, o.db(4), o.db(5), s);
    if !ok {
      return;
    }
    if o.snapshots.output.None? {
      steps := RunStep(s, steps, CommandFails);
      steps := ReportFailed(cache, "snapshots", 75, o.snapshots.err, logID, o.db(6), s, steps);
      return false, steps;
    }
    var payload := o.snapshots.output.value;
    steps := RunStep(s, steps, SnapshotsReturn(payload));
    var replaced := cache.ReplaceSnapshots(generation, payload, o.replace);
    steps := RunStep(s, steps, ReplaceRows(replaced));
    if !replaced {
      steps := ReportFailed(cache, "snapshots", 75, o.replaceErr, logID, o.db(6), s, steps);
      return false, steps;
    }
    ok := true;
  }

  /** The finalize and the publishing write. */
  method PublishSnapshots(cache: RepoCache, generation: nat, o: Outcomes, ghost s: State)
    returns (ok: bool, ghost finalized: bool, ghost steps: seq<Step>)
    requires s.t == cache.core && s.sync.At? && s.sync.phase.Finalize? && s.sync.generation == generation > 0
    modifies cache
    ensures Leads(s, steps, cache.core, Idle) && (ok ==> finalized)
    ensures Published(cache.core) == if ok then generation else old(Published(cache.core))
    ensures cache.core.snapshots == if finalized then Finalized(old(cache.core), generation).snapshots
            else old(cache.core.snapshots)
    ensures ok <==> PublishEnding(o).Done?
    ensures !finalized ==> cache.core.configs == old(cache.core.configs)
    ensures ok ==> cache.core.configs.Keys == old(cache.core.configs.Keys) * {generation}
                   && forall g | g in cache.core.configs :: cache.core.configs[g] == old(cache.core.configs)[g]
    ensures !FinalizeWorks(o) && o.db(7) ==>
              && Shows(cache.core.sync, Failed, "snapshots", 90, o.finalizeErr)
              && KeepsSuccess(old(cache.core.sync), cache.core.sync)
              && LogKept(o.snapshots.logID, 0, old(cache.core.sync), cache.core.sync)
    ensures ok ==>
              && Shows(cache.core.sync, Successful, "", 100, "") && cache.core.sync.value.lastSuccess == Some(o.now)
              && LogKept(o.snapshots.logID, 0, old(cache.core.sync), cache.core.sync)
    ensures !ok && (FinalizeWorks(o) || !o.db(7)) ==> cache.core.sync == old(cache.core.sync)
  {
    steps := [];
    ok := cache.FinalizeCoreGeneration(generation, o.finalize);
    finalized := ok;
    steps := RunStep(s, steps, FinalizeRows(ok));
    if !ok {
      steps := ReportFailed(cache, "snapshots", 90, o.finalizeErr, o.snapshots.logID, o.db(7), s, steps);
      return;
    }
    var logID := Some(o.snapshots.logID);
    ok := cache.SetSyncState(SyncRow(Successful, "", 100, generation, Some(o.now), "", logID), o.db(8));
    steps := RunStep(s, steps, PublishState(o.now, logID, ok));
    if ok {
      steps := RunStep(s, steps, FilesMarked);
    }
  }

  /** Rows of another generation are those that were there; the generation itself gets the payload's ids. */
  lemma ReplacementIsApart(rows: SnapshotRows, generation: nat, entries: seq<Entry>, p: nat)
    requires p != generation
    ensures RowsAt(Replaced(rows, generation, entries), p) == RowsAt(rows, p)
    ensures IdsAt(Replaced(rows, generation, entries), generation) == IdsAt(rows, generation) + Ids(entries)
  {
    ReplacedKeys(rows, generation, entries);
    SameRowsAt(rows, Replaced(rows, generation, entries), p);
  }

  lemma FinalizedIds(t: CoreTables, generation: nat, p: nat)
    requires p != generation
    ensures IdsAt(Finalized(t, generation).snapshots, p) == {}
    ensures IdsAt(Finalized(t, generation).snapshots, generation) == IdsAt(t.snapshots, generation)
  {
  }

  /** The part after the config row. */
  method SyncRows(cache: RepoCache, generation: nat, o: Outcomes, ghost s: State)
    returns (ok: bool, ghost finalized: bool, ghost steps: seq<Step>)
    requires s.t == cache.core && s.sync == At(OpenSnapshots, generation) && generation == Published(cache.core) + 1
    modifies cache
    ensures Leads(s, steps, cache.core, Idle) && (ok ==> finalized)
    ensures Published(cache.core) == old(Published(cache.core)) + if ok then 1 else 0
    ensures ok ==> o.snapshots.output.Some? && Decodes(o.snapshots.output.value)
                   && Visible(cache.core)
                       == IdsAt(old(cache.core.snapshots), generation) + Ids(Decoded(o.snapshots.output.value.items))
    ensures !finalized ==>
              RowsAt(cache.core.snapshots, Published(cache.core))
                  == RowsAt(old(cache.core.snapshots), old(Published(cache.core)))
    ensures finalized && !ok ==> Visible(cache.core) == {}
    ensures ok <==> RowsEnding(o).Done?
    ensures !o.db(4) ==> cache.core == old(cache.core)
    ensures o.db(4) ==> Leaves(RowsEnding(o), o, old(cache.core.sync), cache.core.sync)
    ensures ok ==> cache.core.configs.Keys == old(cache.core.configs.Keys) * {generation}
                   && forall g | g in cache.core.configs :: cache.core.configs[g] == old(cache.core.configs)[g]
  {
    ghost var rows, p := cache.core.snapshots, Published(cache.core);
    finalized := false;
    ok, steps := SyncSnapshots(cache, generation, o, s);
    if !ok {
      return;
    }
    ReplacementIsApart(rows, generation, Decoded(o.snapshots.output.value.items), p);
    FinalizedIds(cache.core, generation, p);
    ghost var more;
    ok, finalized, more := PublishSnapshots(cache, generation, o, Run(s, steps));
    steps := Joined(s, steps, more);
  }

  /** What the config half leaves is what the rest starts from. */
  lemma HalvesJoin(o: Outcomes, before: Option<SyncRow>, middle: Option<SyncRow>, after: Option<SyncRow>)
    requires Shows(middle, Running, "config", Reached(o.config.logID, o.db(2), 10, 25), "")
    requires KeepsSuccess(before, middle) && (o.config.logID <= 0 ==> LogKept(0, 0, before, middle))
    requires if o.db(4) then Leaves(RowsEnding(o), o, middle, after) else after == middle
    ensures Leaves(RowsEnding(o), o, before, after)
  {
  }

  /** The two halves of a sync that has its generation. */
  method SyncHalves(cache: RepoCache, generation: nat, o: Outcomes, ghost s: State)
    returns (ok: bool, ghost finalized: bool, ghost steps: seq<Step>)
    requires s.t == cache.core && s.sync == At(OpenConfig, generation) && generation == Published(cache.core) + 1
    modifies cache
    ensures Leads(s, steps, cache.core, Idle) && (ok ==> finalized)
    ensures Published(cache.core) == old(Published(cache.core)) + if ok then 1 else 0
    ensures ok ==> o.snapshots.output.Some? && Decodes(o.snapshots.output.value)
                   && Visible(cache.core)
                       == IdsAt(old(cache.core.snapshots), generation) + Ids(Decoded(o.snapshots.output.value.items))
    ensures !finalized ==>
              RowsAt(cache.core.snapshots, Published(cache.core))
                  == RowsAt(old(cache.core.snapshots), old(Published(cache.core)))
    ensures finalized && !ok ==> Visible(cache.core) == {}
    ensures ok <==> ConfigWorks(o, generation in old(cache.core.configs)) && RowsEnding(o).Done?
    ensures Leaves(if ConfigWorks(o, generation in old(cache.core.configs)) then RowsEnding(o) else ConfigEnding(o), o,
                   old(cache.core.sync), cache.core.sync)
    ensures ok ==> cache.core.configs == map[generation := o.config.output.value.value]
  {
    finalized := false;
    ok, steps := SyncConfig(cache, generation, o, s);
    if !ok {
      return;
    }
    ghost var middle := cache.core.sync;
    ghost var more;
    ok, finalized, more := SyncRows(cache, generation, o, Run(s, steps));
    steps := Joined(s, steps, more);
    HalvesJoin(o, s.t.sync, middle, cache.core.sync);
  }

  /** Without interference, a core sync is a run of the protocol; it succeeds exactly when it publishes the next
      generation, and then shows the ids of its payload and has stored its config alone. As long as the finalize has
      not committed, a failed one leaves the rows that readers see; one that fails after it leaves them nothing to see.
      The row it leaves is that of its ending. */
  method RunCoreSync(cache: RepoCache, o: Outcomes, ghost s: State)
    returns (ok: bool, ghost finalized: bool, ghost steps: seq<Step>)
    requires s.t == cache.core && s.sync.Idle?
    modifies cache
    ensures Leads(s, steps, cache.core, Idle) && (ok ==> finalized)
    ensures Published(cache.core) == old(Published(cache.core)) + if ok then 1 else 0
    ensures ok && TablesOk(old(cache.core)) ==>
              o.snapshots.output.Some? && Decodes(o.snapshots.output.value)
              && Visible(cache.core) == Ids(Decoded(o.snapshots.output.value.items))
    ensures !finalized ==>
              RowsAt(cache.core.snapshots, Published(cache.core))
                  == RowsAt(old(cache.core.snapshots), old(Published(cache.core)))
    ensures finalized && !ok ==> Visible(cache.core) == {}
    ensures ok <==> EndingOf(o, Published(old(cache.core)) + 1 in old(cache.core.configs)).Done?
    ensures Leaves(EndingOf(o, Published(old(cache.core)) + 1 in old(cache.core.configs)), o,
                   old(cache.core.sync), cache.core.sync)
    ensures ok ==> cache.core.configs == map[Published(cache.core) := o.config.output.value.value]
  {
    steps := RunStep(s, [], Begin(o.db(0)));
    if !o.db(0) {
      return false, false, steps;
    }
    var generation := (if cache.core.sync.Some? then cache.core.sync.value.generation else 0) + 1;
    ghost var more;
    ok, finalized, more := SyncHalves(cache, generation, o, Run(s, steps));
    steps := Joined(s, steps, more);
  }

  /** A failure that is recorded makes the planner queue the repository again; one whose record is lost, or a sync cut
      short, leaves it running, which the planner passes over; a finished sync is not due. */
  lemma FailureIsRetried(o: Outcomes, taken: bool, before: Option<SyncRow>, after: Option<SyncRow>)
    requires Leaves(EndingOf(o, taken), o, before, after)
    ensures EndingOf(o, taken).Refused? && EndingOf(o, taken).reported ==> Planner.NeedsRefresh(after.value.status)
    ensures EndingOf(o, taken).Refused? && !EndingOf(o, taken).reported ==> !Planner.NeedsRefresh(after.value.status)
    ensures EndingOf(o, taken).CutShort? || EndingOf(o, taken).Done? ==> !Planner.NeedsRefresh(after.value.status)
  {
  }

  lemma Joined(s: State, a: seq<Step>, b: seq<Step>) returns (all: seq<Step>)
    requires Legal(s, a) && Legal(Run(s, a), b)
    ensures Legal(s, all) && Run(s, all) == Run(Run(s, a), b)
  {
    RunConcat(s, a, b);
    all := a + b;
  }
}
