/** What becomes of a backup summary, whenever and at whatever generation it is written. */
module SummaryFate {
  import opened Wrappers
  import opened CacheTables
  import opened CoreSyncProtocol

  predicate NoWriter(s: State, id: string) {
    forall w | 0 <= w < |s.writers| && s.writers[w].Writing? :: s.writers[w].summary.id != id
  }

  /** The facts are those of the latest row that has any, so that every bare entry to come is filled with them. */
  predicate Kept(s: State, id: string, f: Facts) {
    && Keepable(f) && Newest(s.t.snapshots, id, f) && NoWriter(s, id)
    && (s.sync.At? && s.sync.phase.Replace? ==> ListsBare(s.sync.phase.payload, id))
    && (s.sync.At? && s.sync.phase.Finalize? ==> FactsOf(s.t.snapshots, id, Published(s.t) + 1) == Some(f))
  }

  lemma KeptThroughReplace(s: State, db: bool, id: string, f: Facts)
    requires Inv(s) && Kept(s, id, f) && Enabled(s, ReplaceRows(db))
    ensures Kept(Apply(s, ReplaceRows(db)), id, f)
  {
    if db && Decodes(s.sync.phase.payload) {
      assert FactsOf(s.t.snapshots, id, s.sync.generation) == None by {
        assert id !in IdsAt(s.t.snapshots, s.sync.generation);
      }
      ReplacedCarries(s.t.snapshots, s.sync.generation, Decoded(s.sync.phase.payload.items), id, f);
    }
  }

  lemma KeptThroughFinalize(s: State, db: bool, id: string, f: Facts)
    requires Inv(s) && Kept(s, id, f) && Enabled(s, FinalizeRows(db))
    ensures if db then Carries(Apply(s, FinalizeRows(db)), id, f) else Kept(Apply(s, FinalizeRows(db)), id, f)
  {
  }

  lemma KeptThroughWrite(s: State, w: nat, db: bool, id: string, f: Facts)
    requires Inv(s) && Kept(s, id, f) && Enabled(s, WriteSummary(w, db))
    ensures Kept(Apply(s, WriteSummary(w, db)), id, f)
  {
    var s' := Apply(s, WriteSummary(w, db));
    SameSources(s.t.snapshots, s'.t.snapshots, id);
  }

  lemma KeptThroughRows(s: State, step: Step, id: string, f: Facts)
    requires Inv(s) && Kept(s, id, f) && Enabled(s, step)
    requires step.Open? || step.Log? || step.ReportFailure? || step.MarkStale? || step.PublishState?
    ensures Kept(Apply(s, step), id, f)
  {
    assert Apply(s, step).t.snapshots == s.t.snapshots;
  }

  lemma KeptThroughQuiet(s: State, step: Step, id: string, f: Facts)
    requires Inv(s) && Kept(s, id, f) && Enabled(s, step) && Bare(step, id)
    requires !(step.Open? || step.Log? || step.ReportFailure? || step.MarkStale? || step.PublishState?)
    requires !step.ReplaceRows? && !step.WriteSummary? && !step.FinalizeRows?
    ensures Kept(Apply(s, step), id, f)
  {
    assert Apply(s, step).t.snapshots == s.t.snapshots && Published(Apply(s, step).t) == Published(s.t);
  }

  lemma KeptStep(s: State, step: Step, id: string, f: Facts)
    requires Inv(s) && Kept(s, id, f) && Enabled(s, step) && Bare(step, id)
    ensures if step.FinalizeRows? && step.db then Carries(Apply(s, step), id, f) else Kept(Apply(s, step), id, f)
  {
    if step.ReplaceRows? { KeptThroughReplace(s, step.db, id, f); }
    else if step.FinalizeRows? { KeptThroughFinalize(s, step.db, id, f); }
    else if step.WriteSummary? { KeptThroughWrite(s, step.w, step.db, id, f); }
    else if step.Open? || step.Log? || step.ReportFailure? || step.MarkStale? || step.PublishState? {
      KeptThroughRows(s, step, id, f);
    }
    else { KeptThroughQuiet(s, step, id, f); }
  }

  // ---- a summary that is published ----

  /** How many publications a row waits for: one, and one more when a finalize has already gone by. */
  function StillToPass(s: State): nat {
    if s.unpublished then 1 else 0
  }

  lemma PassesOne(s: State, step: Step)
    requires Inv(s) && Enabled(s, step) && !step.Reset? && !(step.FinalizeRows? && step.db)
    ensures Published(Apply(s, step).t) + StillToPass(Apply(s, step)) == Published(s.t) + StillToPass(s)
  {
  }

  lemma {:induction false} KeptIsPublished(s: State, steps: seq<Step>, id: string, f: Facts)
    requires Inv(s) && Kept(s, id, f) && Legal(s, steps) && AllBare(steps, id)
    ensures Published(Run(s, steps).t) > Published(s.t) + StillToPass(s) ==> Carries(Run(s, steps), id, f)
    decreases |steps|
  {
    if steps != [] {
      var s' := Apply(s, steps[0]);
      StepKeeps(s, steps[0]);
      KeptStep(s, steps[0], id, f);
      if steps[0].FinalizeRows? && steps[0].db {
        RunCarries(s', steps[1..], id, f);
      } else {
        PassesOne(s, steps[0]);
        KeptIsPublished(s', steps[1..], id, f);
      }
    }
  }

  predicate OnlyWriter(s: State, w: nat)
    requires w < |s.writers| && s.writers[w].Writing?
  {
    forall v | 0 <= v < |s.writers| && v != w && s.writers[v].Writing? ::
        s.writers[v].summary.id != s.writers[w].summary.id
  }

  /** No row of the snapshot above the writer's generation has facts to give. */
  predicate NothingNewer(s: State, w: nat)
    requires w < |s.writers| && s.writers[w].Writing?
  {
    forall g | g in Sources(s.t.snapshots, s.writers[w].summary.id) :: g <= s.writers[w].generation
  }

  predicate Finalizing(s: State) {
    s.sync.At? && s.sync.phase.Finalize?
  }

  lemma WrittenIsNewest(s: State, w: nat)
    requires Enabled(s, WriteSummary(w, true)) && NothingNewer(s, w) && Keepable(s.writers[w].summary.facts)
    ensures Newest(Apply(s, WriteSummary(w, true)).t.snapshots, s.writers[w].summary.id, s.writers[w].summary.facts)
  {
    var id, g := s.writers[w].summary.id, s.writers[w].generation;
    var rows, rows' := s.t.snapshots, Apply(s, WriteSummary(w, true)).t.snapshots;
    forall h | h in Sources(rows', id) ensures h <= g {
      assert RowKey(id, h) in rows';
      assert h != g ==> h in Sources(rows, id);
    }
    HighestIsNewest(rows', g, id, s.writers[w].summary.facts);
  }

  /** A keepable summary that is the newest of its snapshot, written at whatever generation, is on the visible row
      after the next publication whose rows were not yet replaced; after the one after that when the finalize has
      already gone by. */
  lemma SummaryReachesPublication(s: State, w: nat, steps: seq<Step>)
    requires Reachable(s) && Enabled(s, WriteSummary(w, true)) && OnlyWriter(s, w)
            && Keepable(s.writers[w].summary.facts)
    requires NothingNewer(s, w) && !Finalizing(s)
    requires s.sync.At? && s.sync.phase.Replace? ==> ListsBare(s.sync.phase.payload, s.writers[w].summary.id)
    requires Legal(Apply(s, WriteSummary(w, true)), steps) && AllBare(steps, s.writers[w].summary.id)
    ensures var id, f, s' :=
            s.writers[w].summary.id, s.writers[w].summary.facts, Run(Apply(s, WriteSummary(w, true)), steps);
            Published(s'.t) > Published(s.t) + StillToPass(s) && !s'.unpublished ==>
              FactsOf(s'.t.snapshots, id, Published(s'.t)) == Some(f)
  {
    ReachableInv(s);
    WriteSummaryKeeps(s, w, true);
    WrittenIsNewest(s, w);
    KeptIsPublished(Apply(s, WriteSummary(w, true)), steps, s.writers[w].summary.id, s.writers[w].summary.facts);
  }

  // ---- a summary that is passed by ----

  /** Tables that agree but for one row. */
  ghost predicate AgreeBut(a: SnapshotRows, b: SnapshotRows, key: RowKey) {
    forall k | k != key :: (k in a <==> k in b) && (k in a ==> a[k] == b[k])
  }

  /** A source that outdoes the row. */
  predicate OutdoneBy(rows: SnapshotRows, key: RowKey, h: nat) {
    h > key.generation && h in Sources(rows, key.id)
  }

  lemma SameFill(a: SnapshotRows, b: SnapshotRows, key: RowKey, h: nat, entry: Entry)
    requires AgreeBut(a, b, key) && OutdoneBy(a, key, h)
    ensures FilledFacts(a, entry) == FilledFacts(b, entry)
  {
    var sa, sb := Sources(a, entry.id), Sources(b, entry.id);
    forall g | RowKey(entry.id, g) != key ensures g in sa <==> g in sb {
      assert g in sa <==> RowKey(entry.id, g) in a && Carriable(a[RowKey(entry.id, g)].facts);
      assert g in sb <==> RowKey(entry.id, g) in b && Carriable(b[RowKey(entry.id, g)].facts);
    }
    if entry.id == key.id {
      assert h in sa && h in sb;
      assert Greatest(sa) == Greatest(sb);
    } else {
      assert sa == sb;
    }
  }

  lemma {:induction false} SameReplacement(a: SnapshotRows, b: SnapshotRows, key: RowKey, h: nat, generation: nat,
      entries: seq<Entry>)
    requires AgreeBut(a, b, key) && OutdoneBy(a, key, h) && h < generation
    ensures AgreeBut(Replaced(a, generation, entries), Replaced(b, generation, entries), key)
    ensures OutdoneBy(Replaced(a, generation, entries), key, h)
    decreases |entries|
  {
    if entries != [] {
      var init, last := entries[..|entries| - 1], entries[|entries| - 1];
      SameReplacement(a, b, key, h, generation, init);
      var ra, rb := Replaced(a, generation, init), Replaced(b, generation, init);
      SameFill(ra, rb, key, h, last);
      OutdoneStays(ra, key, h, generation, last);
    }
  }

  lemma OutdoneStays(rows: SnapshotRows, key: RowKey, h: nat, generation: nat, entry: Entry)
    requires OutdoneBy(rows, key, h) && h != generation
    ensures OutdoneBy(Upserted(rows, generation, entry), key, h)
  {
    assert RowKey(key.id, h) in rows;
    assert Upserted(rows, generation, entry)[RowKey(key.id, h)] == rows[RowKey(key.id, h)];
  }

  /** The same state, but for one row below the next generation and what it adds to the visible ids. */
  ghost predicate Twins(a: State, b: State, key: RowKey) {
    && a == b.(t := b.t.(snapshots := a.t.snapshots), added := a.added)
    && AgreeBut(a.t.snapshots, b.t.snapshots, key) && key.generation <= Published(b.t)
  }

  /** The row will not be used for the next publication: its rows are there already, or there will be none, or a newer
      row is used. */
  ghost predicate PassedBy(s: State, key: RowKey) {
    s.unpublished || Finalizing(s) || !Free(s) || exists h :: OutdoneBy(s.t.snapshots, key, h)
  }

  lemma TwinsReplace(a: State, b: State, key: RowKey, db: bool)
    requires Inv(a) && Inv(b) && Twins(a, b, key) && PassedBy(b, key) && Enabled(b, ReplaceRows(db))
    ensures Twins(Apply(a, ReplaceRows(db)), Apply(b, ReplaceRows(db)), key) && PassedBy(Apply(b, ReplaceRows(db)), key)
  {
    if db && Decodes(b.sync.phase.payload) {
      var entries := Decoded(b.sync.phase.payload.items);
      var h :| OutdoneBy(b.t.snapshots, key, h);
      assert RowKey(key.id, h) in b.t.snapshots && RowKey(key.id, h) in a.t.snapshots;
      assert h != b.sync.generation by {
        assert key.id !in IdsAt(b.t.snapshots, b.sync.generation);
      }
      assert OutdoneBy(a.t.snapshots, key, h);
      SameReplacement(a.t.snapshots, b.t.snapshots, key, h, b.sync.generation, entries);
    }
  }

  lemma TwinsFinalize(a: State, b: State, key: RowKey, db: bool)
    requires Inv(b) && Twins(a, b, key) && Enabled(b, FinalizeRows(db))
    ensures Twins(Apply(a, FinalizeRows(db)), Apply(b, FinalizeRows(db)), key)
            && PassedBy(Apply(b, FinalizeRows(db)), key)
  {
  }

  lemma SummaryAgrees(a: SnapshotRows, b: SnapshotRows, key: RowKey, generation: nat, entry: Entry)
    requires AgreeBut(a, b, key) && entry.id != key.id
    ensures AgreeBut(WithSummary(a, generation, entry), WithSummary(b, generation, entry), key)
  {
  }

  lemma PassedByWrite(s: State, key: RowKey, w: nat, db: bool)
    requires Inv(s) && PassedBy(s, key) && NoWriter(s, key.id) && Enabled(s, WriteSummary(w, db))
    ensures PassedBy(Apply(s, WriteSummary(w, db)), key)
  {
    var s' := Apply(s, WriteSummary(w, db));
    SameSources(s.t.snapshots, s'.t.snapshots, key.id);
    if h :| OutdoneBy(s.t.snapshots, key, h) { assert OutdoneBy(s'.t.snapshots, key, h); }
  }

  lemma TwinsWrite(a: State, b: State, key: RowKey, w: nat, db: bool)
    requires Inv(b) && Twins(a, b, key) && PassedBy(b, key) && NoWriter(b, key.id) && Enabled(b, WriteSummary(w, db))
    ensures Twins(Apply(a, WriteSummary(w, db)), Apply(b, WriteSummary(w, db)), key)
            && PassedBy(Apply(b, WriteSummary(w, db)), key)
  {
    var writer := b.writers[w];
    SummaryAgrees(a.t.snapshots, b.t.snapshots, key, writer.generation, writer.summary);
    PassedByWrite(b, key, w, db);
  }

  lemma PassedByStays(s: State, key: RowKey, step: Step)
    requires Inv(s) && PassedBy(s, key) && Enabled(s, step)
    requires !step.ReplaceRows? && !step.FinalizeRows? && !step.WriteSummary? && !step.PublishState? && !step.Reset?
    ensures PassedBy(Apply(s, step), key)
  {
    assert Apply(s, step).t.snapshots == s.t.snapshots && Apply(s, step).unpublished == s.unpublished;
    if !Free(s) {
      BlockedStays(s, step);
    } else if Finalizing(s) && !Finalizing(Apply(s, step)) {
      assert Published(s.t) + 1 in Apply(s, step).t.configs;
    }
  }

  predicate WritesState(step: Step) {
    step.Open? || step.Log? || step.ReportFailure? || step.MarkStale?
  }

  lemma TwinsState(a: State, b: State, key: RowKey, step: Step)
    requires Twins(a, b, key) && Enabled(b, step) && WritesState(step)
    ensures Enabled(a, step) && Twins(Apply(a, step), Apply(b, step), key)
  {
    assert Apply(a, step).t.snapshots == a.t.snapshots && Apply(b, step).t.snapshots == b.t.snapshots;
  }

  /** Steps that touch no snapshot row do the same to both. */
  lemma TwinsOther(a: State, b: State, key: RowKey, step: Step)
    requires Twins(a, b, key) && Enabled(b, step) && !WritesState(step)
    requires !step.ReplaceRows? && !step.FinalizeRows? && !step.WriteSummary? && !step.PublishState? && !step.Reset?
    ensures Enabled(a, step) && Twins(Apply(a, step), Apply(b, step), key)
  {
    assert Apply(a, step).t.snapshots == a.t.snapshots && Apply(b, step).t.snapshots == b.t.snapshots;
  }

  /** No summary of the snapshot is begun. */
  predicate Silent(steps: seq<Step>, id: string)
    decreases |steps|
  {
    steps == [] || (!steps[0].Reset? && !(steps[0].ReadGeneration? && steps[0].summary.id == id)
        && Silent(steps[1..], id))
  }

  lemma TwinsStep(a: State, b: State, key: RowKey, step: Step)
    requires Inv(a) && Inv(b) && Twins(a, b, key) && PassedBy(b, key) && NoWriter(b, key.id) && Enabled(b, step)
    requires !step.Reset? && Published(Apply(b, step).t) == Published(b.t)
    ensures Enabled(a, step) && Twins(Apply(a, step), Apply(b, step), key) && PassedBy(Apply(b, step), key)
  {
    if step.ReplaceRows? { TwinsReplace(a, b, key, step.db); }
    else if step.FinalizeRows? { TwinsFinalize(a, b, key, step.db); }
    else if step.WriteSummary? { TwinsWrite(a, b, key, step.w, step.db); }
    else if step.PublishState? { TwinsLostPublish(a, b, key, step); }
    else {
      PassedByStays(b, key, step);
      if WritesState(step) { TwinsState(a, b, key, step); } else { TwinsOther(a, b, key, step); }
    }
  }

  lemma TwinsLostPublish(a: State, b: State, key: RowKey, step: Step)
    requires Inv(b) && Twins(a, b, key) && Enabled(b, step) && step.PublishState?
            && Published(Apply(b, step).t) == Published(b.t)
    ensures Twins(Apply(a, step), Apply(b, step), key) && PassedBy(Apply(b, step), key)
  {
    assert !step.db;
  }

  lemma SilentKeepsWriters(s: State, step: Step, id: string)
    requires NoWriter(s, id) && Enabled(s, step) && !(step.ReadGeneration? && step.summary.id == id)
    ensures NoWriter(Apply(s, step), id)
  {
  }

  /** Up to the next publication two runs that differ in a row passed by stay that way. */
  lemma {:induction false} TwinsRun(a: State, b: State, key: RowKey, steps: seq<Step>)
    requires Inv(a) && Inv(b) && Twins(a, b, key) && PassedBy(b, key) && NoWriter(b, key.id)
    requires Legal(b, steps) && Silent(steps, key.id) && Published(Run(b, steps).t) == Published(b.t)
    ensures Legal(a, steps) && Twins(Run(a, steps), Run(b, steps), key)
    decreases |steps|
  {
    if steps != [] {
      var b' := Apply(b, steps[0]);
      StepKeeps(b, steps[0]);
      ProgressStays(b, steps[0]);
      SilentHasNoReset(steps[1..], key.id);
      ProgressNeverLost(b', steps[1..]);
      TwinsStep(a, b, key, steps[0]);
      StepKeeps(a, steps[0]);
      SilentKeepsWriters(b, steps[0], key.id);
      TwinsRun(Apply(a, steps[0]), b', key, steps[1..]);
    }
  }

  lemma {:induction false} SilentHasNoReset(steps: seq<Step>, id: string)
    requires Silent(steps, id)
    ensures NoReset(steps)
    decreases |steps|
  {
    if steps != [] { SilentHasNoReset(steps[1..], id); }
  }

  lemma TwinsPublish(a: State, b: State, key: RowKey, step: Step)
    requires Inv(b) && Twins(a, b, key) && Enabled(b, step) && step.PublishState? && step.db
    ensures RowsAt(Apply(a, step).t.snapshots, Published(b.t) + 1)
            == RowsAt(Apply(b, step).t.snapshots, Published(b.t) + 1)
    ensures Published(Apply(a, step).t) == Published(Apply(b, step).t) == Published(b.t) + 1
  {
    SameRowsAt(a.t.snapshots, b.t.snapshots, Published(b.t) + 1);
  }

  /** Every other summary misses the next publication: whenever a run in which its write failed publishes, the run in
      which it succeeded publishes the very same rows. */
  lemma SummaryMissesPublication(s: State, w: nat, steps: seq<Step>, now: int, logID: Option<int>)
    requires Reachable(s) && Enabled(s, WriteSummary(w, true)) && OnlyWriter(s, w)
    requires !NothingNewer(s, w) || Finalizing(s) || s.unpublished
    requires Legal(Apply(s, WriteSummary(w, false)), steps) && Silent(steps, s.writers[w].summary.id)
    requires Published(Run(Apply(s, WriteSummary(w, false)), steps).t) == Published(s.t)
    requires Enabled(Run(Apply(s, WriteSummary(w, false)), steps), PublishState(now, logID, true))
    ensures var publish := PublishState(now, logID, true);
            var without, written := Apply(s, WriteSummary(w, false)), Apply(s, WriteSummary(w, true));
            Legal(written, steps) && Enabled(Run(written, steps), publish)
            && var a, b := Apply(Run(written, steps), publish), Apply(Run(without, steps), publish);
               Published(a.t) == Published(b.t) == Published(s.t) + 1
               && RowsAt(a.t.snapshots, Published(a.t)) == RowsAt(b.t.snapshots, Published(b.t))
  {
    ReachableInv(s);
    WriteSummaryKeeps(s, w, true);
    WriteSummaryKeeps(s, w, false);
    WriteMakesTwins(s, w);
    var a, b := Apply(s, WriteSummary(w, true)), Apply(s, WriteSummary(w, false));
    var key := RowKey(s.writers[w].summary.id, s.writers[w].generation);
    SilentHasNoReset(steps, key.id);
    RunKeeps(b, steps);
    TwinsRun(a, b, key, steps);
    TwinsPublish(Run(a, steps), Run(b, steps), key, PublishState(now, logID, true));
  }

  lemma WriteMakesTwins(s: State, w: nat)
    requires Inv(s) && Enabled(s, WriteSummary(w, true)) && OnlyWriter(s, w)
    requires !NothingNewer(s, w) || Finalizing(s) || s.unpublished
    ensures var a, b := Apply(s, WriteSummary(w, true)), Apply(s, WriteSummary(w, false));
            var key := RowKey(s.writers[w].summary.id, s.writers[w].generation);
            Twins(a, b, key) && PassedBy(b, key) && NoWriter(b, key.id)
  {
    var key := RowKey(s.writers[w].summary.id, s.writers[w].generation);
    if !NothingNewer(s, w) {
      var h :| h in Sources(s.t.snapshots, key.id) && h > key.generation;
      assert OutdoneBy(Apply(s, WriteSummary(w, false)).t.snapshots, key, h);
    }
  }
}
