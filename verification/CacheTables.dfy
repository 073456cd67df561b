/** The index tables of one repository, the statements that change them, and what one core statement changes. */
module CacheTables {
  import opened Wrappers
  import SnapshotPath

  datatype Status = Running | Successful | Failed | Stale | Interrupted

  /** A row of `repository_sync_state`; the generation in it is the published one. */
  datatype SyncRow = SyncRow(
    status: Status, phase: string, progress: int, generation: nat, lastSuccess: Option<int>, lastError: string,
        logID: Option<int>)

  /** Backup summary text and metrics of a snapshot. */
  datatype Facts = Facts(
    summary: string, backupStart: string, backupEnd: string,
    filesNew: int, filesChanged: int, filesUnmodified: int, dirsNew: int, dirsChanged: int, dirsUnmodified: int,
    dataBlobs: int, treeBlobs: int, dataAdded: int, dataAddedPacked: int, totalFiles: int, totalBytes: int)

  /** A decoded snapshot of `restic snapshots --json`; `summary` is "" when the text has none. */
  datatype Entry = Entry(id: string, time: string, details: string, facts: Facts)

  /** A JSON array read element by element: does it start with `[`, its elements (`None` does not decode), does it end
      properly. */
  datatype Payload<T> = Payload(opens: bool, items: seq<Option<T>>, closes: bool)

  predicate AllDecode<T>(items: seq<Option<T>>) {
    forall i | 0 <= i < |items| :: items[i].Some?
  }

  function Decoded<T>(items: seq<Option<T>>): seq<T>
    requires AllDecode(items)
  {
    seq(|items|, i requires 0 <= i < |items| => items[i].value)
  }

  predicate Decodes<T>(payload: Payload<T>) {
    payload.opens && payload.closes && AllDecode(payload.items)
  }

  datatype RowKey = RowKey(id: string, generation: nat)

  datatype SnapshotRow = SnapshotRow(time: string, details: string, facts: Facts)

  type SnapshotRows = map<RowKey, SnapshotRow>

  datatype Config = Config(repositoryID: string, version: int, raw: string)

  /** The tables a core sync writes. */
  datatype CoreTables = CoreTables(sync: Option<SyncRow>, configs: map<nat, Config>, snapshots: SnapshotRows)

  // ---- repository_sync_state ----

  /** `setSyncState`: generation 0 keeps the old one; a success time or log id that is not given keeps the old one. */
  function SyncWritten(row: Option<SyncRow>, written: SyncRow): SyncRow {
    var logID := if written.logID.Some? && written.logID.value > 0 then written.logID else None;
    if row.None? then written.(logID := logID)
    else
      written.(generation := if written.generation == 0 then row.value.generation else written.generation,
               lastSuccess := if written.lastSuccess.None? then row.value.lastSuccess else written.lastSuccess,
               logID := if logID.None? then row.value.logID else logID)
  }

  function Published(t: CoreTables): nat {
    if t.sync.None? then 0 else t.sync.value.generation
  }

  function LastSuccess(t: CoreTables): Option<int> {
    if t.sync.None? then None else t.sync.value.lastSuccess
  }

  /** `markSyncStateStale`, read and write in one step. */
  function MarkedStale(row: Option<SyncRow>, message: string): SyncRow {
    if row.None? then SyncWritten(row, SyncRow(Stale, "", 0, 0, None, message, None))
    else SyncWritten(row, SyncRow(Stale, "", 0, row.value.generation, row.value.lastSuccess, message, row.value.logID))
  }

  // ---- repository_snapshots ----

  const NO_FACTS := Facts("", "", "", 0, 0, 0, 0, 0, 0, 0, 0, 0, 0, 0, 0)

  /** The rows `fillSnapshotSummaryFromDB` accepts as a source. */
  predicate Carriable(f: Facts) {
    f.summary != "{}" || f.totalFiles != 0 || f.totalBytes != 0 || f.dataAdded != 0 || f.dataAddedPacked != 0
  }

  predicate Blank(s: string) {
    SnapshotPath.TrimSpace(s) == ""
  }

  function Sources(rows: SnapshotRows, id: string): set<nat> {
    set k | k in rows && k.id == id && Carriable(rows[k].facts) :: k.generation
  }

  lemma {:induction false} GreatestExists(gens: set<nat>)
    requires gens != {}
    ensures exists g :: g in gens && forall h | h in gens :: h <= g
    decreases |gens|
  {
    var a :| a in gens;
    if gens - {a} == {} {
      assert gens == {a};
    } else {
      GreatestExists(gens - {a});
      var b :| b in gens - {a} && forall h | h in gens - {a} :: h <= b;
      var greatest := if a < b then b else a;
      assert forall h | h in gens :: h == a || h in gens - {a};
      assert greatest in gens && forall h | h in gens :: h <= greatest;
    }
  }

  /** `ORDER BY generation DESC LIMIT 1` */
  function Greatest(gens: set<nat>): (g: nat)
    requires gens != {}
    ensures g in gens && forall h | h in gens :: h <= g
  {
    GreatestExists(gens);
    var g :| g in gens && forall h | h in gens :: h <= g;
    g
  }

  /** An entry that carries no summary of its own takes the one of the latest row that has one. */
  function FilledFacts(rows: SnapshotRows, entry: Entry): Facts {
    var sources := Sources(rows, entry.id);
    if entry.facts != NO_FACTS || sources == {} then entry.facts
    else
      var found := rows[RowKey(entry.id, Greatest(sources))].facts;
      if !Blank(found.summary) && found.summary != "{}" then found else found.(summary := "")
  }

  function StoredFacts(f: Facts): Facts {
    if f.summary == "" then f.(summary := "{}") else f
  }

  function Upserted(rows: SnapshotRows, generation: nat, entry: Entry): SnapshotRows {
    rows[RowKey(entry.id, generation) := SnapshotRow(entry.time, entry.details, StoredFacts(FilledFacts(rows, entry)))]
  }

  function Replaced(rows: SnapshotRows, generation: nat, entries: seq<Entry>): SnapshotRows
    decreases |entries|
  {
    if entries == [] then rows
    else Upserted(Replaced(rows, generation, entries[..|entries| - 1]), generation, entries[|entries| - 1])
  }

  function Ids(entries: seq<Entry>): set<string> {
    set i | 0 <= i < |entries| :: entries[i].id
  }

  /** The ids of the rows at one generation. */
  function IdsAt(rows: SnapshotRows, generation: nat): set<string> {
    set k | k in rows && k.generation == generation :: k.id
  }

  /** What a reader of the snapshot list sees: the rows at the published generation. */
  function Visible(t: CoreTables): set<string> {
    IdsAt(t.snapshots, Published(t))
  }

  function FactsOf(rows: SnapshotRows, id: string, generation: nat): Option<Facts> {
    if RowKey(id, generation) in rows then Some(rows[RowKey(id, generation)].facts) else None
  }

  function Finalized(t: CoreTables, generation: nat): CoreTables {
    t.(snapshots := map k | k in t.snapshots && k.generation == generation :: t.snapshots[k],
       configs := map g | g in t.configs && g == generation :: t.configs[g])
  }

  /** The statement of `StoreBackupSummary`: it keeps the other columns of a row that is there. */
  function WithSummary(rows: SnapshotRows, generation: nat, entry: Entry): SnapshotRows {
    var key := RowKey(entry.id, generation);
    rows[key := if key in rows then rows[key].(facts := entry.facts)
        else SnapshotRow(entry.time, entry.details, entry.facts)]
  }

  // ---- what a stored payload leaves at its generation and elsewhere ----

  lemma {:induction false} ReplacedKeys(rows: SnapshotRows, generation: nat, entries: seq<Entry>)
    ensures IdsAt(Replaced(rows, generation, entries), generation) == IdsAt(rows, generation) + Ids(entries)
    ensures forall k: RowKey | k.generation != generation :: k in Replaced(rows, generation, entries) <==> k in rows
    ensures forall k: RowKey | k.generation != generation && k in rows ::
            Replaced(rows, generation, entries)[k] == rows[k]
    decreases |entries|
  {
    if entries != [] {
      var init, last := entries[..|entries| - 1], entries[|entries| - 1];
      ReplacedKeys(rows, generation, init);
      assert Ids(entries) == Ids(init) + {last.id};
      UpsertedIds(Replaced(rows, generation, init), generation, last);
    }
  }

  lemma UpsertedIds(rows: SnapshotRows, generation: nat, entry: Entry)
    ensures IdsAt(Upserted(rows, generation, entry), generation) == IdsAt(rows, generation) + {entry.id}
  {
    var after := Upserted(rows, generation, entry);
    assert RowKey(entry.id, generation) in after;
    forall id ensures id in IdsAt(after, generation) <==> id in IdsAt(rows, generation) + {entry.id} {
      assert RowKey(id, generation) in after <==> RowKey(id, generation) in rows || id == entry.id;
    }
  }

  /** A row with these facts gives them back to a later entry without a summary. */
  predicate Keepable(f: Facts) {
    Carriable(f) && f.summary != "" && (f.summary == "{}" || !Blank(f.summary))
  }

  lemma UpsertCarries(rows: SnapshotRows, generation: nat, entry: Entry, f: Facts)
    requires entry.facts == NO_FACTS && Sources(rows, entry.id) != {}
    requires FactsOf(rows, entry.id, Greatest(Sources(rows, entry.id))) == Some(f) && Keepable(f)
    ensures FactsOf(Upserted(rows, generation, entry), entry.id, generation) == Some(f)
  {
  }

  /** The latest row of the snapshot that can give facts to a new one, whatever its generation. */
  predicate Newest(rows: SnapshotRows, id: string, f: Facts) {
    Sources(rows, id) != {} && FactsOf(rows, id, Greatest(Sources(rows, id))) == Some(f)
  }

  lemma UpsertNewest(rows: SnapshotRows, generation: nat, entry: Entry, id: string, f: Facts)
    requires Newest(rows, id, f) && Keepable(f) && forall k | k in rows :: k.generation <= generation
    requires entry.id == id ==> entry.facts == NO_FACTS
    ensures Newest(Upserted(rows, generation, entry), id, f)
    ensures entry.id == id ==> FactsOf(Upserted(rows, generation, entry), id, generation) == Some(f)
  {
    var after := Upserted(rows, generation, entry);
    if entry.id == id {
      UpsertCarries(rows, generation, entry, f);
      assert RowKey(id, generation) in after && generation in Sources(after, id);
      assert forall g | g in Sources(after, id) :: RowKey(id, g) in after;
    } else {
      SameSources(rows, after, id);
    }
  }

  lemma SameSources(a: SnapshotRows, b: SnapshotRows, id: string)
    requires forall k: RowKey | k.id == id :: (k in a <==> k in b) && (k in a ==> a[k] == b[k])
    ensures Sources(a, id) == Sources(b, id)
    ensures forall f :: Newest(a, id, f) <==> Newest(b, id, f)
  {
    forall g ensures g in Sources(a, id) <==> g in Sources(b, id) {
      assert g in Sources(a, id) <==> RowKey(id, g) in a && Carriable(a[RowKey(id, g)].facts);
      assert g in Sources(b, id) <==> RowKey(id, g) in b && Carriable(b[RowKey(id, g)].facts);
    }
  }

  /** The facts of the latest row that has any are what every bare entry for the snapshot is filled with. */
  lemma {:induction false} ReplacedCarries(rows: SnapshotRows, generation: nat, entries: seq<Entry>, id: string,
      f: Facts)
    requires FactsOf(rows, id, generation) == None && Newest(rows, id, f) && Keepable(f)
    requires forall k | k in rows :: k.generation <= generation
    requires forall i | 0 <= i < |entries| && entries[i].id == id :: entries[i].facts == NO_FACTS
    ensures FactsOf(Replaced(rows, generation, entries), id, generation) == if id in Ids(entries) then Some(f) else None
    ensures Newest(Replaced(rows, generation, entries), id, f)
    decreases |entries|
  {
    if entries != [] {
      var init, last := entries[..|entries| - 1], entries[|entries| - 1];
      var before := Replaced(rows, generation, init);
      ReplacedCarries(rows, generation, init, id, f);
      ReplacedBelow(rows, generation, init);
      IdsLast(entries);
      UpsertNewest(before, generation, last, id, f);
      assert last.id != id ==>
          FactsOf(Upserted(before, generation, last), id, generation) == FactsOf(before, id, generation);
    }
  }

  lemma IdsLast(entries: seq<Entry>)
    requires entries != []
    ensures Ids(entries) == Ids(entries[..|entries| - 1]) + {entries[|entries| - 1].id}
  {
  }

  lemma ReplacedBelow(rows: SnapshotRows, generation: nat, entries: seq<Entry>)
    requires forall k | k in rows :: k.generation <= generation
    ensures forall k | k in Replaced(rows, generation, entries) :: k.generation <= generation
  {
    ReplacedKeys(rows, generation, entries);
    assert forall k | k in Replaced(rows, generation, entries) :: k.generation == generation || k in rows;
  }

  /** A keepable row of the highest generation that has a row for the snapshot is the latest. */
  lemma HighestIsNewest(rows: SnapshotRows, generation: nat, id: string, f: Facts)
    requires FactsOf(rows, id, generation) == Some(f) && Carriable(f)
    requires forall g | g in Sources(rows, id) :: g <= generation
    ensures Newest(rows, id, f)
  {
    assert RowKey(id, generation) in rows && generation in Sources(rows, id);
  }

  /** One new entry without a summary over a published row: the facts survive exactly when the row is a source and its
      text is not blank, whatever older rows there are. */
  lemma CarriedExactly(rows: SnapshotRows, generation: nat, entry: Entry, f: Facts)
    requires FactsOf(rows, entry.id, generation) == Some(f) && forall k | k in rows && k.id == entry.id ::
            k.generation <= generation
    requires forall k | k in rows && k.id == entry.id && k.generation < generation :: TextOrNone(rows[k].facts.summary)
    requires entry.facts == NO_FACTS && f != StoredFacts(NO_FACTS)
    ensures FactsOf(Upserted(rows, generation + 1, entry), entry.id, generation + 1) == Some(f) <==> Keepable(f)
  {
    var sources := Sources(rows, entry.id);
    assert forall g | g in sources ::
        RowKey(entry.id, g) in rows && g <= generation && Carriable(rows[RowKey(entry.id, g)].facts);
    if Carriable(f) {
      assert RowKey(entry.id, generation) in rows && generation in sources;
      assert Greatest(sources) == generation;
    } else if sources != {} {
      assert Greatest(sources) < generation by {
        assert generation in sources ==> Carriable(f);
      }
    }
  }

  /** JSON text is never blank, and no text is stored as `{}`. */
  predicate TextOrNone(summary: string) {
    summary == "{}" || (summary != "" && !Blank(summary))
  }

  // ---- the statements, said column by column ----

  /** A state write: status, phase, progress and error are the new ones; a generation of 0, a missing time and a log id
      that is not positive leave the columns of the row as they are. */
  lemma WriteKeepsColumns(before: SyncRow, written: SyncRow)
    ensures var after := SyncWritten(Some(before), written);
            && after.status == written.status && after.phase == written.phase
            && after.progress == written.progress && after.lastError == written.lastError
            && (written.generation == 0 ==> after.generation == before.generation)
            && (written.generation > 0 ==> after.generation == written.generation)
            && (written.lastSuccess == None ==> after.lastSuccess == before.lastSuccess)
            && (written.lastSuccess != None ==> after.lastSuccess == written.lastSuccess)
            && (forall id: int ::
                  written.logID == Some(id) ==> after.logID == if id > 0 then Some(id) else before.logID)
            && (written.logID == None ==> after.logID == before.logID)
  {
  }

  /** A stale mark changes no published generation, no success time and no log id. */
  lemma StaleMarkKeepsPublication(row: Option<SyncRow>, message: string)
    ensures var after := MarkedStale(row, message);
            && after.status == Stale && after.phase == "" && after.progress == 0 && after.lastError == message
            && (row.None? ==> after.generation == 0 && after.lastSuccess == None && after.logID == None)
            && (row.Some? ==> after.generation == row.value.generation && after.lastSuccess == row.value.lastSuccess
                              && after.logID == row.value.logID)
  {
  }

  /** A summary changes the facts of the published row and nothing else of it, and no other row. */
  lemma SummaryKeepsColumns(rows: SnapshotRows, generation: nat, entry: Entry)
    ensures var key, after := RowKey(entry.id, generation), WithSummary(rows, generation, entry);
            && after.Keys == rows.Keys + {key} && after[key].facts == entry.facts
            && (key in rows ==> after[key].time == rows[key].time && after[key].details == rows[key].details)
            && (key !in rows ==> after[key].time == entry.time && after[key].details == entry.details)
            && forall k | k in rows && k != key :: after[k] == rows[k]
  {
  }

  /** The row a payload leaves for a snapshot: the time and details of its last entry, and that entry's own facts when
      it has any, no text being stored as `{}`. */
  lemma {:induction false} LastEntryWins(rows: SnapshotRows, generation: nat, entries: seq<Entry>, i: nat)
    requires i < |entries| && forall j | i < j < |entries| :: entries[j].id != entries[i].id
    ensures var key, after := RowKey(entries[i].id, generation), Replaced(rows, generation, entries);
            && key in after && after[key].time == entries[i].time && after[key].details == entries[i].details
            && after[key].facts.summary != ""
            && (entries[i].facts != NO_FACTS ==>
                  if entries[i].facts.summary != "" then after[key].facts == entries[i].facts
                  else after[key].facts == entries[i].facts.(summary := "{}"))
    decreases |entries|
  {
    var init := entries[..|entries| - 1];
    if i < |init| {
      LastEntryWins(rows, generation, init, i);
      assert entries[|init|].id != entries[i].id;
    }
  }

  /** The finalize keeps exactly the rows of its generation, as they are. */
  lemma FinalizeKeepsExactly(t: CoreTables, generation: nat)
    ensures var after := Finalized(t, generation);
            && after.sync == t.sync
            && (forall k :: k in after.snapshots <==> k in t.snapshots && k.generation == generation)
            && (forall k | k in after.snapshots :: after.snapshots[k] == t.snapshots[k])
            && (forall g :: g in after.configs <==> g in t.configs && g == generation)
            && (forall g | g in after.configs :: after.configs[g] == t.configs[g])
  {
  }

  /** Which facts outlive a refresh, said by columns: those with a text, and those without one whose total of files or
      bytes or whose added data is not 0. Counts of new, changed or unmodified files alone are lost. */
  lemma SurvivesExactly(rows: SnapshotRows, generation: nat, entry: Entry, f: Facts)
    requires FactsOf(rows, entry.id, generation) == Some(f) && forall k | k in rows && k.id == entry.id ::
            k.generation <= generation
    requires forall k | k in rows && k.id == entry.id :: TextOrNone(rows[k].facts.summary)
    requires entry.facts == NO_FACTS && f != Facts("{}", "", "", 0, 0, 0, 0, 0, 0, 0, 0, 0, 0, 0, 0)
    ensures FactsOf(Upserted(rows, generation + 1, entry), entry.id, generation + 1) == Some(f)
            <==> f.summary != "{}" || f.totalFiles != 0 || f.totalBytes != 0 || f.dataAdded != 0
                 || f.dataAddedPacked != 0
  {
    CarriedExactly(rows, generation, entry, f);
    assert RowKey(entry.id, generation) in rows && TextOrNone(f.summary);
  }
}
