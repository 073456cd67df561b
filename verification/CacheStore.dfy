/** The store methods of `RepoCacheService` on the tables of one repository; the database can fail at every call. */
module CacheStore {
  import opened Wrappers
  import opened CacheTables
  import opened FileTables
  import SnapshotPath

  const INDEX_BATCH_SIZE := 1000

  /** Which calls of a transaction succeed; the calls made for one element carry its position. */
  datatype Database = Database(begin: bool, prepare: bool, query: nat -> bool, exec: nat -> bool, commit: bool)

  /** The calls `replaceSnapshots` makes for the elements before `n`. */
  predicate StoresAll(db: Database, items: seq<Option<Entry>>, n: nat)
    requires n <= |items|
  {
    forall i | 0 <= i < n :: items[i].Some? && (items[i].value.facts == NO_FACTS ==> db.query(i)) && db.exec(i)
  }

  /** The calls `storeSnapshotFiles` makes for the elements before `n`: only children are inserted. */
  predicate InsertsAll(db: Database, parent: string, items: seq<Option<Node>>, n: nat)
    requires n <= |items|
  {
    forall i | 0 <= i < n :: items[i].Some? && (IsChild(parent, items[i].value) ==> db.exec(i))
  }

  /** The rows after the elements before `n`. */
  function ReplacedUpTo(rows: SnapshotRows, generation: nat, items: seq<Option<Entry>>, n: nat): SnapshotRows
    requires n <= |items| && forall i | 0 <= i < n :: items[i].Some?
  {
    if n == 0 then rows else Upserted(ReplacedUpTo(rows, generation, items, n - 1), generation, items[n - 1].value)
  }

  /** The snapshot transaction after the elements before `n`. */
  ghost predicate Written(rows: SnapshotRows, generation: nat, items: seq<Option<Entry>>, db: Database, n: nat,
                          tx: SnapshotRows)
    requires n <= |items|
  {
    StoresAll(db, items, n) && tx == ReplacedUpTo(rows, generation, items, n)
  }

  lemma {:induction false} ReplacedUpToIs(rows: SnapshotRows, generation: nat, items: seq<Option<Entry>>, n: nat)
    requires AllDecode(items) && n <= |items|
    ensures ReplacedUpTo(rows, generation, items, n) == Replaced(rows, generation, Decoded(items)[..n])
  {
    if n > 0 {
      ReplacedUpToIs(rows, generation, items, n - 1);
      assert Decoded(items)[..n][..n - 1] == Decoded(items)[..n - 1];
    }
  }

  /** The file transaction after the elements before `n`. */
  ghost predicate Inserted(rows: FileRows, snapshot: string, parent: string, generation: nat, items: seq<Option<Node>>,
                           db: Database, n: nat, count: nat, tx: FileRows)
    requires n <= |items|
  {
    && InsertsAll(db, parent, items, n) && Distinct(parent, Decoded(items[..n]))
    && tx == WithDirectory(rows, snapshot, parent, generation, Children(parent, Decoded(items[..n])))
    && count == |Children(parent, Decoded(items[..n]))|
  }

  /** No transaction with these elements commits. */
  ghost predicate Refused(parent: string, items: seq<Option<Node>>, db: Database, n: nat)
    requires n <= |items|
  {
    !(InsertsAll(db, parent, items, n) && Distinct(parent, Decoded(items[..n])))
  }

  lemma DecodedInit<T>(items: seq<Option<T>>, n: nat)
    requires n < |items| && forall i | 0 <= i <= n :: items[i].Some?
    ensures Decoded(items[..n + 1])[..n] == Decoded(items[..n]) && Decoded(items[..n + 1])[n] == items[n].value
  {
  }

  lemma FinalizedIds(rows: SnapshotRows, generation: nat)
    ensures IdsAt(map k | k in rows && k.generation == generation :: rows[k], generation) == IdsAt(rows, generation)
  {
  }

  /** The primary key of a child is taken exactly when a child before it has its path. */
  lemma KeyTaken(rows: FileRows, snapshot: string, parent: string, generation: nat, children: map<string, FileRow>,
      path: string)
    requires RowsOk(rows) && SnapshotPath.Parent(path) == parent
    ensures FileKey(snapshot, generation, path) in WithDirectory(rows, snapshot, parent, generation, children)
            <==> path in children
  {
  }

  lemma DirectoryGrows(rows: FileRows, snapshot: string, parent: string, generation: nat,
                       children: map<string, FileRow>, path: string, row: FileRow)
    ensures WithDirectory(rows, snapshot, parent, generation, children)[FileKey(snapshot, generation, path) := row]
            == WithDirectory(rows, snapshot, parent, generation, children[path := row])
  {
  }

  lemma InsertedSkip(rows: FileRows, snapshot: string, parent: string, generation: nat, items: seq<Option<Node>>,
                     db: Database, n: nat, count: nat, tx: FileRows)
    requires n < |items| && Inserted(rows, snapshot, parent, generation, items, db, n, count, tx)
    requires items[n].Some? && !IsChild(parent, items[n].value)
    ensures Inserted(rows, snapshot, parent, generation, items, db, n + 1, count, tx)
  {
    DecodedInit(items, n);
  }

  lemma InsertedConflict(rows: FileRows, snapshot: string, parent: string, generation: nat, items: seq<Option<Node>>,
                         db: Database, n: nat, count: nat, tx: FileRows)
    requires RowsOk(rows) && n < |items| && Inserted(rows, snapshot, parent, generation, items, db, n, count, tx)
    requires items[n].Some? && IsChild(parent, items[n].value)
    ensures FileKey(snapshot, generation, SnapshotPath.Normalize(items[n].value.path)) in tx
            <==> !Distinct(parent, Decoded(items[..n + 1]))
  {
    DecodedInit(items, n);
    KeyTaken(rows, snapshot, parent, generation, Children(parent, Decoded(items[..n])),
             SnapshotPath.Normalize(items[n].value.path));
  }

  lemma InsertedChild(rows: FileRows, snapshot: string, parent: string, generation: nat, items: seq<Option<Node>>,
                      db: Database, n: nat, count: nat, tx: FileRows)
    requires RowsOk(rows) && n < |items| && Inserted(rows, snapshot, parent, generation, items, db, n, count, tx)
    requires items[n].Some? && IsChild(parent, items[n].value) && db.exec(n)
    requires FileKey(snapshot, generation, SnapshotPath.Normalize(items[n].value.path)) !in tx
    ensures Inserted(rows, snapshot, parent, generation, items, db, n + 1, count + 1,
                     tx[FileKey(snapshot, generation, SnapshotPath.Normalize(items[n].value.path)) :=
                         ChildRow(parent, items[n].value)])
  {
    InsertedConflict(rows, snapshot, parent, generation, items, db, n, count, tx);
    DecodedInit(items, n);
    DirectoryGrows(rows, snapshot, parent, generation, Children(parent, Decoded(items[..n])),
                   SnapshotPath.Normalize(items[n].value.path), ChildRow(parent, items[n].value));
  }

  lemma {:induction false} RepeatStays(parent: string, items: seq<Option<Node>>, n: nat, m: nat)
    requires n <= m <= |items| && forall i | 0 <= i < m :: items[i].Some?
    requires !Distinct(parent, Decoded(items[..n]))
    ensures !Distinct(parent, Decoded(items[..m]))
    decreases m - n
  {
    if n < m {
      DecodedInit(items, n);
      RepeatStays(parent, items, n + 1, m);
    }
  }

  lemma RefusedStays(parent: string, items: seq<Option<Node>>, db: Database, n: nat, m: nat)
    requires n <= m <= |items| && Refused(parent, items, db, n)
    ensures Refused(parent, items, db, m)
  {
    if InsertsAll(db, parent, items, m) { RepeatStays(parent, items, n, m); }
  }

  class RepoCache {
    var core: CoreTables
    var files: FilesState

    constructor ()
      ensures core == CoreTables(None, map[], map[]) && files == FilesState(map[], map[])
    {
      core, files := CoreTables(None, map[], map[]), FilesState(map[], map[]);
    }

    method SetSyncState(written: SyncRow, db: bool) returns (ok: bool)
      modifies this`core
      ensures ok == db
      ensures core == if ok then old(core).(sync := Some(SyncWritten(old(core).sync, written))) else old(core)
    {
      if !db {
        return false;
      }
      var logID := if written.logID.Some? && written.logID.value <= 0 then None else written.logID;
      var row := written.(logID := logID);
      if core.sync.Some? {
        var existing := core.sync.value;
        if row.generation == 0 {
          row := row.(generation := existing.generation);
        }
        if row.lastSuccess.None? {
          row := row.(lastSuccess := existing.lastSuccess);
        }
        if row.logID.None? {
          row := row.(logID := existing.logID);
        }
      }
      core := core.(sync := Some(row));
      ok := true;
    }

    /** A plain INSERT: a second row at one generation is a conflict. */
    method StoreResticConfig(generation: nat, payload: Option<Config>, db: bool) returns (ok: bool)
      modifies this`core
      ensures ok <==> payload.Some? && db && generation !in old(core).configs
      ensures core == if ok then old(core).(configs := old(core).configs[generation := payload.value]) else old(core)
    {
      if payload.None? || !db || generation in core.configs {
        return false;
      }
      core := core.(configs := core.configs[generation := payload.value]);
      ok := true;
    }

    /** The whole payload or nothing: batches are written inside one transaction. */
    method ReplaceSnapshots(generation: nat, payload: Payload<Entry>, db: Database) returns (ok: bool)
      modifies this`core
      ensures ok <==> payload.opens && payload.closes && db.begin && db.prepare && db.commit
                      && StoresAll(db, payload.items, |payload.items|)
      ensures !ok ==> core == old(core)
      ensures ok ==> core == old(core).(snapshots := Replaced(old(core).snapshots, generation, Decoded(payload.items)))
    {
      if !db.begin || !db.prepare || !payload.opens {
        return false;
      }
      var tx := core.snapshots;
      var stored: bool;
      stored, tx := WriteBatches(tx, generation, payload.items, db);
      if !stored || !payload.closes || !db.commit {
        return false;
      }
      ReplacedUpToIs(core.snapshots, generation, payload.items, |payload.items|);
      assert Decoded(payload.items)[..|payload.items|] == Decoded(payload.items);
      core := core.(snapshots := tx);
      ok := true;
    }

    method WriteBatches(rows: SnapshotRows, generation: nat, items: seq<Option<Entry>>, db: Database)
      returns (ok: bool, tx: SnapshotRows)
      ensures ok <==> StoresAll(db, items, |items|)
      ensures ok ==> Written(rows, generation, items, db, |items|, tx)
    {
      tx := rows;
      var start, i := 0, 0;
      while i < |items|
        invariant 0 <= start <= i <= |items| && i - start < INDEX_BATCH_SIZE
        invariant Written(rows, generation, items, db, start, tx)
      {
        i := i + 1;
        if i - start == INDEX_BATCH_SIZE {
          var flushed: bool;
          flushed, tx := Flush(rows, tx, generation, items, start, i, db);
          if !flushed {
            return false, tx;
          }
          start := i;
        }
      }
      ok := true;
      if start < |items| {
        ok, tx := Flush(rows, tx, generation, items, start, |items|, db);
      }
    }

    /** Writes the batch `items[start..end]` into the open transaction. */
    method Flush(ghost rows: SnapshotRows, before: SnapshotRows, generation: nat, items: seq<Option<Entry>>,
                 start: nat, end: nat, db: Database)
      returns (ok: bool, tx: SnapshotRows)
      requires start <= end <= |items| && Written(rows, generation, items, db, start, before)
      ensures if ok then Written(rows, generation, items, db, end, tx) else !StoresAll(db, items, end)
    {
      tx, ok := before, true;
      var i := start;
      while i < end
        invariant i <= end && ok && Written(rows, generation, items, db, i, tx)
      {
        ok, tx := WriteEntry(rows, tx, generation, items, i, end, db);
        if !ok {
          return;
        }
        i := i + 1;
      }
    }

    method WriteEntry(ghost rows: SnapshotRows, before: SnapshotRows, generation: nat, items: seq<Option<Entry>>,
                      i: nat, ghost end: nat, db: Database)
      returns (ok: bool, tx: SnapshotRows)
      requires i < end <= |items| && Written(rows, generation, items, db, i, before)
      ensures !ok ==> !StoresAll(db, items, end)
      ensures ok ==> Written(rows, generation, items, db, i + 1, tx)
    {
      tx, ok := before, false;
      if items[i].None? {
        return;
      }
      var entry := items[i].value;
      if entry.facts == NO_FACTS && !db.query(i) {
        return;
      }
      if !db.exec(i) {
        return;
      }
      tx, ok := Upserted(tx, generation, entry), true;
    }

    method FinalizeCoreGeneration(generation: nat, db: Database) returns (ok: bool)
      modifies this`core, this`files
      ensures ok <==> db.begin && db.commit && forall i | 0 <= i < 4 :: db.exec(i)
      ensures !ok ==> core == old(core) && files == old(files)
      ensures ok ==> core == Finalized(old(core), generation)
                     && files == OnlySnapshots(old(files), IdsAt(old(core).snapshots, generation))
    {
      if !db.begin {
        return false;
      }
      var snapshots, configs, rows, indexes := core.snapshots, core.configs, files.rows, files.indexes;
      if !db.exec(0) {
        return false;
      }
      snapshots := map k | k in snapshots && k.generation == generation :: snapshots[k];
      if !db.exec(1) {
        return false;
      }
      configs := map g | g in configs && g == generation :: configs[g];
      var listed := IdsAt(snapshots, generation);
      if !db.exec(2) {
        return false;
      }
      rows := map k | k in rows && k.snapshot in listed :: rows[k];
      if !db.exec(3) {
        return false;
      }
      indexes := map k | k in indexes && k.snapshot in listed :: indexes[k];
      if !db.commit {
        return false;
      }
      FinalizedIds(core.snapshots, generation);
      core := core.(snapshots := snapshots, configs := configs);
      files := FilesState(rows, indexes);
      ok := true;
    }

    method StoreBackupSummary(summary: Option<Entry>, db: Database) returns (ok: bool)
      modifies this`core
      ensures ok <==> summary.None? || (db.query(0) && db.exec(0))
      ensures core == if ok && summary.Some?
                      then old(core).(snapshots :=
                          WithSummary(old(core).snapshots, Published(old(core)), summary.value))
                      else old(core)
    {
      if summary.None? {
        return true;
      }
      if !db.query(0) {
        return false;
      }
      var generation := if core.sync.Some? then core.sync.value.generation else 0;
      if !db.exec(0) {
        return false;
      }
      var key := RowKey(summary.value.id, generation);
      var row := SnapshotRow(summary.value.time, summary.value.details, summary.value.facts);
      if key in core.snapshots {
        row := core.snapshots[key].(facts := row.facts);
      }
      core := core.(snapshots := core.snapshots[key := row]);
      ok := true;
    }

    method SetFileIndexState(key: IndexKey, written: IndexRow, db: bool) returns (ok: bool)
      modifies this`files
      ensures ok == db
      ensures files == if ok then old(files).(indexes := IndexWritten(old(files).indexes, key, written)) else old(files)
    {
      if !db {
        return false;
      }
      var row := written;
      if key in files.indexes && row.generation == 0 {
        row := row.(generation := files.indexes[key].generation);
      }
      files := files.(indexes := files.indexes[key := row]);
      ok := true;
    }

    /** Afterwards no index row is fresh; no row comes or goes, and what was indexed is still there to be read. */
    method MarkFileIndexesStale(db: bool) returns (ok: bool)
      modifies this`files
      ensures ok == db
      ensures !ok ==> files == old(files)
      ensures ok ==> files.rows == old(files).rows && files.indexes.Keys == old(files).indexes.Keys
      ensures ok ==> forall k | k in files.indexes ::
                var before, after := old(files).indexes[k], files.indexes[k];
                after.stale && after.count == before.count && after.generation == before.generation
                    && after.lastError == before.lastError
                && after.status == if before.status == Running then Running else Stale
    {
      if !db {
        return false;
      }
      files := files.(indexes := map k | k in files.indexes ::
                 var row := files.indexes[k];
                 row.(stale := true, status := if row.status == Running then row.status else Stale));
      ok := true;
    }

    /** One directory, replaced as a whole: a malformed or repeated child or a failing call leaves every row as it
        was. */
    method StoreSnapshotFiles(snapshot: string, path: string, generation: nat, payload: Payload<Node>, db: Database)
      returns (count: Option<nat>)
      requires RowsOk(files.rows)
      modifies this`files
      ensures RowsOk(files.rows) && files.indexes == old(files).indexes
      ensures var parent := SnapshotPath.Normalize(path);
              count.Some? <==>
                && payload.opens && payload.closes && db.begin && db.query(0) && db.query(1) && db.prepare && db.commit
                && InsertsAll(db, parent, payload.items, |payload.items|)
                && Distinct(parent, Decoded(payload.items))
      ensures count.None? ==> files == old(files)
      ensures var parent := SnapshotPath.Normalize(path);
              count.Some? ==>
                var children := Children(parent, Decoded(payload.items));
                files.rows == WithDirectory(old(files).rows, snapshot, parent, generation, children)
                    && count.value == |children|
      ensures var parent := SnapshotPath.Normalize(path);
              count.Some? ==>
                && RowsAreEntries(Listing(files.rows, snapshot, parent, generation), parent, Decoded(payload.items))
                && count.value == |ChildEntries(parent, Decoded(payload.items))|
    {
      var parent := SnapshotPath.Normalize(path);
      if !db.begin || !db.query(0) || !db.query(1) || !db.prepare || !payload.opens {
        return None;
      }
      var tx := ClearDirectory(files.rows, snapshot, parent, generation);
      var inserted: nat;
      var ok: bool;
      ok, inserted, tx := InsertBatches(files.rows, tx, snapshot, parent, generation, payload.items, db);
      assert payload.items[..|payload.items|] == payload.items;
      if !ok || !payload.closes || !db.commit {
        return None;
      }
      StoredListing(files.rows, snapshot, parent, generation, Decoded(payload.items));
      files := files.(rows := tx);
      count := Some(inserted);
    }

    /** The two DELETE statements: the directory's rows of the other generations, then those of this one. */
    method ClearDirectory(rows: FileRows, snapshot: string, parent: string, generation: nat) returns (tx: FileRows)
      ensures tx == WithDirectory(rows, snapshot, parent, generation, map[])
    {
      tx := map k | k in rows
          && !(k.snapshot == snapshot && rows[k].parent == parent && k.generation != generation) :: rows[k];
      tx := map k | k in tx && !(k.snapshot == snapshot && tx[k].parent == parent && k.generation == generation) ::
          tx[k];
    }

    method InsertBatches(ghost rows: FileRows, cleared: FileRows, snapshot: string, parent: string, generation: nat,
                         items: seq<Option<Node>>, db: Database)
      returns (ok: bool, count: nat, tx: FileRows)
      requires RowsOk(rows) && cleared == WithDirectory(rows, snapshot, parent, generation, map[])
      ensures ok ==> Inserted(rows, snapshot, parent, generation, items, db, |items|, count, tx)
      ensures !ok ==> Refused(parent, items, db, |items|)
    {
      tx, count := cleared, 0;
      var start, i := 0, 0;
      while i < |items|
        invariant 0 <= start <= i <= |items| && i - start < INDEX_BATCH_SIZE
        invariant Inserted(rows, snapshot, parent, generation, items, db, start, count, tx)
      {
        i := i + 1;
        if i - start == INDEX_BATCH_SIZE {
          var flushed: bool;
          flushed, count, tx := InsertBatch(rows, tx, snapshot, parent, generation, items, start, i, count, db);
          if !flushed {
            RefusedStays(parent, items, db, i, |items|);
            return false, count, tx;
          }
          start := i;
        }
      }
      ok := true;
      if start < |items| {
        ok, count, tx := InsertBatch(rows, tx, snapshot, parent, generation, items, start, |items|, count, db);
      }
    }

    method InsertBatch(ghost rows: FileRows, before: FileRows, snapshot: string, parent: string, generation: nat,
                       items: seq<Option<Node>>, start: nat, end: nat, inserted: nat, db: Database)
      returns (ok: bool, count: nat, tx: FileRows)
      requires RowsOk(rows) && start <= end <= |items|
      requires Inserted(rows, snapshot, parent, generation, items, db, start, inserted, before)
      ensures ok ==> Inserted(rows, snapshot, parent, generation, items, db, end, count, tx)
      ensures !ok ==> Refused(parent, items, db, end)
    {
      tx, count, ok := before, inserted, true;
      var i := start;
      while i < end
        invariant i <= end && ok && Inserted(rows, snapshot, parent, generation, items, db, i, count, tx)
      {
        ok, count, tx := InsertNode(rows, tx, snapshot, parent, generation, items, i, end, count, db);
        if !ok {
          return;
        }
        i := i + 1;
      }
    }

    method InsertNode(ghost rows: FileRows, before: FileRows, snapshot: string, parent: string, generation: nat,
                      items: seq<Option<Node>>, i: nat, ghost end: nat, inserted: nat, db: Database)
      returns (ok: bool, count: nat, tx: FileRows)
      requires RowsOk(rows) && i < end <= |items|
              && Inserted(rows, snapshot, parent, generation, items, db, i, inserted, before)
      ensures ok ==> Inserted(rows, snapshot, parent, generation, items, db, i + 1, count, tx)
      ensures !ok ==> Refused(parent, items, db, end)
    {
      tx, count, ok := before, inserted, false;
      if items[i].None? {
        return;
      }
      var node := items[i].value;
      var path := SnapshotPath.Normalize(node.path);
      if node.kind == "" || path == "" || path == parent || SnapshotPath.Parent(path) != parent {
        InsertedSkip(rows, snapshot, parent, generation, items, db, i, count, tx);
        ok := true;
        return;
      }
      var name := if node.name == "" then SnapshotPath.Base(path) else node.name;
      var key := FileKey(snapshot, generation, path);
      InsertedConflict(rows, snapshot, parent, generation, items, db, i, count, tx);
      if !db.exec(i) || key in tx {
        RefusedStays(parent, items, db, i + 1, end);
        return;
      }
      InsertedChild(rows, snapshot, parent, generation, items, db, i, count, tx);
      tx := tx[key := FileRow(parent, name, node.kind, node.details)];
      count, ok := count + 1, true;
    }
  }
}
