/** The paged and filtered snapshot list, and the frontend loop that loads all of it. */
module SnapshotPages {
  import opened CacheTables
  import opened Ordering
  import CoreSyncProtocol

  datatype Item = Item(id: string, row: SnapshotRow)

  datatype Page = Page(items: seq<Item>, total: nat, page: int, pageSize: int)

  predicate IsUpdated(f: Facts) {
    f.filesNew != 0 || f.filesChanged != 0 || f.dirsNew != 0 || f.dirsChanged != 0 || f.dataAdded != 0
        || f.dataAddedPacked != 0
  }

  predicate IsKnown(f: Facts) {
    || f.summary != "{}" || f.backupStart != "" || f.backupEnd != "" || f.filesNew != 0 || f.filesChanged != 0
    || f.filesUnmodified != 0 || f.dirsNew != 0 || f.dirsChanged != 0 || f.dirsUnmodified != 0 || f.dataAdded != 0
    || f.dataAddedPacked != 0 || f.totalFiles != 0 || f.totalBytes != 0
  }

  /** The update filter of a request: its three words, or `Any` for every other text. */
  datatype Filter = Any | Updated | Unchanged | Unknown

  /** `snapshotUpdateFilterSQL` */
  predicate Matches(filter: Filter, f: Facts) {
    match filter
    case Updated => IsUpdated(f)
    case Unchanged => IsKnown(f) && !IsUpdated(f)
    case Unknown => !IsKnown(f)
    case Any => true
  }

  /** `ORDER BY time DESC, snapshot_id DESC` */
  predicate Before(a: Item, b: Item) {
    LexLess(b.row.time, a.row.time) || (a.row.time == b.row.time && LexLess(b.id, a.id))
  }

  function Matching(rows: SnapshotRows, generation: nat, filter: Filter): set<Item> {
    set k | k in rows && k.generation == generation && Matches(filter, rows[k].facts) :: Item(k.id, rows[k])
  }

  lemma BeforeStrict(rows: SnapshotRows, generation: nat, filter: Filter)
    ensures StrictOn(Before, Matching(rows, generation, filter))
  {
    var s := Matching(rows, generation, filter);
    forall a, b | a in s && b in s ensures (a == b || Before(a, b) || Before(b, a)) && !Before(a, a) {
      LexIrreflexive(a.id);
      LexIrreflexive(a.row.time);
      LexTrichotomy(a.row.time, b.row.time);
      LexTrichotomy(a.id, b.id);
      assert a.row == rows[RowKey(a.id, generation)] && b.row == rows[RowKey(b.id, generation)];
    }
    forall a: Item, b: Item, c: Item | Before(a, b) && Before(b, c) ensures Before(a, c) {
      if LexLess(b.row.time, a.row.time) && LexLess(c.row.time, b.row.time) {
        LexTransitive(c.row.time, b.row.time, a.row.time);
      }
      if LexLess(b.id, a.id) && LexLess(c.id, b.id) { LexTransitive(c.id, b.id, a.id); }
    }
  }

  /** The whole list of one filter, newest first. */
  ghost function Listed(t: CoreTables, filter: Filter): seq<Item> {
    BeforeStrict(t.snapshots, Published(t), filter);
    Sorted(Before, Matching(t.snapshots, Published(t), filter))
  }

  function Min(a: int, b: int): int {
    if a < b then a else b
  }

  /** `LIMIT size OFFSET offset` */
  function Window(items: seq<Item>, offset: nat, size: nat): seq<Item> {
    items[Min(offset, |items|)..Min(offset + size, |items|)]
  }

  function ClampPage(page: int): (p: int)
    ensures p >= 1
  {
    if page < 1 then 1 else page
  }

  function ClampSize(size: int): (n: int)
    ensures 1 <= n <= 200
  {
    if size <= 0 then 50 else if size > 200 then 200 else size
  }

  function Offset(page: int, pageSize: int): nat {
    (ClampPage(page) - 1) * ClampSize(pageSize)
  }

  /** Before the first publication rows are returned, but not counted. */
  function Cut(all: seq<Item>, published: nat, page: int, pageSize: int): Page {
    var items := Window(all, Offset(page, pageSize), ClampSize(pageSize));
    Page(items, if published > 0 then |all| else 0, ClampPage(page), ClampSize(pageSize))
  }

  ghost function PageOf(t: CoreTables, page: int, pageSize: int, filter: Filter): Page {
    Cut(Listed(t, filter), Published(t), page, pageSize)
  }

  method ListSnapshotIndexFiltered(t: CoreTables, page: int, pageSize: int, filter: Filter) returns (result: Page)
    ensures result == PageOf(t, page, pageSize, filter)
  {
    var p, n := page, pageSize;
    if p < 1 {
      p := 1;
    }
    if n <= 0 {
      n := 50;
    }
    if n > 200 {
      n := 200;
    }
    var total := CountRows(t, filter);
    var sorted := SortRows(t, filter);
    assert p == ClampPage(page) && n == ClampSize(pageSize);
    var offset := (p - 1) * n;
    assert offset == Offset(page, pageSize);
    result := Page(Window(sorted, offset, n), total, p, n);
  }

  method CountRows(t: CoreTables, filter: Filter) returns (total: nat)
    ensures total == if Published(t) > 0 then |Listed(t, filter)| else 0
  {
    total := 0;
    if t.sync.Some? && t.sync.value.generation > 0 {
      total := |Matching(t.snapshots, t.sync.value.generation, filter)|;
    }
  }

  method SortRows(t: CoreTables, filter: Filter) returns (sorted: seq<Item>)
    ensures sorted == Listed(t, filter)
  {
    BeforeStrict(t.snapshots, Published(t), filter);
    sorted := SortSet(Before, Matching(t.snapshots, Published(t), filter));
  }

  // ---- pages lose nothing ----

  function FirstPages(all: seq<Item>, pageSize: int, k: nat): seq<Item> {
    if k == 0 then [] else FirstPages(all, pageSize, k - 1) + Cut(all, 0, k, pageSize).items
  }

  lemma WindowGrows(items: seq<Item>, offset: nat, size: nat)
    ensures Window(items, 0, offset) + Window(items, offset, size) == Window(items, 0, offset + size)
  {
  }

  lemma NextOffset(k: nat, pageSize: int)
    requires k > 0
    ensures Offset(k + 1, pageSize) == Offset(k, pageSize) + ClampSize(pageSize) == k * ClampSize(pageSize)
  {
  }

  /** The pages in order are the list cut into pieces, whatever page size is asked for. */
  lemma {:induction false} PagesConcatenate(all: seq<Item>, pageSize: int, k: nat)
    ensures FirstPages(all, pageSize, k) == Window(all, 0, Offset(k + 1, pageSize))
    decreases k
  {
    if k > 0 {
      PagesConcatenate(all, pageSize, k - 1);
      WindowGrows(all, Offset(k, pageSize), ClampSize(pageSize));
      NextOffset(k, pageSize);
    }
  }

  /** Enough pages give every matching row once, strictly ordered. */
  lemma AllPagesAreTheList(t: CoreTables, pageSize: int, filter: Filter, k: nat)
    requires Published(t) > 0 && k > 0 && k * ClampSize(pageSize) >= PageOf(t, 1, pageSize, filter).total
    ensures FirstPages(Listed(t, filter), pageSize, k) == Listed(t, filter) && Ascending(Before, Listed(t, filter))
    ensures Elements(Listed(t, filter)) == Matching(t.snapshots, Published(t), filter)
  {
    PagesConcatenate(Listed(t, filter), pageSize, k);
    NextOffset(k, pageSize);
    BeforeStrict(t.snapshots, Published(t), filter);
  }

  /** The total counts the list exactly once a list was published, or when there is nothing to count. */
  lemma TotalExactly(t: CoreTables, page: int, pageSize: int, filter: Filter)
    ensures PageOf(t, page, pageSize, filter).total == |Listed(t, filter)|
            <==> Published(t) > 0 || Listed(t, filter) == []
  {
  }

  /** A backup before the first core sync leaves a row that is listed and not counted. */
  lemma UncountedExample(entry: Entry) returns (s: CoreSyncProtocol.State)
    ensures CoreSyncProtocol.Reachable(s) && Published(s.t) == 0
    ensures |PageOf(s.t, 1, 50, Any).items| == 1 && PageOf(s.t, 1, 50, Any).total == 0
  {
    var read, write := CoreSyncProtocol.ReadGeneration(entry), CoreSyncProtocol.WriteSummary(0, true);
    CoreSyncProtocol.TwoSteps(CoreSyncProtocol.INITIAL, read, write);
    s := CoreSyncProtocol.Run(CoreSyncProtocol.INITIAL, [read, write]);
    var row := SnapshotRow(entry.time, entry.details, entry.facts);
    assert s.t.snapshots == map[RowKey(entry.id, 0) := row];
    assert Matching(s.t.snapshots, 0, Any) == {Item(entry.id, row)};
    ListedElements(s.t, Any);
  }

  // ---- pages of a list that changes between them ----

  /** A snapshot that appears between two pages repeats the last row of the page before. */
  lemma NewSnapshotRepeatsRow(all: seq<Item>, newest: Item, pageSize: int, k: nat)
    requires k > 0 && k * ClampSize(pageSize) <= |all|
    ensures var page, next := Cut(all, 0, k, pageSize).items, Cut([newest] + all, 0, k + 1, pageSize).items;
            |page| == ClampSize(pageSize) && next != [] && next[0] == page[|page| - 1]
  {
    NextOffset(k, pageSize);
  }

  function Without(all: seq<Item>, gone: nat): seq<Item>
    requires gone < |all|
  {
    all[..gone] + all[gone + 1..]
  }

  /** A snapshot that goes between two pages hides the row that the next page would have started with. */
  lemma ForgottenSnapshotSkipsRow(all: seq<Item>, gone: nat, pageSize: int, k: nat)
    requires k > 0 && gone < k * ClampSize(pageSize) < |all|
    ensures FirstPages(all, pageSize, k) + Cut(Without(all, gone), 0, k + 1, pageSize).items
            == all[..k * ClampSize(pageSize)] + Window(all, k * ClampSize(pageSize) + 1, ClampSize(pageSize))
  {
    var n := k * ClampSize(pageSize);
    FirstPagesAre(all, pageSize, k, n);
    WindowAfterRemoval(all, gone, n, ClampSize(pageSize));
    NextOffset(k, pageSize);
    assert Cut(Without(all, gone), 0, k + 1, pageSize).items == Window(Without(all, gone), n, ClampSize(pageSize));
  }

  lemma FirstPagesAre(all: seq<Item>, pageSize: int, k: nat, n: nat)
    requires k > 0 && n == k * ClampSize(pageSize)
    ensures FirstPages(all, pageSize, k) == Window(all, 0, n)
  {
    PagesConcatenate(all, pageSize, k);
    NextOffset(k, pageSize);
  }

  lemma WindowAfterRemoval(all: seq<Item>, gone: nat, offset: nat, size: nat)
    requires gone < offset < |all|
    ensures Window(Without(all, gone), offset, size) == Window(all, offset + 1, size)
  {
    assert Without(all, gone)[offset..] == all[offset + 1..];
  }

  /** The pages from the one after `k` to the one numbered `m`. */
  function LaterPages(all: seq<Item>, pageSize: int, k: nat, m: nat): seq<Item>
    requires k <= m
    decreases m
  {
    if k == m then [] else LaterPages(all, pageSize, k, m - 1) + Cut(all, 0, m, pageSize).items
  }

  lemma WindowJoins(items: seq<Item>, offset: nat, a: nat, b: nat)
    ensures Window(items, offset, a) + Window(items, offset + a, b) == Window(items, offset, a + b)
  {
  }

  /** How many rows so many pages hold. */
  function Span(pages: nat, pageSize: int): nat {
    if pages == 0 then 0 else Span(pages - 1, pageSize) + ClampSize(pageSize)
  }

  lemma {:induction false} SpanIsOffset(k: nat, pageSize: int)
    ensures Span(k, pageSize) == k * ClampSize(pageSize) == Offset(k + 1, pageSize)
    decreases k
  {
    if k > 0 {
      SpanIsOffset(k - 1, pageSize);
      assert (k - 1) * ClampSize(pageSize) + ClampSize(pageSize) == k * ClampSize(pageSize);
    }
  }

  lemma {:induction false} SpanAdds(a: nat, b: nat, pageSize: int)
    ensures Span(a, pageSize) + Span(b, pageSize) == Span(a + b, pageSize)
    decreases b
  {
    if b > 0 { SpanAdds(a, b - 1, pageSize); }
  }

  lemma PageIsWindow(all: seq<Item>, pageSize: int, k: nat)
    requires k > 0
    ensures Cut(all, 0, k, pageSize).items == Window(all, Span(k - 1, pageSize), ClampSize(pageSize))
  {
    SpanIsOffset(k - 1, pageSize);
  }

  lemma LaterPagesStep(all: seq<Item>, pageSize: int, k: nat, m: nat, offset: nat, size: nat)
    requires k < m && LaterPages(all, pageSize, k, m - 1) == Window(all, offset, size)
    requires offset + size == Span(m - 1, pageSize)
    ensures LaterPages(all, pageSize, k, m) == Window(all, offset, size + ClampSize(pageSize))
  {
    PageIsWindow(all, pageSize, m);
    WindowJoins(all, offset, size, ClampSize(pageSize));
  }

  lemma {:induction false} LaterPagesConcatenate(all: seq<Item>, pageSize: int, k: nat, m: nat)
    requires k <= m
    ensures LaterPages(all, pageSize, k, m) == Window(all, Span(k, pageSize), Span(m - k, pageSize))
    decreases m
  {
    if k == m {
      assert LaterPages(all, pageSize, k, m) == [] && Span(m - k, pageSize) == 0;
    } else {
      LaterPagesConcatenate(all, pageSize, k, m - 1);
      SpanAdds(k, m - 1 - k, pageSize);
      LaterPagesStep(all, pageSize, k, m, Span(k, pageSize), Span(m - 1 - k, pageSize));
    }
  }

  /** What the load-all loop has when a snapshot goes after page `k` and no later page follows `m`: it reads on only
      when page `k` was not the last. */
  function LoadedAcross(all: seq<Item>, gone: nat, pageSize: int, k: nat, m: nat): seq<Item>
    requires gone < |all| && k <= m
  {
    FirstPages(all, pageSize, k)
    + if Span(k, pageSize) >= |all| then [] else LaterPages(Without(all, gone), pageSize, k, m)
  }

  lemma WindowToEnd(items: seq<Item>, offset: nat, size: nat)
    requires offset <= |items| <= offset + size
    ensures Window(items, offset, size) == items[offset..]
  {
  }

  lemma WindowFromStart(items: seq<Item>, size: nat)
    ensures Window(items, 0, size) == if size >= |items| then items else items[..size]
  {
  }

  /** The list without a row, said in parts: what was read, and what is left to read. */
  lemma LoadedParts(all: seq<Item>, gone: nat, pageSize: int, k: nat, m: nat)
    requires gone < |all| && 0 < k <= m && Span(m, pageSize) >= |all|
    ensures var n := Span(k, pageSize);
            LoadedAcross(all, gone, pageSize, k, m) == if n >= |all| then all else all[..n] + Without(all, gone)[n..]
  {
    var n := Span(k, pageSize);
    SpanIsOffset(k, pageSize);
    FirstPagesAre(all, pageSize, k, n);
    WindowFromStart(all, n);
    if n < |all| {
      LaterPagesConcatenate(Without(all, gone), pageSize, k, m);
      SpanAdds(k, m - k, pageSize);
      WindowToEnd(Without(all, gone), n, Span(m - k, pageSize));
    }
  }

  predicate AllDiffer(all: seq<Item>) {
    forall i, j | 0 <= i < j < |all| :: all[i] != all[j]
  }

  lemma NoneMissing(all: seq<Item>, gone: nat, n: nat)
    requires gone < |all| && !(gone < n < |all|)
    ensures forall i | 0 <= i < |Without(all, gone)| ::
              Without(all, gone)[i] in if n >= |all| then all else all[..n] + Without(all, gone)[n..]
  {
    var left := Without(all, gone);
    if n < |all| {
      assert left[..n] == all[..n];
      assert all[..n] + left[n..] == left;
    }
  }

  lemma OneMissing(all: seq<Item>, gone: nat, n: nat)
    requires AllDiffer(all) && gone < n < |all|
    ensures all[n] in Without(all, gone) && all[n] !in all[..n] + Without(all, gone)[n..]
  {
    var left := Without(all, gone);
    assert left[n - 1] == all[n];
    assert left[n..] == all[n + 1..];
  }

  /** When one snapshot goes after page `k` was read and before the next, every row that stays is still loaded if and
      only if the one that went had not been read yet, or page `k` was the last. */
  lemma LoadedAcrossRemoval(all: seq<Item>, gone: nat, pageSize: int, k: nat, m: nat)
    requires AllDiffer(all) && gone < |all| && 0 < k <= m && Span(m, pageSize) >= |all|
    ensures (forall i | 0 <= i < |Without(all, gone)| ::
               Without(all, gone)[i] in LoadedAcross(all, gone, pageSize, k, m))
            <==> !(gone < Span(k, pageSize) < |all|)
  {
    var n := Span(k, pageSize);
    LoadedParts(all, gone, pageSize, k, m);
    if gone < n < |all| {
      OneMissing(all, gone, n);
    } else {
      NoneMissing(all, gone, n);
    }
  }

  // ---- filters lose nothing ----

  lemma UnionCount(a: set<Item>, b: set<Item>)
    requires a !! b
    ensures |a + b| == |a| + |b|
  {
    assert (a + b) - a == b;
  }

  lemma FiltersSplit(rows: SnapshotRows, g: nat)
    ensures Matching(rows, g, Any)
            == Matching(rows, g, Updated) + Matching(rows, g, Unchanged) + Matching(rows, g, Unknown)
    ensures Matching(rows, g, Updated) !! Matching(rows, g, Unchanged)
    ensures Matching(rows, g, Updated) + Matching(rows, g, Unchanged) !! Matching(rows, g, Unknown)
  {
    forall item
      ensures item in Matching(rows, g, Any) <==> RowKey(item.id, g) in rows && rows[RowKey(item.id, g)] == item.row
      ensures item in Matching(rows, g, Updated) <==> item in Matching(rows, g, Any) && IsUpdated(item.row.facts)
      ensures item in Matching(rows, g, Unchanged)
              <==> item in Matching(rows, g, Any) && IsKnown(item.row.facts) && !IsUpdated(item.row.facts)
      ensures item in Matching(rows, g, Unknown) <==> item in Matching(rows, g, Any) && !IsKnown(item.row.facts) {
    }
  }

  /** The three filters split the unfiltered list into disjoint parts, and their totals add up. */
  lemma FiltersPartition(t: CoreTables)
    ensures Elements(Listed(t, Any))
            == Elements(Listed(t, Updated)) + Elements(Listed(t, Unchanged)) + Elements(Listed(t, Unknown))
    ensures Elements(Listed(t, Updated)) !! Elements(Listed(t, Unchanged))
    ensures Elements(Listed(t, Updated)) + Elements(Listed(t, Unchanged)) !! Elements(Listed(t, Unknown))
    ensures PageOf(t, 1, 1, Updated).total + PageOf(t, 1, 1, Unchanged).total + PageOf(t, 1, 1, Unknown).total
            == PageOf(t, 1, 1, Any).total
  {
    var rows, g := t.snapshots, Published(t);
    FiltersSplit(rows, g);
    UnionCount(Matching(rows, g, Updated), Matching(rows, g, Unchanged));
    UnionCount(Matching(rows, g, Updated) + Matching(rows, g, Unchanged), Matching(rows, g, Unknown));
    ListedElements(t, Any);
    ListedElements(t, Updated);
    ListedElements(t, Unchanged);
    ListedElements(t, Unknown);
  }

  lemma ListedElements(t: CoreTables, filter: Filter)
    ensures Elements(Listed(t, filter)) == Matching(t.snapshots, Published(t), filter)
    ensures |Listed(t, filter)| == |Matching(t.snapshots, Published(t), filter)|
  {
    BeforeStrict(t.snapshots, Published(t), filter);
  }

  // ---- loading everything ----

  datatype RepoItem = RepoItem(repo: int, item: Item)

  function Tagged(repo: int, items: seq<Item>): seq<RepoItem> {
    seq(|items|, i requires 0 <= i < |items| => RepoItem(repo, items[i]))
  }

  /** What the loop collects of one repository: all of it once it has been published, one page before that. */
  ghost function Collected(t: CoreTables, filter: Filter): seq<Item> {
    if Published(t) > 0 then Listed(t, filter) else Window(Listed(t, filter), 0, 200)
  }

  ghost function CollectedAll(repos: seq<(int, CoreTables)>, filter: Filter): seq<RepoItem>
    decreases |repos|
  {
    if repos == [] then []
    else
      var (repo, t) := repos[|repos| - 1];
      CollectedAll(repos[..|repos| - 1], filter) + Tagged(repo, Collected(t, filter))
  }

  lemma CollectedGrows(repos: seq<(int, CoreTables)>, i: nat, filter: Filter)
    requires i < |repos|
    ensures CollectedAll(repos[..i + 1], filter)
            == CollectedAll(repos[..i], filter) + Tagged(repos[i].0, Collected(repos[i].1, filter))
  {
    assert repos[..i + 1][..i] == repos[..i];
  }

  method LoadAllSnapshots(repos: seq<(int, CoreTables)>, filter: Filter) returns (all: seq<RepoItem>)
    ensures all == CollectedAll(repos, filter)
  {
    all := [];
    var i := 0;
    while i < |repos|
      invariant 0 <= i <= |repos|
      invariant all == CollectedAll(repos[..i], filter)
    {
      var items := LoadRepository(repos[i].1, filter);
      CollectedGrows(repos, i, filter);
      all := all + Tagged(repos[i].0, items);
      i := i + 1;
    }
    assert repos[..i] == repos;
  }

  method LoadRepository(t: CoreTables, filter: Filter) returns (items: seq<Item>)
    ensures items == Collected(t, filter)
  {
    ghost var all := Listed(t, filter);
    items := [];
    var page := 1;
    while true
      invariant page >= 1 && items == FirstPages(all, 200, page - 1)
      invariant page > 1 ==> Published(t) > 0 && (page - 1) * 200 < |all|
      decreases |all| - (page - 1) * 200
    {
      var payload := ListSnapshotIndexFiltered(t, page, 200, filter);
      items := items + payload.items;
      PagesConcatenate(all, 200, page);
      if page * payload.pageSize >= payload.total || |payload.items| == 0 {
        return;
      }
      page := page + 1;
    }
  }

  // ---- what the filters, the order and the clamps mean ----

  /** Updated: something new or changed, or data added. Unchanged: none of it, though there are other facts. Unknown:
      the row as it is stored without any, apart from its blob counts. */
  lemma FilterMeanings(f: Facts)
    ensures Matches(Unknown, f) <==>
              f == Facts("{}", "", "", 0, 0, 0, 0, 0, 0, f.dataBlobs, f.treeBlobs, 0, 0, 0, 0)
    ensures Matches(Updated, f) <==>
              f != f.(filesNew := 0, filesChanged := 0, dirsNew := 0, dirsChanged := 0, dataAdded := 0,
                      dataAddedPacked := 0)
    ensures Matches(Unchanged, f) <==> !Matches(Updated, f) && !Matches(Unknown, f)
    ensures Matches(Any, f)
  {
  }

  /** The list runs from the newest snapshot to the oldest, equal times by id downwards. */
  lemma NewestFirst(t: CoreTables, filter: Filter, i: nat, j: nat)
    requires i < j < |Listed(t, filter)|
    ensures var a, b := Listed(t, filter)[i], Listed(t, filter)[j];
            LexLess(b.row.time, a.row.time) || (a.row.time == b.row.time && LexLess(b.id, a.id))
  {
    BeforeStrict(t.snapshots, Published(t), filter);
    assert Before(Listed(t, filter)[i], Listed(t, filter)[j]);
  }

  lemma WindowRows(items: seq<Item>, offset: nat, size: nat)
    ensures |Window(items, offset, size)| <= size
    ensures forall k | 0 <= k < |Window(items, offset, size)| ::
              offset + k < |items| && Window(items, offset, size)[k] == items[offset + k]
    ensures |Window(items, offset, size)| < size ==> offset + |Window(items, offset, size)| >= |items|
  {
  }

  /** A page is numbered from 1 and holds 50 rows unless told otherwise, 200 at most. */
  lemma PageByNumbers(t: CoreTables, page: int, pageSize: int, filter: Filter)
    ensures var p := PageOf(t, page, pageSize, filter);
            && p.page == (if page < 1 then 1 else page)
            && p.pageSize == (if pageSize <= 0 then 50 else if pageSize > 200 then 200 else pageSize)
            && p.items == Window(Listed(t, filter), (p.page - 1) * p.pageSize, p.pageSize)
  {
  }

  /** Its rows are those of the list from its offset on, as many as there are up to its size. */
  lemma PageRows(t: CoreTables, page: int, pageSize: int, filter: Filter, offset: nat)
    requires var p := PageOf(t, page, pageSize, filter); offset == (p.page - 1) * p.pageSize
    ensures var all, p := Listed(t, filter), PageOf(t, page, pageSize, filter);
            && |p.items| <= p.pageSize && (|p.items| < p.pageSize ==> offset + |p.items| >= |all|)
            && forall k | 0 <= k < |p.items| :: offset + k < |all| && p.items[k] == all[offset + k]
  {
    PageByNumbers(t, page, pageSize, filter);
    WindowRows(Listed(t, filter), offset, PageOf(t, page, pageSize, filter).pageSize);
  }
}
