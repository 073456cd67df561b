/** The file tables of one repository and the statements of the file index. */
module FileTables {
  import opened Wrappers
  import opened CacheTables
  import SnapshotPath

  datatype FileKey = FileKey(snapshot: string, generation: nat, path: string)

  datatype FileRow = FileRow(parent: string, name: string, kind: string, details: string)

  type FileRows = map<FileKey, FileRow>

  /** A decoded line of `restic ls --json`. */
  datatype Node = Node(path: string, name: string, kind: string, details: string)

  datatype IndexKey = IndexKey(snapshot: string, path: string)

  datatype IndexRow = IndexRow(status: Status, count: nat, lastError: string, stale: bool, generation: nat)

  type IndexRows = map<IndexKey, IndexRow>

  datatype FilesState = FilesState(rows: FileRows, indexes: IndexRows)

  // ---- repository_snapshot_files ----

  /** Entries of other directories, of no kind, or of the listed directory itself are skipped. */
  predicate IsChild(parent: string, node: Node) {
    var path := SnapshotPath.Normalize(node.path);
    node.kind != "" && path != "" && path != parent && SnapshotPath.Parent(path) == parent
  }

  function ChildRow(parent: string, node: Node): FileRow {
    FileRow(parent, if node.name == "" then SnapshotPath.Base(SnapshotPath.Normalize(node.path))
        else node.name, node.kind, node.details)
  }

  /** The direct children of a listed directory, by path. */
  function Children(parent: string, nodes: seq<Node>): map<string, FileRow>
    decreases |nodes|
  {
    if nodes == [] then map[]
    else
      var init, last := nodes[..|nodes| - 1], nodes[|nodes| - 1];
      if IsChild(parent, last) then Children(parent, init)[SnapshotPath.Normalize(last.path) := ChildRow(parent, last)]
      else Children(parent, init)
  }

  /** No two children have the same normalized path. */
  predicate Distinct(parent: string, nodes: seq<Node>)
    decreases |nodes|
  {
    nodes == [] ||
    var init, last := nodes[..|nodes| - 1], nodes[|nodes| - 1];
    Distinct(parent, init) && (IsChild(parent, last) ==> SnapshotPath.Normalize(last.path) !in Children(parent, init))
  }

  /** Every row of the other directories, and exactly these children under this one at this generation. */
  function WithDirectory(rows: FileRows, snapshot: string, parent: string, generation: nat,
                         children: map<string, FileRow>): FileRows {
    (map k | k in rows && !(k.snapshot == snapshot && rows[k].parent == parent) :: rows[k])
    + map path | path in children :: FileKey(snapshot, generation, path) := children[path]
  }

  /** The rows a reader of one directory gets. */
  function Listing(rows: FileRows, snapshot: string, parent: string, generation: nat): map<string, FileRow> {
    map k | k in rows && k.snapshot == snapshot && k.generation == generation && rows[k].parent == parent ::
        k.path := rows[k]
  }

  /** Every row stands under the parent of its path. */
  ghost predicate RowsOk(rows: FileRows) {
    forall k | k in rows :: rows[k].parent == SnapshotPath.Parent(k.path)
  }

  // ---- repository_snapshot_file_indexes ----

  function IndexWritten(indexes: IndexRows, key: IndexKey, written: IndexRow): IndexRows {
    indexes[key := if key in indexes && written.generation == 0 then written.(generation := indexes[key].generation)
        else written]
  }

  /** The first statement of `markFilesDomainStale`. */
  function AllStale(indexes: IndexRows): IndexRows {
    map k | k in indexes ::
        indexes[k].(stale := true, status := if indexes[k].status == Running then Running else Stale)
  }

  /** The same rows, each stale, a running one still running; counts, errors and generations stay. */
  predicate OnlyStaler(before: IndexRows, after: IndexRows) {
    && after.Keys == before.Keys
    && forall k | k in before ::
         after[k] == before[k].(stale := true, status := after[k].status)
         && (after[k].status == Running <==> before[k].status == Running)
             && (after[k].status == Running || after[k].status == Stale)
  }

  lemma AllStaleExactly(before: IndexRows, after: IndexRows)
    ensures after == AllStale(before) <==> OnlyStaler(before, after)
  {
    if OnlyStaler(before, after) {
      forall k | k in before ensures after[k] == AllStale(before)[k] {
        assert after[k] == before[k].(stale := true, status := after[k].status);
      }
    }
  }

  /** What `finalizeCoreGeneration` leaves of the file tables. */
  function OnlySnapshots(s: FilesState, listed: set<string>): FilesState {
    FilesState(map k | k in s.rows && k.snapshot in listed :: s.rows[k],
               map k | k in s.indexes && k.snapshot in listed :: s.indexes[k])
  }

  /** A finalize keeps exactly the file rows and index rows of the snapshots that are still listed. */
  lemma DropKeepsExactly(s: FilesState, listed: set<string>)
    ensures var after := OnlySnapshots(s, listed);
            && (forall k :: k in after.rows <==> k in s.rows && k.snapshot in listed)
            && (forall k | k in after.rows :: after.rows[k] == s.rows[k])
            && (forall k :: k in after.indexes <==> k in s.indexes && k.snapshot in listed)
            && (forall k | k in after.indexes :: after.indexes[k] == s.indexes[k])
  {
  }

  /** An index write changes its own row only; a write without a generation keeps the one it was listed at. */
  lemma IndexWriteKeeps(indexes: IndexRows, key: IndexKey, written: IndexRow)
    ensures var after := IndexWritten(indexes, key, written);
            && after.Keys == indexes.Keys + {key} && (forall k | k in indexes && k != key :: after[k] == indexes[k])
            && after[key] == IndexRow(written.status, written.count, written.lastError, written.stale,
                                      after[key].generation)
            && (written.generation > 0 || key !in indexes ==> after[key].generation == written.generation)
            && (written.generation == 0 && key in indexes ==> after[key].generation == indexes[key].generation)
  {
  }

  // ---- storing a directory ----

  lemma {:induction false} ChildrenStandUnder(parent: string, nodes: seq<Node>, path: string)
    requires path in Children(parent, nodes)
    ensures Children(parent, nodes)[path].parent == parent == SnapshotPath.Parent(path) && path != ""
    decreases |nodes|
  {
    var init, last := nodes[..|nodes| - 1], nodes[|nodes| - 1];
    if !(IsChild(parent, last) && path == SnapshotPath.Normalize(last.path)) {
      ChildrenStandUnder(parent, init, path);
    }
  }

  /** The children, said without the order of the payload: the paths are those of the child entries. */
  lemma {:induction false} ChildrenAre(parent: string, nodes: seq<Node>, i: nat)
    requires i < |nodes| && IsChild(parent, nodes[i])
    ensures SnapshotPath.Normalize(nodes[i].path) in Children(parent, nodes)
    ensures Distinct(parent, nodes) ==>
            Children(parent, nodes)[SnapshotPath.Normalize(nodes[i].path)] == ChildRow(parent, nodes[i])
    decreases |nodes|
  {
    if i < |nodes| - 1 { ChildrenAre(parent, nodes[..|nodes| - 1], i); }
  }

  lemma {:induction false} ChildrenOnly(parent: string, nodes: seq<Node>, path: string) returns (i: nat)
    requires path in Children(parent, nodes)
    ensures i < |nodes| && IsChild(parent, nodes[i]) && SnapshotPath.Normalize(nodes[i].path) == path
    decreases |nodes|
  {
    var last := nodes[|nodes| - 1];
    if IsChild(parent, last) && path == SnapshotPath.Normalize(last.path) {
      i := |nodes| - 1;
    } else {
      i := ChildrenOnly(parent, nodes[..|nodes| - 1], path);
    }
  }

  predicate NoRepeat(parent: string, nodes: seq<Node>) {
    forall i, j | 0 <= i < j < |nodes| && IsChild(parent, nodes[i]) && IsChild(parent, nodes[j]) ::
      SnapshotPath.Normalize(nodes[i].path) != SnapshotPath.Normalize(nodes[j].path)
  }

  lemma NoRepeatAppend(parent: string, nodes: seq<Node>, last: Node)
    requires NoRepeat(parent, nodes)
    requires IsChild(parent, last) ==> SnapshotPath.Normalize(last.path) !in Children(parent, nodes)
    ensures NoRepeat(parent, nodes + [last])
  {
    forall i | 0 <= i < |nodes| && IsChild(parent, nodes[i])
      ensures SnapshotPath.Normalize(nodes[i].path) in Children(parent, nodes) {
      ChildrenAre(parent, nodes, i);
    }
  }

  lemma RepeatAppend(parent: string, nodes: seq<Node>, last: Node)
    requires IsChild(parent, last) && SnapshotPath.Normalize(last.path) in Children(parent, nodes)
    ensures !NoRepeat(parent, nodes + [last])
  {
    var i := ChildrenOnly(parent, nodes, SnapshotPath.Normalize(last.path));
    var all := nodes + [last];
    assert all[i] == nodes[i] && all[|nodes|] == last;
  }

  lemma NoRepeatPrefix(parent: string, nodes: seq<Node>, last: Node)
    requires NoRepeat(parent, nodes + [last])
    ensures NoRepeat(parent, nodes)
  {
    var all := nodes + [last];
    assert forall i | 0 <= i < |nodes| :: nodes[i] == all[i];
  }

  /** A payload is refused for a repeated child, and only for that. */
  lemma {:induction false} DistinctExactly(parent: string, nodes: seq<Node>)
    ensures Distinct(parent, nodes) <==> NoRepeat(parent, nodes)
    decreases |nodes|
  {
    if nodes != [] {
      var init, last := nodes[..|nodes| - 1], nodes[|nodes| - 1];
      assert init + [last] == nodes;
      DistinctExactly(parent, init);
      if !Distinct(parent, init) {
        if NoRepeat(parent, init + [last]) { NoRepeatPrefix(parent, init, last); }
      } else if Distinct(parent, nodes) {
        NoRepeatAppend(parent, init, last);
      } else {
        RepeatAppend(parent, init, last);
      }
    }
  }

  // ---- what a stored row holds, said from the payload ----

  /** The columns of the row of an entry: kind and details are the entry's, and so is the name; an entry without one
      gets the last name of its path. */
  ghost predicate HoldsEntry(row: FileRow, parent: string, path: string, node: Node) {
    && row.parent == parent && row.kind == node.kind && row.details == node.details
    && (node.name != "" ==> row.name == node.name)
    && (node.name == "" && SnapshotPath.Normalize(path) != "" ==>
          SnapshotPath.Proper(row.name) && SnapshotPath.Normalize(path) == parent + "/" + row.name)
    && (node.name == "" && SnapshotPath.Normalize(path) == "" ==> row.name == "/")
  }

  function Chosen(nodes: seq<Node>, p: Node -> bool): set<nat> {
    set i | 0 <= i < |nodes| && p(nodes[i])
  }

  function ChildEntries(parent: string, nodes: seq<Node>): set<nat> {
    Chosen(nodes, node => IsChild(parent, node))
  }

  /** One row for each child entry, at its normalized path, with its columns; and no other row. */
  ghost predicate RowsAreEntries(rows: map<string, FileRow>, parent: string, nodes: seq<Node>) {
    && (forall i | i in ChildEntries(parent, nodes) ::
          var path := SnapshotPath.Normalize(nodes[i].path);
          path in rows && HoldsEntry(rows[path], parent, path, nodes[i]))
    && (forall path | path in rows ::
          exists i :: i in ChildEntries(parent, nodes) && SnapshotPath.Normalize(nodes[i].path) == path)
    && |rows| == |ChildEntries(parent, nodes)|
  }

  lemma ChildHoldsEntry(parent: string, node: Node)
    requires IsChild(parent, node)
    ensures HoldsEntry(ChildRow(parent, node), parent, SnapshotPath.Normalize(node.path), node)
  {
    var path := SnapshotPath.Normalize(node.path);
    if SnapshotPath.Normalize(path) != "" { SnapshotPath.ParentAndBase(path); }
  }

  lemma ChosenLast(init: seq<Node>, last: Node, p: Node -> bool)
    ensures Chosen(init + [last], p) == Chosen(init, p) + if p(last) then {|init|} else {}
    ensures |Chosen(init + [last], p)| == |Chosen(init, p)| + if p(last) then 1 else 0
  {
    var all := init + [last];
    forall i ensures i in Chosen(all, p) <==> i in Chosen(init, p) || (i == |init| && p(last)) {
      if 0 <= i < |init| { assert all[i] == init[i]; }
    }
  }

  lemma {:induction false} ChildrenCount(parent: string, nodes: seq<Node>, p: Node -> bool)
    requires Distinct(parent, nodes) && forall node :: p(node) == IsChild(parent, node)
    ensures |Children(parent, nodes)| == |Chosen(nodes, p)|
    decreases |nodes|
  {
    if nodes != [] {
      var init, last := nodes[..|nodes| - 1], nodes[|nodes| - 1];
      assert nodes == init + [last];
      ChildrenCount(parent, init, p);
      ChosenLast(init, last, p);
      assert p(last) == IsChild(parent, last);
    }
  }

  /** The children of a payload without repeats are its child entries, column by column. */
  lemma ChildrenAreEntries(parent: string, nodes: seq<Node>)
    requires Distinct(parent, nodes)
    ensures RowsAreEntries(Children(parent, nodes), parent, nodes)
  {
    forall i | i in ChildEntries(parent, nodes)
      ensures var path := SnapshotPath.Normalize(nodes[i].path);
              path in Children(parent, nodes) && HoldsEntry(Children(parent, nodes)[path], parent, path, nodes[i]) {
      ChildrenAre(parent, nodes, i);
      ChildHoldsEntry(parent, nodes[i]);
    }
    forall path | path in Children(parent, nodes)
      ensures exists i :: i in ChildEntries(parent, nodes) && SnapshotPath.Normalize(nodes[i].path) == path {
      var i := ChildrenOnly(parent, nodes, path);
      assert i in ChildEntries(parent, nodes);
    }
    ChildrenCount(parent, nodes, node => IsChild(parent, node));
  }

  /** A settled path is a direct child of a directory if and only if it is the directory, a slash and one name. */
  lemma IsChildExactly(parent: string, node: Node)
    requires var path := SnapshotPath.Normalize(node.path); SnapshotPath.Normalize(path) == path
    ensures IsChild(parent, node) <==>
              node.kind != "" && exists name: string :: '/' !in name
                                   && SnapshotPath.Normalize(node.path) == parent + "/" + name
  {
    var path := SnapshotPath.Normalize(node.path);
    if IsChild(parent, node) {
      SnapshotPath.ParentAndBase(path);
      assert '/' !in SnapshotPath.Base(path) && path == parent + "/" + SnapshotPath.Base(path);
    }
    if name: string :| '/' !in name && path == parent + "/" + name {
      assert path[|parent|] == '/';
      assert forall k | |parent| < k < |path| :: path[k] == name[k - |parent| - 1];
      assert SnapshotPath.LastSlash(path) == |parent|;
      assert path[..|parent|] == parent;
    }
  }

  /** After a store, a reader of the directory gets the children of the payload; readers of other directories see no
      change. */
  lemma StoredListing(rows: FileRows, snapshot: string, parent: string, generation: nat, nodes: seq<Node>)
    requires RowsOk(rows)
    ensures var after := WithDirectory(rows, snapshot, parent, generation, Children(parent, nodes));
            RowsOk(after) && Listing(after, snapshot, parent, generation) == Children(parent, nodes)
            && (forall s, p, g | (s, p) != (snapshot, parent) :: Listing(after, s, p, g) == Listing(rows, s, p, g))
    ensures Distinct(parent, nodes) ==> RowsAreEntries(Children(parent, nodes), parent, nodes)
  {
    if Distinct(parent, nodes) { ChildrenAreEntries(parent, nodes); }
    var children := Children(parent, nodes);
    forall path | path in children ensures children[path].parent == parent == SnapshotPath.Parent(path) {
      ChildrenStandUnder(parent, nodes, path);
    }
    DirectoryRowsOk(rows, snapshot, parent, generation, nodes);
    OwnListing(rows, snapshot, parent, generation, children);
    forall s, p, g | (s, p) != (snapshot, parent)
      ensures Listing(WithDirectory(rows, snapshot, parent, generation, children), s, p, g) == Listing(rows, s, p, g) {
      OtherListing(rows, snapshot, parent, generation, children, s, p, g);
    }
  }

  lemma DirectoryRowsOk(rows: FileRows, snapshot: string, parent: string, generation: nat, nodes: seq<Node>)
    requires RowsOk(rows)
    ensures RowsOk(WithDirectory(rows, snapshot, parent, generation, Children(parent, nodes)))
  {
    var children := Children(parent, nodes);
    forall path | path in children ensures children[path].parent == parent == SnapshotPath.Parent(path) {
      ChildrenStandUnder(parent, nodes, path);
    }
  }

  lemma OwnListing(rows: FileRows, snapshot: string, parent: string, generation: nat, children: map<string, FileRow>)
    requires forall path | path in children :: children[path].parent == parent
    ensures Listing(WithDirectory(rows, snapshot, parent, generation, children), snapshot, parent, generation)
            == children
  {
    var after := WithDirectory(rows, snapshot, parent, generation, children);
    forall path
      ensures path in children <==>
              && FileKey(snapshot, generation, path) in after
              && after[FileKey(snapshot, generation, path)].parent == parent
      ensures path in children ==> after[FileKey(snapshot, generation, path)] == children[path] {
    }
  }

  lemma OtherListing(rows: FileRows, snapshot: string, parent: string, generation: nat, children: map<string, FileRow>,
                     s: string, p: string, g: nat)
    requires RowsOk(rows) && (s, p) != (snapshot, parent)
    requires forall path | path in children :: children[path].parent == parent == SnapshotPath.Parent(path)
    ensures Listing(WithDirectory(rows, snapshot, parent, generation, children), s, p, g) == Listing(rows, s, p, g)
  {
    var after := WithDirectory(rows, snapshot, parent, generation, children);
    forall path
      ensures path in Listing(after, s, p, g) <==> path in Listing(rows, s, p, g)
      ensures path in Listing(rows, s, p, g) ==> Listing(after, s, p, g)[path] == Listing(rows, s, p, g)[path]
    {
      var k := FileKey(s, g, path);
      assert k in rows && rows[k].parent == p ==> k in after && after[k] == rows[k];
      assert k in after && after[k].parent == p ==> k in rows && after[k] == rows[k];
    }
  }
}
