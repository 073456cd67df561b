/** The mutex sections of `RepoCacheService`: background loads, one per repository and domain, and the file-index
    queue. */
module SyncLoads {
  import opened Wrappers

  datatype Domain = Core | Files | Stats | Keys

  /** The key of the `active` map. */
  datatype Slot = Slot(repo: int, domain: Domain)

  datatype Request = Request(snapshotID: string, path: string, force: bool, prewarm: bool)

  type Queue = map<string, Request>

  type FileWork = map<int, Queue>

  function RequestKey(req: Request): string {
    req.snapshotID + "|" + req.path
  }

  /** A second request for a queued path can only strengthen it. */
  function Merge(existing: Request, req: Request): Request {
    existing.(force := existing.force || req.force, prewarm := existing.prewarm && req.prewarm)
  }

  function QueueOf(work: FileWork, repo: int): Queue {
    if repo in work then work[repo] else map[]
  }

  function Enqueued(work: FileWork, repo: int, req: Request): FileWork {
    var queue, key := QueueOf(work, repo), RequestKey(req);
    work[repo := queue[key := if key in queue then Merge(queue[key], req) else req]]
  }

  function Dequeued(work: FileWork, repo: int, key: string): FileWork
    requires key in QueueOf(work, repo)
  {
    var rest := work[repo] - {key};
    if rest == map[] then work - {repo} else work[repo := rest]
  }

  predicate HasWork(work: FileWork, repo: int) {
    QueueOf(work, repo) != map[]
  }

  /** What a load shows its callers: the one-slot `started` channel, the log id, the error, and whether `done` is
      closed. */
  datatype LoadView = LoadView(buffer: seq<int>, logID: int, err: Option<string>, closed: bool)

  const NEW_LOAD := LoadView([], 0, None, false)

  function Announced(v: LoadView, logID: int): LoadView {
    if logID > 0 && v.logID == 0
        then v.(logID := logID, buffer := if |v.buffer| < 1 then v.buffer + [logID] else v.buffer)
    else v
  }

  function Finished(v: LoadView, err: Option<string>): LoadView {
    v.(err := err, closed := true)
  }

  class SyncLoad {
    var started: seq<int>
    var logID: int
    var err: Option<string>
    var done: bool

    function View(): LoadView
      reads this
    {
      LoadView(started, logID, err, done)
    }

    constructor ()
      ensures View() == NEW_LOAD
    {
      started, logID, err, done := [], 0, None, false;
    }
  }

  class RepoCacheService {
    var active: map<Slot, SyncLoad>
    var fileWork: FileWork

    constructor ()
      ensures active == map[] && fileWork == map[]
    {
      active, fileWork := map[], map[];
    }

    method EnqueueFileIndex(repo: int, req: Request)
      modifies this`fileWork
      ensures fileWork == Enqueued(old(fileWork), repo, req)
    {
      var key := req.snapshotID + "|" + req.path;
      if repo !in fileWork {
        fileWork := fileWork[repo := map[]];
      }
      var queue := fileWork[repo];
      if key in queue {
        var existing := queue[key];
        if req.force && !existing.force {
          existing := existing.(force := true);
        }
        if !req.prewarm && existing.prewarm {
          existing := existing.(prewarm := false);
        }
        fileWork := fileWork[repo := queue[key := existing]];
        return;
      }
      fileWork := fileWork[repo := queue[key := req]];
    }

    /** Takes any queued request: the iteration order of the queue is not specified. */
    method DequeueFileIndex(repo: int) returns (req: Option<Request>, ghost key: string)
      modifies this`fileWork
      ensures req.None? ==> !HasWork(old(fileWork), repo) && fileWork == old(fileWork)
      ensures req.Some? ==> key in QueueOf(old(fileWork), repo) && req.value == QueueOf(old(fileWork), repo)[key]
                            && fileWork == Dequeued(old(fileWork), repo, key)
    {
      key := "";
      if repo !in fileWork || fileWork[repo] == map[] {
        return None, key;
      }
      var queue := fileWork[repo];
      assert exists k :: k in queue.Keys by {
        assert queue.Keys != {};
      }
      var k :| k in queue.Keys;
      key := k;
      req := Some(queue[k]);
      queue := queue - {k};
      if |queue| == 0 {
        fileWork := fileWork - {repo};
      } else {
        fileWork := fileWork[repo := queue];
      }
    }

    method BeginLoad(slot: Slot) returns (load: SyncLoad, owner: bool)
      modifies this`active
      ensures owner <==> slot !in old(active)
      ensures !owner ==> load == old(active)[slot] && active == old(active)
      ensures owner ==> fresh(load) && load.View() == NEW_LOAD && active == old(active)[slot := load]
    {
      if slot in active {
        return active[slot], false;
      }
      load := new SyncLoad();
      active := active[slot := load];
      owner := true;
    }

    method FinishLoad(slot: Slot, load: SyncLoad, err: Option<string>) returns (hasPendingFileWork: bool)
      modifies this`active, load
      ensures load.View() == Finished(old(load.View()), err)
      ensures load.err == err && load.done && load.logID == old(load.logID) && load.started == old(load.started)
      ensures active == old(active) - {slot}
      ensures hasPendingFileWork <==> slot.domain == Files && HasWork(fileWork, slot.repo)
    {
      load.err := err;
      active := active - {slot};
      load.done := true;
      hasPendingFileWork := slot.domain == Files && slot.repo in fileWork && |fileWork[slot.repo]| > 0;
    }

    method AnnounceStarted(load: SyncLoad, logID: int)
      modifies load
      ensures load.View() == Announced(old(load.View()), logID)
      ensures load.err == old(load.err) && load.done == old(load.done)
      ensures if logID > 0 && old(load.logID) == 0
              then load.logID == logID && (old(load.started) == [] ==> load.started == [logID])
              else load.logID == old(load.logID) && load.started == old(load.started)
    {
      if logID <= 0 {
        return;
      }
      if load.logID == 0 {
        load.logID := logID;
        if |load.started| < 1 {
          load.started := load.started + [logID];
        }
      }
    }
  }

  // ---- coalescing ----

  function EnqueuedAll(work: FileWork, repo: int, reqs: seq<Request>): FileWork
    decreases |reqs|
  {
    if reqs == [] then work else EnqueuedAll(Enqueued(work, repo, reqs[0]), repo, reqs[1..])
  }

  /** However requests for one path are ordered, the queue keeps one of them: forced if any was, a prewarm if all
      were. */
  lemma {:induction false} RequestsCoalesce(work: FileWork, repo: int, reqs: seq<Request>, key: string)
    requires forall req | req in reqs :: req.snapshotID + "|" + req.path == key
    requires reqs != [] && key !in QueueOf(work, repo)
    ensures var queue := QueueOf(EnqueuedAll(work, repo, reqs), repo);
            queue.Keys == QueueOf(work, repo).Keys + {key}
            && (queue[key].force <==> exists req | req in reqs :: req.force)
            && (queue[key].prewarm <==> forall req | req in reqs :: req.prewarm)
            && forall k | k in QueueOf(work, repo) :: queue[k] == QueueOf(work, repo)[k]
  {
    assert reqs == [reqs[0]] + reqs[1..];
    MergesCoalesce(Enqueued(work, repo, reqs[0]), repo, reqs[1..], key);
  }

  lemma {:induction false} MergesCoalesce(work: FileWork, repo: int, reqs: seq<Request>, key: string)
    requires forall req | req in reqs :: req.snapshotID + "|" + req.path == key
    requires key in QueueOf(work, repo)
    ensures var before, queue := QueueOf(work, repo), QueueOf(EnqueuedAll(work, repo, reqs), repo);
            queue.Keys == before.Keys
            && (queue[key].force <==> before[key].force || exists req | req in reqs :: req.force)
            && (queue[key].prewarm <==> before[key].prewarm && forall req | req in reqs :: req.prewarm)
            && forall k | k in before && k != key :: queue[k] == before[k]
    decreases |reqs|
  {
    if reqs != [] {
      assert reqs == [reqs[0]] + reqs[1..];
      MergesCoalesce(Enqueued(work, repo, reqs[0]), repo, reqs[1..], key);
    }
  }

  // ---- the queue, said by snapshot and path ----

  /** A request for this path of this snapshot is queued. */
  ghost predicate IsQueued(work: FileWork, repo: int, snapshotID: string, path: string) {
    exists key | key in QueueOf(work, repo) ::
      QueueOf(work, repo)[key].snapshotID == snapshotID && QueueOf(work, repo)[key].path == path
  }

  /** A request for this path of this snapshot is queued, with these flags and no others. */
  ghost predicate IsQueuedAs(work: FileWork, repo: int, req: Request) {
    && IsQueued(work, repo, req.snapshotID, req.path)
    && forall key | key in QueueOf(work, repo) ::
         var other := QueueOf(work, repo)[key];
         other.snapshotID == req.snapshotID && other.path == req.path ==> other == req
  }

  /** Every request stands under its own key, and no snapshot id holds the bar between the key's parts. */
  ghost predicate WellKeyed(work: FileWork) {
    forall repo, key | repo in work && key in work[repo] ::
      key == RequestKey(work[repo][key]) && '|' !in work[repo][key].snapshotID
  }

  lemma {:induction false} SplitAtBar(a: string, b: string, c: string, d: string)
    requires '|' !in a && '|' !in b && a + "|" + c == b + "|" + d
    ensures a == b && c == d
    decreases |a|
  {
    var text := a + "|" + c;
    assert text[0] == (b + "|" + d)[0];
    if a == "" {
      assert text == "|" + c && (b == "" ==> b + "|" + d == "|" + d);
      assert c == text[1..];
    } else {
      assert text[1..] == a[1..] + "|" + c && (b + "|" + d)[1..] == b[1..] + "|" + d;
      SplitAtBar(a[1..], b[1..], c, d);
      assert a == [a[0]] + a[1..] && b == [b[0]] + b[1..];
    }
  }

  lemma KeysTellApart(a: Request, b: Request)
    requires '|' !in a.snapshotID && '|' !in b.snapshotID
    ensures RequestKey(a) == RequestKey(b) <==> a.snapshotID == b.snapshotID && a.path == b.path
  {
    if RequestKey(a) == RequestKey(b) { SplitAtBar(a.snapshotID, b.snapshotID, a.path, b.path); }
  }

  lemma EnqueuedIsWellKeyed(work: FileWork, repo: int, req: Request)
    requires WellKeyed(work) && '|' !in req.snapshotID
    ensures WellKeyed(Enqueued(work, repo, req))
  {
    var after := Enqueued(work, repo, req);
    forall r, key | r in after && key in after[r]
      ensures key == RequestKey(after[r][key]) && '|' !in after[r][key].snapshotID {
      if r == repo && key == RequestKey(req) {
        if key in QueueOf(work, repo) { KeysTellApart(QueueOf(work, repo)[key], req); }
      } else {
        assert r in work && key in work[r];
      }
    }
  }

  lemma DequeuedIsWellKeyed(work: FileWork, repo: int, key: string)
    requires WellKeyed(work) && key in QueueOf(work, repo)
    ensures WellKeyed(Dequeued(work, repo, key))
  {
  }

  /** Queueing a request queues its path of its snapshot; every other path of any snapshot stays queued as it was, no
      other appears, and no other repository is touched. */
  lemma EnqueueAddsOnePath(work: FileWork, repo: int, req: Request, snapshotID: string, path: string)
    requires WellKeyed(work) && '|' !in req.snapshotID
    ensures IsQueued(Enqueued(work, repo, req), repo, req.snapshotID, req.path)
    ensures (snapshotID, path) != (req.snapshotID, req.path) ==>
              (IsQueued(Enqueued(work, repo, req), repo, snapshotID, path) <==> IsQueued(work, repo, snapshotID, path))
    ensures forall other | other != repo :: QueueOf(Enqueued(work, repo, req), other) == QueueOf(work, other)
  {
    var before, after := QueueOf(work, repo), QueueOf(Enqueued(work, repo, req), repo);
    var mine := RequestKey(req);
    assert mine in after && after[mine].snapshotID == req.snapshotID && after[mine].path == req.path by {
      if mine in before { KeysTellApart(before[mine], req); }
    }
    if (snapshotID, path) != (req.snapshotID, req.path) {
      assert forall key | key in after && key != mine :: key in before && after[key] == before[key];
      assert forall key | key in before && key != mine :: key in after && after[key] == before[key];
      if mine in before { KeysTellApart(before[mine], req); }
    }
  }

  /** The flags a request leaves: forced and not a prewarm if either request was, alone its own; those of the others
      stay. */
  lemma EnqueueKeepsFlags(work: FileWork, repo: int, req: Request, other: Request)
    requires WellKeyed(work) && '|' !in req.snapshotID
    ensures (other.snapshotID, other.path) != (req.snapshotID, req.path) ==>
              (IsQueuedAs(work, repo, other) <==> IsQueuedAs(Enqueued(work, repo, req), repo, other))
    ensures !IsQueued(work, repo, req.snapshotID, req.path) ==> IsQueuedAs(Enqueued(work, repo, req), repo, req)
    ensures (other.snapshotID, other.path) == (req.snapshotID, req.path) && IsQueuedAs(work, repo, other) ==>
              IsQueuedAs(Enqueued(work, repo, req), repo,
                         Request(req.snapshotID, req.path, other.force || req.force, other.prewarm && req.prewarm))
  {
    var before, after := QueueOf(work, repo), QueueOf(Enqueued(work, repo, req), repo);
    var mine := RequestKey(req);
    EnqueueAddsOnePath(work, repo, req, other.snapshotID, other.path);
    EnqueuedIsWellKeyed(work, repo, req);
    if mine in before { KeysTellApart(before[mine], req); }
    forall key | key in after ensures after[key].snapshotID == req.snapshotID && after[key].path == req.path
        <==> key == mine {
      KeysTellApart(after[key], req);
    }
    assert forall key | key in after && key != mine :: key in before && after[key] == before[key];
    assert forall key | key in before && key != mine :: key in after && after[key] == before[key];
  }

  /** Taking a request takes that one: every other stays as it was, here and in the other repositories. */
  lemma DequeueTakesOnePath(work: FileWork, repo: int, key: string)
    requires key in QueueOf(work, repo)
    ensures QueueOf(Dequeued(work, repo, key), repo) == QueueOf(work, repo) - {key}
    ensures forall other | other != repo :: QueueOf(Dequeued(work, repo, key), other) == QueueOf(work, other)
    ensures repo in Dequeued(work, repo, key) <==> exists other | other in QueueOf(work, repo) :: other != key
  {
    var rest := work[repo] - {key};
    assert rest == map[] <==> forall other :: other !in rest;
    assert forall other :: other in rest <==> other in QueueOf(work, repo) && other != key;
  }
}
