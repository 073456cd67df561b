/** All interleavings of the callers and workers of background loads: one step per mutex section or channel
    operation. */
module LoadProtocol {
  import opened Wrappers
  import opened SyncLoads

  /** The goroutine that runs a load, from `go func` to the end of `finishLoad`. */
  datatype Worker = NotSpawned(owner: nat) | Running | Finishing(err: Option<string>) | Respawning | Ended

  /** A load object: its slot, its goroutine, what it shows, how often `done` was closed, what was ever sent on
      `started`. */
  datatype Load = Load(slot: Slot, worker: Worker, view: LoadView, closes: nat, sent: seq<int>)

  /** A goroutine inside `queueDomainSync`, or about to call it. */
  datatype Caller =
    | AboutToQueue(slot: Slot)
    | Spawning(load: nat)
    | Checking(load: nat)
    | Waiting(load: nat)
    | Returned(load: nat, id: int)
    | TimedOut

  datatype State = State(work: FileWork, active: map<Slot, nat>, loads: seq<Load>, callers: seq<Caller>)

  const INITIAL := State(map[], map[], [], [])

  datatype Step =
    | Arrive(slot: Slot)                      // a caller of QueueCoreSync, QueueStatsSync or QueueKeysSync
    | ArriveWith(repo: int, req: Request)     // enqueueFileIndex, by a caller that goes on to ensureFileWorker
    | EnqueueMore(c: nat, req: Request)       // the same caller enqueues another path
    | Begin(c: nat)                           // beginLoad
    | Spawn(c: nat)                           // go func
    | Check(c: nat)                           // the first loadResult
    | Receive(c: nat)                         // case logID := <-load.started
    | SeeDone(c: nat)                         // case <-load.done, and loadResult
    | TimeOut(c: nat)                         // case <-time.After(5 * time.Second)
    | Announce(l: nat, id: int)               // announceStarted
    | Dequeue(l: nat, key: string)            // dequeueFileIndex
    | Stop(l: nat, err: Option<string>)       // the runner returns
    | Finish(l: nat)                          // finishLoad
    | Respawn(l: nat)                         // the goroutine finishLoad starts for pending work

  predicate CallerAt(s: State, c: nat) {
    c < |s.callers|
  }

  predicate WorkerIn(s: State, l: nat, w: Worker) {
    l < |s.loads| && s.loads[l].worker == w
  }

  predicate Enabled(s: State, step: Step) {
    match step
    case Arrive(slot) => slot.domain != Files
    case ArriveWith(repo, req) => true
    case EnqueueMore(c, req) => CallerAt(s, c) && s.callers[c].AboutToQueue? && s.callers[c].slot.domain == Files
    case Begin(c) => CallerAt(s, c) && s.callers[c].AboutToQueue?
    case Spawn(c) => CallerAt(s, c) && s.callers[c].Spawning? && s.callers[c].load < |s.loads|
    case Check(c) => CallerAt(s, c) && s.callers[c].Checking? && s.callers[c].load < |s.loads|
    case Receive(c) =>
      CallerAt(s, c) && s.callers[c].Waiting? && s.callers[c].load < |s.loads|
          && s.loads[s.callers[c].load].view.buffer != []
    case SeeDone(c) =>
      CallerAt(s, c) && s.callers[c].Waiting? && s.callers[c].load < |s.loads| && s.loads[s.callers[c].load].view.closed
    case TimeOut(c) => CallerAt(s, c) && s.callers[c].Waiting?
    case Announce(l, id) => WorkerIn(s, l, Running)
    case Dequeue(l, key) => WorkerIn(s, l, Running) && s.loads[l].slot.domain == Files
        && key in QueueOf(s.work, s.loads[l].slot.repo)
    case Stop(l, err) => WorkerIn(s, l, Running)
    case Finish(l) => l < |s.loads| && s.loads[l].worker.Finishing?
    case Respawn(l) => WorkerIn(s, l, Respawning)
  }

  function Move(s: State, c: nat, to: Caller): State
    requires CallerAt(s, c)
  {
    s.(callers := s.callers[c := to])
  }

  function SetLoad(s: State, l: nat, load: Load): State
    requires l < |s.loads|
  {
    s.(loads := s.loads[l := load])
  }

  function Arrived(s: State, caller: Caller): State {
    s.(callers := s.callers + [caller])
  }

  /** The id a caller returns once `done` is closed; no id is reported as 0. */
  function ResultOf(load: Load): int {
    if load.view.logID > 0 then load.view.logID else 0
  }

  function Began(s: State, c: nat): State
    requires CallerAt(s, c) && s.callers[c].AboutToQueue?
  {
    var slot := s.callers[c].slot;
    if slot in s.active then Move(s, c, Checking(s.active[slot]))
    else
      var l := |s.loads|;
      Move(s.(active := s.active[slot := l], loads := s.loads + [Load(slot, NotSpawned(c), NEW_LOAD, 0, [])]), c,
          Spawning(l))
  }

  function AnnouncedLoad(load: Load, id: int): Load {
    var view := Announced(load.view, id);
    load.(view := view, sent := if |view.buffer| > |load.view.buffer| then load.sent + [id] else load.sent)
  }

  function FinishedState(s: State, l: nat): State
    requires l < |s.loads| && s.loads[l].worker.Finishing?
  {
    var load := s.loads[l];
    var pending := load.slot.domain == Files && HasWork(s.work, load.slot.repo);
    SetLoad(s.(active := s.active - {load.slot}), l,
            load.(view := Finished(load.view, load.worker.err), closes := load.closes + 1,
                  worker := if pending then Respawning else Ended))
  }

  function Apply(s: State, step: Step): State
    requires Enabled(s, step)
  {
    match step
    case Arrive(slot) => Arrived(s, AboutToQueue(slot))
    case ArriveWith(repo, req) => Arrived(s.(work := Enqueued(s.work, repo, req)), AboutToQueue(Slot(repo, Files)))
    case EnqueueMore(c, req) => s.(work := Enqueued(s.work, s.callers[c].slot.repo, req))
    case Begin(c) => Began(s, c)
    case Spawn(c) =>
      var l := s.callers[c].load;
      Move(SetLoad(s, l, s.loads[l].(worker := Running)), c, Checking(l))
    case Check(c) =>
      var l := s.callers[c].load;
      Move(s, c, if s.loads[l].view.logID > 0 then Returned(l, s.loads[l].view.logID) else Waiting(l))
    case Receive(c) =>
      var l := s.callers[c].load;
      var view := s.loads[l].view;
      Move(SetLoad(s, l, s.loads[l].(view := view.(buffer := view.buffer[1..]))), c, Returned(l, view.buffer[0]))
    case SeeDone(c) => Move(s, c, Returned(s.callers[c].load, ResultOf(s.loads[s.callers[c].load])))
    case TimeOut(c) => Move(s, c, TimedOut)
    case Announce(l, id) => SetLoad(s, l, AnnouncedLoad(s.loads[l], id))
    case Dequeue(l, key) => s.(work := Dequeued(s.work, s.loads[l].slot.repo, key))
    case Stop(l, err) => SetLoad(s, l, s.loads[l].(worker := Finishing(err)))
    case Finish(l) => FinishedState(s, l)
    case Respawn(l) => Arrived(SetLoad(s, l, s.loads[l].(worker := Ended)), AboutToQueue(s.loads[l].slot))
  }

  predicate Legal(s: State, steps: seq<Step>)
    decreases |steps|
  {
    steps == [] || (Enabled(s, steps[0]) && Legal(Apply(s, steps[0]), steps[1..]))
  }

  function Run(s: State, steps: seq<Step>): State
    requires Legal(s, steps)
    decreases |steps|
  {
    if steps == [] then s else Run(Apply(s, steps[0]), steps[1..])
  }

  // ---- the invariant ----

  /** A load is active from the moment it is made until `finishLoad` closes `done`, which happens once. */
  predicate LoadOk(active: map<Slot, nat>, l: nat, load: Load) {
    && load.closes <= 1
    && (load.view.closed <==> load.closes == 1)
    && (load.closes == 0 <==> load.slot in active && active[load.slot] == l)
    && (load.closes == 1 <==> load.worker == Respawning || load.worker == Ended)
  }

  /** The log id is set once, sent once, and what is sent is never dropped. */
  predicate ChannelOk(load: Load) {
    && load.view.logID >= 0
    && load.sent == (if load.view.logID == 0 then [] else [load.view.logID])
    && (load.view.buffer == [] || load.view.buffer == load.sent)
  }

  predicate CallerOk(loads: seq<Load>, c: nat, caller: Caller) {
    match caller
    case AboutToQueue(_) => true
    case Spawning(l) => l < |loads| && loads[l].worker == NotSpawned(c)
    case Checking(l) => l < |loads|
    case Waiting(l) => l < |loads|
    case Returned(l, id) => l < |loads| && id >= 0 && (id > 0 ==> loads[l].view.logID == id)
    case TimedOut => true
  }

  /** Before its goroutine starts, a load has its one owner about to start it. */
  predicate OwnerOk(callers: seq<Caller>, l: nat, load: Load) {
    load.worker.NotSpawned? ==> load.worker.owner < |callers| && callers[load.worker.owner] == Spawning(l)
  }

  ghost predicate ActiveInv(s: State) {
    forall slot | slot in s.active :: s.active[slot] < |s.loads| && s.loads[s.active[slot]].slot == slot
  }

  ghost predicate LoadInv(s: State) {
    forall l | 0 <= l < |s.loads| :: LoadOk(s.active, l, s.loads[l]) && ChannelOk(s.loads[l])
  }

  ghost predicate OwnerInv(s: State) {
    forall l | 0 <= l < |s.loads| :: OwnerOk(s.callers, l, s.loads[l])
  }

  ghost predicate CallerInv(s: State) {
    forall c | 0 <= c < |s.callers| :: CallerOk(s.loads, c, s.callers[c])
  }

  ghost predicate Approached(s: State, slot: Slot) {
    exists c | 0 <= c < |s.callers| :: s.callers[c] == AboutToQueue(slot)
  }

  ghost predicate Respawned(s: State, slot: Slot) {
    exists l | 0 <= l < |s.loads| :: s.loads[l].worker == Respawning && s.loads[l].slot == slot
  }

  /** Someone will look at the queue of `repo` again: an active files load, a caller on its way to start one,
      or a finished worker about to send such a caller. */
  ghost predicate Attended(s: State, repo: int) {
    var slot := Slot(repo, Files);
    slot in s.active || Approached(s, slot) || Respawned(s, slot)
  }

  ghost predicate WorkInv(s: State) {
    forall repo | repo in s.work :: s.work[repo] != map[] && Attended(s, repo)
  }

  ghost predicate Inv(s: State) {
    ActiveInv(s) && LoadInv(s) && OwnerInv(s) && CallerInv(s) && WorkInv(s)
  }

  // ---- every step keeps it ----

  /** A queue stays attended when its load, its callers and its respawning workers stay, or it becomes active. */
  lemma AttendedKeeps(s: State, s': State, repo: int)
    requires Attended(s, repo)
    requires var slot := Slot(repo, Files);
             slot in s'.active ||
             (slot !in s.active
              && (forall c | 0 <= c < |s.callers| && s.callers[c] == AboutToQueue(slot) ::
                  c < |s'.callers| && s'.callers[c] == s.callers[c])
              && (forall l | 0 <= l < |s.loads| && s.loads[l].worker == Respawning && s.loads[l].slot == slot ::
                    l < |s'.loads| && s'.loads[l].worker == Respawning && s'.loads[l].slot == slot))
    ensures Attended(s', repo)
  {
    var slot := Slot(repo, Files);
    if slot !in s'.active {
      if Approached(s, slot) {
        var c :| 0 <= c < |s.callers| && s.callers[c] == AboutToQueue(slot);
        assert s'.callers[c] == AboutToQueue(slot);
      } else {
        var l :| 0 <= l < |s.loads| && s.loads[l].worker == Respawning && s.loads[l].slot == slot;
        assert s'.loads[l].worker == Respawning;
      }
    }
  }

  /** A load changes while its goroutine runs, or only its channel is read. */
  lemma LoadChanges(s: State, l: nat, load: Load)
    requires Inv(s) && l < |s.loads|
    requires load.slot == s.loads[l].slot && LoadOk(s.active, l, load) && ChannelOk(load)
    requires load.worker == s.loads[l].worker || (s.loads[l].worker == Running && load.worker.Finishing?)
    requires s.loads[l].view.logID > 0 ==> load.view.logID == s.loads[l].view.logID
    ensures Inv(SetLoad(s, l, load))
  {
    var s' := SetLoad(s, l, load);
    forall c | 0 <= c < |s.callers| ensures CallerOk(s'.loads, c, s'.callers[c]) {
      assert CallerOk(s.loads, c, s.callers[c]);
    }
    forall k | 0 <= k < |s.loads| ensures OwnerOk(s'.callers, k, s'.loads[k]) {
      assert OwnerOk(s.callers, k, s.loads[k]);
    }
    forall r | r in s'.work ensures Attended(s', r) {
      AttendedKeeps(s, s', r);
    }
  }

  /** A caller that has its load moves on. */
  lemma CallerMoves(s: State, c: nat, to: Caller)
    requires Inv(s) && CallerAt(s, c) && (s.callers[c].Checking? || s.callers[c].Waiting?)
    requires !to.Spawning? && CallerOk(s.loads, c, to)
    ensures Inv(Move(s, c, to))
  {
    var s' := Move(s, c, to);
    forall r | r in s'.work ensures Attended(s', r) {
      AttendedKeeps(s, s', r);
    }
  }

  lemma ArriveKeeps(s: State, slot: Slot)
    requires Inv(s) && Enabled(s, Arrive(slot))
    ensures Inv(Apply(s, Arrive(slot)))
  {
    var s' := Apply(s, Arrive(slot));
    forall r | r in s'.work ensures Attended(s', r) {
      AttendedKeeps(s, s', r);
    }
  }

  lemma ArriveWithKeeps(s: State, repo: int, req: Request)
    requires Inv(s) && Enabled(s, ArriveWith(repo, req))
    ensures Inv(Apply(s, ArriveWith(repo, req)))
  {
    var s' := Apply(s, ArriveWith(repo, req));
    assert s'.callers[|s.callers|] == AboutToQueue(Slot(repo, Files));
    forall r | r in s'.work && r != repo ensures Attended(s', r) {
      AttendedKeeps(s, s', r);
    }
  }

  lemma EnqueueMoreKeeps(s: State, c: nat, req: Request)
    requires Inv(s) && Enabled(s, EnqueueMore(c, req))
    ensures Inv(Apply(s, EnqueueMore(c, req)))
  {
    var s' := Apply(s, EnqueueMore(c, req));
    assert s'.callers[c] == s.callers[c];
    forall r | r in s'.work ensures Attended(s', r) {
      if r != s.callers[c].slot.repo { AttendedKeeps(s, s', r); }
    }
  }

  lemma BeginJoins(s: State, c: nat)
    requires Inv(s) && Enabled(s, Begin(c)) && s.callers[c].slot in s.active
    ensures Inv(Apply(s, Begin(c)))
  {
    var s' := Apply(s, Begin(c));
    assert s' == Move(s, c, Checking(s.active[s.callers[c].slot]));
    forall r | r in s'.work ensures Attended(s', r) {
      AttendedKeeps(s, s', r);
    }
  }

  lemma BeginOwns(s: State, c: nat)
    requires Inv(s) && Enabled(s, Begin(c)) && s.callers[c].slot !in s.active
    ensures Inv(Apply(s, Begin(c)))
  {
    var s' := Apply(s, Begin(c));
    var slot, l := s.callers[c].slot, |s.loads|;
    assert s'.active == s.active[slot := l] && s'.work == s.work;
    assert s'.loads == s.loads + [Load(slot, NotSpawned(c), NEW_LOAD, 0, [])];
    assert s'.callers == s.callers[c := Spawning(l)];
    assert ActiveInv(s');
    assert LoadInv(s');
    BeginOwnsCallers(s, s', c);
    BeginOwnsWork(s, c);
  }

  lemma BeginOwnsWork(s: State, c: nat)
    requires Inv(s) && Enabled(s, Begin(c)) && s.callers[c].slot !in s.active
    ensures WorkInv(Apply(s, Begin(c)))
  {
    var s' := Apply(s, Begin(c));
    assert s'.loads[..|s.loads|] == s.loads;
    forall r | r in s'.work ensures Attended(s', r) {
      AttendedKeeps(s, s', r);
    }
  }

  lemma BeginOwnsCallers(s: State, s': State, c: nat)
    requires Inv(s) && Enabled(s, Begin(c))
    requires s'.loads == s.loads + [Load(s.callers[c].slot, NotSpawned(c), NEW_LOAD, 0, [])]
    requires s'.callers == s.callers[c := Spawning(|s.loads|)]
    ensures CallerInv(s') && OwnerInv(s')
  {
    forall d | 0 <= d < |s'.callers| ensures CallerOk(s'.loads, d, s'.callers[d]) {
      if d != c { assert CallerOk(s.loads, d, s.callers[d]); }
    }
    forall l | 0 <= l < |s'.loads| ensures OwnerOk(s'.callers, l, s'.loads[l]) {
      if l < |s.loads| { assert OwnerOk(s.callers, l, s.loads[l]); }
    }
  }

  lemma BeginKeeps(s: State, c: nat)
    requires Inv(s) && Enabled(s, Begin(c))
    ensures Inv(Apply(s, Begin(c)))
  {
    if s.callers[c].slot in s.active { BeginJoins(s, c); } else { BeginOwns(s, c); }
  }

  lemma SpawnOwners(s: State, c: nat)
    requires Inv(s) && Enabled(s, Spawn(c))
    ensures CallerInv(Apply(s, Spawn(c))) && OwnerInv(Apply(s, Spawn(c)))
  {
    var s' := Apply(s, Spawn(c));
    assert CallerOk(s.loads, c, s.callers[c]);
    forall d | 0 <= d < |s'.callers| ensures CallerOk(s'.loads, d, s'.callers[d]) {
      assert CallerOk(s.loads, d, s.callers[d]);
    }
    forall k | 0 <= k < |s'.loads| ensures OwnerOk(s'.callers, k, s'.loads[k]) {
      assert OwnerOk(s.callers, k, s.loads[k]);
    }
  }

  lemma SpawnKeeps(s: State, c: nat)
    requires Inv(s) && Enabled(s, Spawn(c))
    ensures Inv(Apply(s, Spawn(c)))
  {
    var s' := Apply(s, Spawn(c));
    SpawnOwners(s, c);
    assert CallerOk(s.loads, c, s.callers[c]);
    forall r | r in s'.work ensures Attended(s', r) {
      AttendedKeeps(s, s', r);
    }
  }

  lemma CheckKeeps(s: State, c: nat)
    requires Inv(s) && Enabled(s, Check(c))
    ensures Inv(Apply(s, Check(c)))
  {
    var l := s.callers[c].load;
    CallerMoves(s, c, if s.loads[l].view.logID > 0 then Returned(l, s.loads[l].view.logID) else Waiting(l));
  }

  lemma ReceiveKeeps(s: State, c: nat)
    requires Inv(s) && Enabled(s, Receive(c))
    ensures Inv(Apply(s, Receive(c)))
  {
    var l := s.callers[c].load;
    var load := s.loads[l];
    var received := load.(view := load.view.(buffer := load.view.buffer[1..]));
    assert ChannelOk(load);
    LoadChanges(s, l, received);
    CallerMoves(SetLoad(s, l, received), c, Returned(l, load.view.buffer[0]));
  }

  lemma SeeDoneKeeps(s: State, c: nat)
    requires Inv(s) && Enabled(s, SeeDone(c))
    ensures Inv(Apply(s, SeeDone(c)))
  {
    CallerMoves(s, c, Returned(s.callers[c].load, ResultOf(s.loads[s.callers[c].load])));
  }

  lemma TimeOutKeeps(s: State, c: nat)
    requires Inv(s) && Enabled(s, TimeOut(c))
    ensures Inv(Apply(s, TimeOut(c)))
  {
    CallerMoves(s, c, TimedOut);
  }

  /** The first positive id is stored and sent; every later one changes nothing. */
  lemma AnnounceOnce(load: Load, id: int)
    requires ChannelOk(load)
    ensures ChannelOk(AnnouncedLoad(load, id))
    ensures load.view.logID > 0 ==> AnnouncedLoad(load, id) == load
    ensures load.view.logID == 0 && id > 0 ==>
            AnnouncedLoad(load, id).sent == [id] && AnnouncedLoad(load, id).view.logID == id
    ensures load.(view := AnnouncedLoad(load, id).view, sent := AnnouncedLoad(load, id).sent) == AnnouncedLoad(load, id)
    ensures AnnouncedLoad(load, id).view.closed == load.view.closed
  {
  }

  lemma AnnounceKeeps(s: State, l: nat, id: int)
    requires Inv(s) && Enabled(s, Announce(l, id))
    ensures Inv(Apply(s, Announce(l, id)))
  {
    AnnounceOnce(s.loads[l], id);
    LoadChanges(s, l, AnnouncedLoad(s.loads[l], id));
  }

  lemma DequeueKeeps(s: State, l: nat, key: string)
    requires Inv(s) && Enabled(s, Dequeue(l, key))
    ensures Inv(Apply(s, Dequeue(l, key)))
  {
    var s' := Apply(s, Dequeue(l, key));
    forall r | r in s'.work ensures Attended(s', r) {
      AttendedKeeps(s, s', r);
    }
  }

  lemma StopKeeps(s: State, l: nat, err: Option<string>)
    requires Inv(s) && Enabled(s, Stop(l, err))
    ensures Inv(Apply(s, Stop(l, err)))
  {
    LoadChanges(s, l, s.loads[l].(worker := Finishing(err)));
  }

  lemma FinishKeeps(s: State, l: nat)
    requires Inv(s) && Enabled(s, Finish(l))
    ensures Inv(Apply(s, Finish(l)))
  {
    FinishLoads(s, l);
    FinishWork(s, l);
  }

  lemma FinishLoads(s: State, l: nat)
    requires Inv(s) && Enabled(s, Finish(l))
    ensures var s' := Apply(s, Finish(l)); ActiveInv(s') && LoadInv(s') && OwnerInv(s') && CallerInv(s')
  {
    var s' := Apply(s, Finish(l));
    assert LoadOk(s.active, l, s.loads[l]);
    forall k | 0 <= k < |s'.loads| ensures LoadOk(s'.active, k, s'.loads[k]) && ChannelOk(s'.loads[k]) {
      assert LoadOk(s.active, k, s.loads[k]) && ChannelOk(s.loads[k]);
    }
    forall c | 0 <= c < |s'.callers| ensures CallerOk(s'.loads, c, s'.callers[c]) {
      assert CallerOk(s.loads, c, s.callers[c]);
    }
  }

  lemma FinishWork(s: State, l: nat)
    requires Inv(s) && Enabled(s, Finish(l))
    ensures WorkInv(Apply(s, Finish(l)))
  {
    var s' := Apply(s, Finish(l));
    assert s'.loads[l].slot == s.loads[l].slot;
    forall r | r in s'.work ensures Attended(s', r) {
      if Slot(r, Files) != s.loads[l].slot { AttendedKeeps(s, s', r); }
    }
  }

  lemma RespawnKeeps(s: State, l: nat)
    requires Inv(s) && Enabled(s, Respawn(l))
    ensures Inv(Apply(s, Respawn(l)))
  {
    var s' := Apply(s, Respawn(l));
    assert s'.callers[|s.callers|] == AboutToQueue(s.loads[l].slot);
    forall r | r in s'.work ensures Attended(s', r) {
      if Slot(r, Files) != s.loads[l].slot { AttendedKeeps(s, s', r); }
    }
  }

  lemma StepKeeps(s: State, step: Step)
    requires Inv(s) && Enabled(s, step)
    ensures Inv(Apply(s, step))
  {
    match step
    case Arrive(slot) => ArriveKeeps(s, slot);
    case ArriveWith(repo, req) => ArriveWithKeeps(s, repo, req);
    case EnqueueMore(c, req) => EnqueueMoreKeeps(s, c, req);
    case Begin(c) => BeginKeeps(s, c);
    case Spawn(c) => SpawnKeeps(s, c);
    case Check(c) => CheckKeeps(s, c);
    case Receive(c) => ReceiveKeeps(s, c);
    case SeeDone(c) => SeeDoneKeeps(s, c);
    case TimeOut(c) => TimeOutKeeps(s, c);
    case Announce(l, id) => AnnounceKeeps(s, l, id);
    case Dequeue(l, key) => DequeueKeeps(s, l, key);
    case Stop(l, err) => StopKeeps(s, l, err);
    case Finish(l) => FinishKeeps(s, l);
    case Respawn(l) => RespawnKeeps(s, l);
  }

  lemma {:induction false} RunKeeps(s: State, steps: seq<Step>)
    requires Inv(s) && Legal(s, steps)
    ensures Inv(Run(s, steps))
    decreases |steps|
  {
    if steps != [] {
      StepKeeps(s, steps[0]);
      RunKeeps(Apply(s, steps[0]), steps[1..]);
    }
  }

  // ---- what holds in every reachable state ----

  ghost predicate Reachable(s: State) {
    exists steps :: Legal(INITIAL, steps) && Run(INITIAL, steps) == s
  }

  lemma ReachableInv(s: State)
    requires Reachable(s)
    ensures Inv(s)
  {
    var steps :| Legal(INITIAL, steps) && Run(INITIAL, steps) == s;
    RunKeeps(INITIAL, steps);
  }

  /** No lost wake-up: queued file work always has someone who will still look at it. */
  lemma NoLostWakeUp(s: State, repo: int)
    requires Reachable(s) && HasWork(s.work, repo)
    ensures Attended(s, repo)
  {
    ReachableInv(s);
  }

  lemma SomeKey(work: FileWork) returns (repo: int)
    requires work != map[]
    ensures repo in work
  {
    assert (forall r :: r !in work) ==> work == map[];
    repo :| repo in work;
  }

  /** While any queue holds a request, a load is active or a goroutine is on its way: a quiet service has drained
      every queue. */
  lemma QuietMeansDrained(s: State)
    requires Reachable(s) && s.work != map[]
    ensures s.active != map[]
            || (exists c | 0 <= c < |s.callers| :: s.callers[c].AboutToQueue?)
            || exists l | 0 <= l < |s.loads| :: s.loads[l].worker == Respawning
  {
    ReachableInv(s);
    var repo := SomeKey(s.work);
    assert Attended(s, repo);
  }

  /** One live load per slot, run by one goroutine; `done` is closed at most once, and exactly when the load leaves
      `active`. */
  lemma SingleFlight(s: State, l: nat, m: nat)
    requires Reachable(s) && l < |s.loads| && m < |s.loads|
    ensures !s.loads[l].view.closed && !s.loads[m].view.closed && s.loads[l].slot == s.loads[m].slot ==> l == m
    ensures s.loads[l].closes == if s.loads[l].view.closed then 1 else 0
    ensures s.loads[l].view.closed <==> !(s.loads[l].slot in s.active && s.active[s.loads[l].slot] == l)
    ensures forall c, d | 0 <= c < |s.callers| && 0 <= d < |s.callers|
            && s.callers[c] == s.callers[d] == Spawning(l) :: c == d
  {
    ReachableInv(s);
    assert LoadOk(s.active, l, s.loads[l]) && LoadOk(s.active, m, s.loads[m]);
    forall c, d | 0 <= c < |s.callers| && 0 <= d < |s.callers|
        && s.callers[c] == s.callers[d] == Spawning(l) ensures c == d {
      assert CallerOk(s.loads, c, s.callers[c]) && CallerOk(s.loads, d, s.callers[d]);
    }
  }

  /** All callers that get a positive id from one load get the one id that was announced for it. */
  lemma OneIdPerLoad(s: State, c: nat, d: nat)
    requires Reachable(s) && c < |s.callers| && d < |s.callers|
    requires s.callers[c].Returned? && s.callers[d].Returned? && s.callers[c].load == s.callers[d].load
    requires s.callers[c].id > 0 && s.callers[d].id > 0
    ensures s.callers[c].id == s.callers[d].id && s.callers[c].load < |s.loads|
    ensures s.loads[s.callers[c].load].sent == [s.callers[c].id]
  {
    ReachableInv(s);
    assert CallerOk(s.loads, c, s.callers[c]) && CallerOk(s.loads, d, s.callers[d]);
    assert ChannelOk(s.loads[s.callers[c].load]);
  }

  // ---- queued work can always still be served ----

  ghost function Distance(s: State, repo: int): nat {
    var slot := Slot(repo, Files);
    if slot in s.active && s.active[slot] < |s.loads| then
      match s.loads[s.active[slot]].worker
      case Running => 0
      case NotSpawned(_) => 1
      case _ => 4
    else if Approached(s, slot) then 2
    else 3
  }

  lemma RunCons(s: State, step: Step, rest: seq<Step>)
    requires Enabled(s, step) && Legal(Apply(s, step), rest)
    ensures Legal(s, [step] + rest) && Run(s, [step] + rest) == Run(Apply(s, step), rest)
  {
    assert ([step] + rest)[1..] == rest;
  }

  lemma ActiveNears(s: State, repo: int) returns (step: Step)
    requires Inv(s) && Slot(repo, Files) in s.active && Distance(s, repo) > 0 && HasWork(s.work, repo)
    ensures Enabled(s, step) && Apply(s, step).work == s.work && Distance(Apply(s, step), repo) < Distance(s, repo)
  {
    var l := s.active[Slot(repo, Files)];
    assert LoadOk(s.active, l, s.loads[l]) && OwnerOk(s.callers, l, s.loads[l]);
    if s.loads[l].worker.NotSpawned? {
      step := Spawn(s.loads[l].worker.owner);
    } else {
      step := Finish(l);
    }
  }

  lemma CallerNears(s: State, repo: int) returns (step: Step)
    requires Inv(s) && Slot(repo, Files) !in s.active && Approached(s, Slot(repo, Files))
    ensures Enabled(s, step) && Apply(s, step).work == s.work && Distance(Apply(s, step), repo) < Distance(s, repo)
  {
    var c :| 0 <= c < |s.callers| && s.callers[c] == AboutToQueue(Slot(repo, Files));
    step := Begin(c);
    assert Distance(s, repo) == 2;
    assert Apply(s, step).active[Slot(repo, Files)] == |s.loads|;
  }

  lemma RespawnNears(s: State, repo: int) returns (step: Step)
    requires Inv(s) && Slot(repo, Files) !in s.active && !Approached(s, Slot(repo, Files))
            && Respawned(s, Slot(repo, Files))
    ensures Enabled(s, step) && Apply(s, step).work == s.work && Distance(Apply(s, step), repo) < Distance(s, repo)
  {
    var l :| 0 <= l < |s.loads| && s.loads[l].worker == Respawning && s.loads[l].slot == Slot(repo, Files);
    step := Respawn(l);
    assert Apply(s, step).callers[|s.callers|] == AboutToQueue(Slot(repo, Files));
  }

  /** The next step that brings a queue nearer to a running worker. */
  lemma Approach(s: State, repo: int) returns (step: Step)
    requires Inv(s) && HasWork(s.work, repo) && Distance(s, repo) > 0
    ensures Enabled(s, step) && Apply(s, step).work == s.work && Distance(Apply(s, step), repo) < Distance(s, repo)
  {
    assert Attended(s, repo);
    if Slot(repo, Files) in s.active {
      step := ActiveNears(s, repo);
    } else if Approached(s, Slot(repo, Files)) {
      step := CallerNears(s, repo);
    } else {
      step := RespawnNears(s, repo);
    }
  }

  /** From every reachable state, some continuation lets a files worker of the repository take any given queued path. */
  lemma {:induction false} QueuedPathCanBeServed(s: State, repo: int, key: string) returns (steps: seq<Step>, l: nat)
    requires Inv(s) && key in QueueOf(s.work, repo)
    ensures Legal(s, steps) && Enabled(Run(s, steps), Dequeue(l, key))
    ensures Run(s, steps).loads[l].slot == Slot(repo, Files)
    decreases Distance(s, repo)
  {
    if Distance(s, repo) == 0 {
      steps, l := [], s.active[Slot(repo, Files)];
    } else {
      var step := Approach(s, repo);
      StepKeeps(s, step);
      var rest;
      rest, l := QueuedPathCanBeServed(Apply(s, step), repo, key);
      RunCons(s, step, rest);
      steps := [step] + rest;
    }
  }

  // ---- a request stays queued until a worker takes it ----

  /** Snapshot ids are hexadecimal, so none holds the bar between the parts of a queue key. */
  predicate BarFree(step: Step) {
    (step.ArriveWith? || step.EnqueueMore?) ==> '|' !in step.req.snapshotID
  }

  /** A worker takes the request for this path of this snapshot. */
  ghost predicate Takes(s: State, step: Step, repo: int, snapshotID: string, path: string) {
    && Enabled(s, step) && step.Dequeue? && s.loads[step.l].slot.repo == repo
    && var req := QueueOf(s.work, repo)[step.key];
    req.snapshotID == snapshotID && req.path == path
  }

  ghost predicate Taken(s: State, steps: seq<Step>, repo: int, snapshotID: string, path: string)
    requires Legal(s, steps)
    decreases |steps|
  {
    steps != [] && (Takes(s, steps[0], repo, snapshotID, path)
                    || Taken(Apply(s, steps[0]), steps[1..], repo, snapshotID, path))
  }

  lemma StepIsWellKeyed(s: State, step: Step)
    requires WellKeyed(s.work) && Enabled(s, step) && BarFree(step)
    ensures WellKeyed(Apply(s, step).work)
  {
    if step.ArriveWith? {
      EnqueuedIsWellKeyed(s.work, step.repo, step.req);
    } else if step.EnqueueMore? {
      EnqueuedIsWellKeyed(s.work, s.callers[step.c].slot.repo, step.req);
    } else if step.Dequeue? {
      DequeuedIsWellKeyed(s.work, s.loads[step.l].slot.repo, step.key);
    } else {
      assert Apply(s, step).work == s.work;
    }
  }

  lemma StepHoldsRequest(s: State, step: Step, repo: int, snapshotID: string, path: string)
    requires WellKeyed(s.work) && Enabled(s, step) && BarFree(step)
    requires IsQueued(s.work, repo, snapshotID, path) && !Takes(s, step, repo, snapshotID, path)
    ensures IsQueued(Apply(s, step).work, repo, snapshotID, path)
  {
    if step.ArriveWith? {
      EnqueueAddsOnePath(s.work, step.repo, step.req, snapshotID, path);
    } else if step.EnqueueMore? {
      EnqueueAddsOnePath(s.work, s.callers[step.c].slot.repo, step.req, snapshotID, path);
    } else if step.Dequeue? {
      var from := s.loads[step.l].slot.repo;
      DequeueTakesOnePath(s.work, from, step.key);
      var key :| key in QueueOf(s.work, repo) && QueueOf(s.work, repo)[key].snapshotID == snapshotID
                 && QueueOf(s.work, repo)[key].path == path;
      assert key in QueueOf(Apply(s, step).work, repo);
    } else {
      assert Apply(s, step).work == s.work;
    }
  }

  /** No request is lost: in any interleaving a queued path of a snapshot stays queued until a worker takes it. */
  lemma {:induction false} RequestWaitsUntilTaken(s: State, steps: seq<Step>, repo: int, snapshotID: string,
                                                  path: string)
    requires WellKeyed(s.work) && Legal(s, steps) && forall step | step in steps :: BarFree(step)
    requires IsQueued(s.work, repo, snapshotID, path)
    ensures Taken(s, steps, repo, snapshotID, path) || IsQueued(Run(s, steps).work, repo, snapshotID, path)
    decreases |steps|
  {
    if steps != [] && !Takes(s, steps[0], repo, snapshotID, path) {
      StepIsWellKeyed(s, steps[0]);
      StepHoldsRequest(s, steps[0], repo, snapshotID, path);
      RequestWaitsUntilTaken(Apply(s, steps[0]), steps[1..], repo, snapshotID, path);
    }
  }

  /** Every reachable queue is keyed by snapshot and path. */
  lemma {:induction false} RunIsWellKeyed(s: State, steps: seq<Step>)
    requires WellKeyed(s.work) && Legal(s, steps) && forall step | step in steps :: BarFree(step)
    ensures WellKeyed(Run(s, steps).work)
    decreases |steps|
  {
    if steps != [] {
      StepIsWellKeyed(s, steps[0]);
      RunIsWellKeyed(Apply(s, steps[0]), steps[1..]);
    }
  }
}
