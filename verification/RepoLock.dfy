/** All interleavings of the callers of the lock: one step per mutex section, wake-up or stretch of work. */
module RepoLockProtocol {
  import opened Wrappers

  /** A reservation's state object: its repository, how often its channel was closed, and the caller that got it. */
  datatype Operation = Operation(repo: int, closes: nat, holder: nat)

  datatype Pc =
    | Calling                 // the top of runResticCommandWithReservation: is there a reservation?
    | Acquiring               // before the mutex section
    | Waiting(on: nat)        // in the select on another operation's channel
    | Handing                 // an asynchronous caller has its reservation and starts the goroutine
    | Loading                 // get the repository
    | Building                // build the environment
    | Clearing                // clear stale locks of a scheduled command
    | Running                 // run the command
    | Leaving                 // before the deferred release
    | GaveUp                  // busy, or the context ended
    | Ended

  /** A call of `runResticCommand`, which waits, or of an asynchronous entry point, which does not but acquires first
      and hands its reservation on; the reservation a caller got stays known to it. */
  datatype Caller = Caller(repo: int, wait: bool, pc: Pc, reservation: Option<nat>)

  datatype State = State(ops: map<int, nat>, operations: seq<Operation>, callers: seq<Caller>)

  const INITIAL := State(map[], [], [])

  datatype Step =
    | Arrive(repo: int, wait: bool)
    | Call(c: nat)             // acquires only without a reservation
    | Enter(c: nat)            // the mutex section of acquireRepoOperation
    | Wake(c: nat)             // case <-waitCh
    | Cancel(c: nat)           // case <-ctx.Done()
    | Start(c: nat)            // go func
    | Proceed(c: nat, ok: bool, scheduled: bool)   // the next thing under the reservation, or an early return
    | Leave(c: nat)            // releaseRepoOperation
    | LeaveAgain(c: nat)       // releaseRepoOperation with a reservation already released

  predicate At(s: State, c: nat, pc: Pc) {
    c < |s.callers| && s.callers[c].pc == pc
  }

  predicate Enabled(s: State, step: Step) {
    match step
    case Arrive(_, _) => true
    case Call(c) => At(s, c, Calling)
    case Enter(c) => At(s, c, Acquiring)
    case Wake(c) =>
      && c < |s.callers| && s.callers[c].pc.Waiting? && s.callers[c].pc.on < |s.operations|
      && s.operations[s.callers[c].pc.on].closes > 0
    case Cancel(c) => c < |s.callers| && s.callers[c].pc.Waiting?
    case Start(c) => At(s, c, Handing)
    case Proceed(c, _, _) => At(s, c, Loading) || At(s, c, Building) || At(s, c, Clearing) || At(s, c, Running)
    case Leave(c) => At(s, c, Leaving)
    case LeaveAgain(c) => At(s, c, Ended)
  }

  function NextUnder(pc: Pc, ok: bool, scheduled: bool): Pc {
    if !ok then Leaving
    else match pc
      case Loading => Building
      case Building => if scheduled then Clearing else Running
      case Clearing => Running
      case _ => Leaving
  }

  function Goto(s: State, c: nat, pc: Pc): State
    requires c < |s.callers|
  {
    s.(callers := s.callers[c := s.callers[c].(pc := pc)])
  }

  function Entered(s: State, c: nat): State
    requires c < |s.callers|
  {
    var repo := s.callers[c].repo;
    if repo in s.ops then Goto(s, c, if s.callers[c].wait then Waiting(s.ops[repo]) else GaveUp)
    else
      var l := |s.operations|;
      State(s.ops[repo := l], s.operations + [Operation(repo, 0, c)],
            s.callers[c := s.callers[c].(pc := if s.callers[c].wait then Loading else Handing, reservation := Some(l))])
  }

  function Released(s: State, repo: int, reservation: Option<nat>): State {
    if reservation.None? || repo !in s.ops || s.ops[repo] != reservation.value
      || reservation.value >= |s.operations| then s
    else
      var l := reservation.value;
      s.(ops := s.ops - {repo}, operations := s.operations[l := s.operations[l].(closes := s.operations[l].closes + 1)])
  }

  function Apply(s: State, step: Step): State
    requires Enabled(s, step)
  {
    match step
    case Arrive(repo, wait) =>
        s.(callers := s.callers + [Caller(repo, wait, if wait then Calling else Acquiring, None)])
    case Call(c) => Goto(s, c, if s.callers[c].reservation.None? then Acquiring else Loading)
    case Enter(c) => Entered(s, c)
    case Wake(c) => Goto(s, c, Acquiring)
    case Cancel(c) => Goto(s, c, GaveUp)
    case Start(c) => Goto(s, c, Calling)
    case Proceed(c, ok, scheduled) => Goto(s, c, NextUnder(s.callers[c].pc, ok, scheduled))
    case Leave(c) => Goto(Released(s, s.callers[c].repo, s.callers[c].reservation), c, Ended)
    case LeaveAgain(c) => Released(s, s.callers[c].repo, s.callers[c].reservation)
  }

  predicate Legal(s: State, steps: seq<Step>)
    decreases |steps|
  {
    steps == [] || (Enabled(s, steps[0]) && Legal(Apply(s, steps[0]), steps[1..]))
  }

  function Run(s: State, steps: seq<Step>): State
    requires Legal(s, steps)
    decreases |steps|
  {
    if steps == [] then s else Run(Apply(s, steps[0]), steps[1..])
  }

  ghost predicate Reachable(s: State) {
    exists steps :: Legal(INITIAL, steps) && Run(INITIAL, steps) == s
  }

  // ---- the invariant ----

  /** Between getting a reservation and releasing it. */
  predicate Holding(caller: Caller) {
    || caller.pc.Handing? || caller.pc.Loading? || caller.pc.Building? || caller.pc.Clearing? || caller.pc.Running?
        || caller.pc.Leaving?
    || (caller.pc.Calling? && !caller.wait)
  }

  predicate Holds(caller: Caller, l: nat) {
    Holding(caller) && caller.reservation == Some(l)
  }

  /** An operation is in the map until its channel is closed, and as long as it is there its holder holds it. */
  predicate OperationOk(s: State, l: nat, op: Operation) {
    && op.closes <= 1
    && (op.closes == 0 <==> op.repo in s.ops && s.ops[op.repo] == l)
    && (op.closes == 0 ==> op.holder < |s.callers| && Holds(s.callers[op.holder], l))
  }

  predicate CallerOk(s: State, c: nat, caller: Caller) {
    if Holding(caller) then
      && caller.reservation.Some? && caller.reservation.value < |s.operations|
      && s.operations[caller.reservation.value] == Operation(caller.repo, 0, c) && (caller.pc.Handing? ==> !caller.wait)
    else if caller.pc.Ended? then
      && caller.reservation.Some? && caller.reservation.value < |s.operations|
      && s.operations[caller.reservation.value].closes == 1
    else
      && caller.reservation == None
      && (caller.pc.Waiting? ==>
          caller.wait && caller.pc.on < |s.operations| && s.operations[caller.pc.on].repo == caller.repo)
  }

  predicate OpsOk(s: State) {
    forall repo | repo in s.ops :: s.ops[repo] < |s.operations| && s.operations[s.ops[repo]].repo == repo
  }

  predicate OperationsOk(s: State) {
    forall l | 0 <= l < |s.operations| :: OperationOk(s, l, s.operations[l])
  }

  predicate CallersOk(s: State) {
    forall c | 0 <= c < |s.callers| :: CallerOk(s, c, s.callers[c])
  }

  predicate Inv(s: State) {
    OpsOk(s) && OperationsOk(s) && CallersOk(s)
  }

  // ---- every step keeps it ----

  lemma ArriveKeeps(s: State, repo: int, wait: bool)
    requires Inv(s)
    ensures Inv(Apply(s, Arrive(repo, wait)))
  {
    var s' := Apply(s, Arrive(repo, wait));
    forall l | 0 <= l < |s'.operations| ensures OperationOk(s', l, s'.operations[l]) {
      assert OperationOk(s, l, s.operations[l]);
    }
    forall c | 0 <= c < |s.callers| ensures CallerOk(s', c, s'.callers[c]) {
      assert CallerOk(s, c, s.callers[c]);
    }
  }

  /** A caller moves to where it may be, and keeps what it holds. */
  lemma GotoKeeps(s: State, c: nat, pc: Pc)
    requires Inv(s) && c < |s.callers| && CallerOk(s, c, s.callers[c].(pc := pc))
    requires Holding(s.callers[c]) <==> Holding(s.callers[c].(pc := pc))
    ensures Inv(Goto(s, c, pc))
  {
    var s' := Goto(s, c, pc);
    forall l | 0 <= l < |s'.operations| ensures OperationOk(s', l, s'.operations[l]) {
      assert OperationOk(s, l, s.operations[l]);
    }
    forall d | 0 <= d < |s'.callers| ensures CallerOk(s', d, s'.callers[d]) {
      assert CallerOk(s, d, s.callers[d]);
    }
  }

  lemma EnterKeeps(s: State, c: nat)
    requires Inv(s) && Enabled(s, Enter(c))
    ensures Inv(Apply(s, Enter(c)))
  {
    var repo := s.callers[c].repo;
    if repo in s.ops {
      GotoKeeps(s, c, if s.callers[c].wait then Waiting(s.ops[repo]) else GaveUp);
    } else {
      var s' := Apply(s, Enter(c));
      forall l | 0 <= l < |s'.operations| ensures OperationOk(s', l, s'.operations[l]) {
        if l < |s.operations| { assert OperationOk(s, l, s.operations[l]); }
      }
      forall d | 0 <= d < |s'.callers| ensures CallerOk(s', d, s'.callers[d]) {
        if d != c { assert CallerOk(s, d, s.callers[d]); }
      }
    }
  }

  lemma LeaveKeeps(s: State, c: nat)
    requires Inv(s) && Enabled(s, Leave(c))
    ensures Inv(Apply(s, Leave(c)))
    ensures s.callers[c].repo in s.ops && Apply(s, Leave(c)).ops == s.ops - {s.callers[c].repo}
  {
    assert CallerOk(s, c, s.callers[c]);
    var mine := s.callers[c].reservation.value;
    assert OperationOk(s, mine, s.operations[mine]);
    var s' := Apply(s, Leave(c));
    forall l | 0 <= l < |s'.operations| ensures OperationOk(s', l, s'.operations[l]) {
      assert OperationOk(s, l, s.operations[l]);
    }
    forall d | 0 <= d < |s'.callers| ensures CallerOk(s', d, s'.callers[d]) {
      assert CallerOk(s, d, s.callers[d]);
    }
  }

  /** A reservation that is not live any more releases nothing. */
  lemma ReleaseIsIdempotent(s: State, c: nat)
    requires Inv(s) && Enabled(s, LeaveAgain(c))
    ensures Apply(s, LeaveAgain(c)) == s
  {
    assert CallerOk(s, c, s.callers[c]);
    var mine := s.callers[c].reservation.value;
    assert OperationOk(s, mine, s.operations[mine]);
  }

  lemma MoveKeeps(s: State, c: nat, step: Step)
    requires Inv(s) && Enabled(s, step)
    requires step == Call(c) || step == Wake(c) || step == Cancel(c) || step == Start(c)
            || (step.Proceed? && step.c == c)
    ensures Inv(Apply(s, step))
  {
    assert CallerOk(s, c, s.callers[c]);
    GotoKeeps(s, c, Apply(s, step).callers[c].pc);
  }

  lemma StepKeeps(s: State, step: Step)
    requires Inv(s) && Enabled(s, step)
    ensures Inv(Apply(s, step))
  {
    match step
    case Arrive(repo, wait) => ArriveKeeps(s, repo, wait);
    case Enter(c) => EnterKeeps(s, c);
    case Leave(c) => LeaveKeeps(s, c);
    case LeaveAgain(c) => ReleaseIsIdempotent(s, c);
    case Call(c) => MoveKeeps(s, c, step);
    case Wake(c) => MoveKeeps(s, c, step);
    case Cancel(c) => MoveKeeps(s, c, step);
    case Start(c) => MoveKeeps(s, c, step);
    case Proceed(c, _, _) => MoveKeeps(s, c, step);
  }

  lemma {:induction false} RunKeeps(s: State, steps: seq<Step>)
    requires Inv(s) && Legal(s, steps)
    ensures Inv(Run(s, steps))
    decreases |steps|
  {
    if steps != [] {
      StepKeeps(s, steps[0]);
      RunKeeps(Apply(s, steps[0]), steps[1..]);
    }
  }

  lemma ReachableInv(s: State)
    requires Reachable(s)
    ensures Inv(s)
  {
    var steps :| Legal(INITIAL, steps) && Run(INITIAL, steps) == s;
    RunKeeps(INITIAL, steps);
  }

  // ---- what holds in every reachable state ----

  /** Commands of one repository never overlap. */
  lemma MutualExclusion(s: State, c: nat, d: nat)
    requires Reachable(s) && c < |s.callers| && d < |s.callers| && s.callers[c].repo == s.callers[d].repo
    requires Holding(s.callers[c]) && Holding(s.callers[d])
    ensures c == d
  {
    ReachableInv(s);
    assert CallerOk(s, c, s.callers[c]) && CallerOk(s, d, s.callers[d]);
    assert OperationOk(s, s.callers[c].reservation.value, s.operations[s.callers[c].reservation.value]);
    assert OperationOk(s, s.callers[d].reservation.value, s.operations[s.callers[d].reservation.value]);
  }

  /** A channel is closed at most once, and exactly when its operation leaves the map. */
  lemma ClosedWhenItLeaves(s: State, l: nat)
    requires Reachable(s) && l < |s.operations|
    ensures s.operations[l].closes <= 1
    ensures s.operations[l].closes == 1 <==> !(s.operations[l].repo in s.ops && s.ops[s.operations[l].repo] == l)
  {
    ReachableInv(s);
    assert OperationOk(s, l, s.operations[l]);
  }

  /** A waiter that cannot wake up waits for a command that is running: it never sleeps on a freed repository, nor on
      its own command. */
  lemma WaiterHasHolder(s: State, c: nat)
    requires Reachable(s) && c < |s.callers| && s.callers[c].pc.Waiting? && !Enabled(s, Wake(c))
    ensures s.callers[c].repo in s.ops && s.ops[s.callers[c].repo] == s.callers[c].pc.on < |s.operations|
    ensures var h := s.operations[s.callers[c].pc.on].holder;
            h < |s.callers| && h != c && Holds(s.callers[h], s.callers[c].pc.on)
                && s.callers[h].repo == s.callers[c].repo
  {
    ReachableInv(s);
    assert CallerOk(s, c, s.callers[c]);
    var l := s.callers[c].pc.on;
    assert OperationOk(s, l, s.operations[l]);
    assert CallerOk(s, s.operations[l].holder, s.callers[s.operations[l].holder]);
  }

  /** Nobody acquires or waits while holding, every early return releases, and no reservation outlives its caller. */
  lemma NothingLeaks(s: State, c: nat)
    requires Reachable(s) && c < |s.callers|
    ensures s.callers[c].pc.Acquiring? || s.callers[c].pc.Waiting? || s.callers[c].pc.GaveUp? ==>
              s.callers[c].reservation == None && forall l | 0 <= l < |s.operations| && s.operations[l].holder == c ::
                  l !in s.ops.Values
    ensures s.callers[c].pc.Ended? ==>
              s.callers[c].reservation.Some? && s.callers[c].reservation.value !in s.ops.Values
    ensures (forall d | 0 <= d < |s.callers| :: s.callers[d].pc.Ended? || s.callers[d].pc.GaveUp?) ==> s.ops == map[]
  {
    ReachableInv(s);
    assert CallerOk(s, c, s.callers[c]);
    forall repo | repo in s.ops ensures Holding(s.callers[s.operations[s.ops[repo]].holder]) {
      assert OperationOk(s, s.ops[repo], s.operations[s.ops[repo]]);
    }
    if s.callers[c].pc.Ended? {
      var mine := s.callers[c].reservation.value;
      assert OperationOk(s, mine, s.operations[mine]);
      forall repo | repo in s.ops ensures s.ops[repo] != mine {
        assert s.operations[s.ops[repo]].repo == repo;
      }
    }
    if forall d | 0 <= d < |s.callers| :: s.callers[d].pc.Ended? || s.callers[d].pc.GaveUp? {
      assert forall repo | repo in s.ops :: OperationOk(s, s.ops[repo], s.operations[s.ops[repo]]);
      assert forall repo :: repo !in s.ops;
    }
  }

  // ---- progress ----

  lemma RunCons(s: State, step: Step, rest: seq<Step>)
    requires Enabled(s, step) && Legal(Apply(s, step), rest)
    ensures Legal(s, [step] + rest) && Run(s, [step] + rest) == Run(Apply(s, step), rest)
  {
    assert ([step] + rest)[1..] == rest;
  }

  function WorkLeft(pc: Pc): nat {
    match pc
    case Handing => 7
    case Calling => 6
    case Loading => 5
    case Building => 4
    case Clearing => 3
    case Running => 2
    case _ => 1
  }

  function Distance(s: State, c: nat): nat
    requires c < |s.callers|
  {
    var caller := s.callers[c];
    (if caller.pc.Waiting? then 1 else 0)
    + (if caller.repo in s.ops && s.ops[caller.repo] < |s.operations|
        && s.operations[s.ops[caller.repo]].holder < |s.callers|
       then WorkLeft(s.callers[s.operations[s.ops[caller.repo]].holder].pc) else 0)
  }

  function HolderStep(s: State, h: nat): Step
    requires h < |s.callers|
  {
    match s.callers[h].pc
    case Handing => Start(h)
    case Calling => Call(h)
    case Leaving => Leave(h)
    case _ => Proceed(h, true, false)
  }

  lemma HolderNears(s: State, c: nat)
    requires Inv(s) && c < |s.callers| && (s.callers[c].pc.Waiting? || s.callers[c].pc.Acquiring?)
            && s.callers[c].repo in s.ops
    ensures var h := s.operations[s.ops[s.callers[c].repo]].holder;
            h < |s.callers| && h != c && Enabled(s, HolderStep(s, h))
            && Apply(s, HolderStep(s, h)).callers[c] == s.callers[c]
                && Distance(Apply(s, HolderStep(s, h)), c) < Distance(s, c)
  {
    var l := s.ops[s.callers[c].repo];
    assert OperationOk(s, l, s.operations[l]);
    var h := s.operations[l].holder;
    assert CallerOk(s, h, s.callers[h]) && CallerOk(s, c, s.callers[c]);
    if s.callers[h].pc.Leaving? { LeaveKeeps(s, h); }
  }

  /** What brings a waiting caller nearer: the holder goes on, the holder leaves, the caller wakes up. */
  lemma Approach(s: State, c: nat) returns (step: Step)
    requires Inv(s) && c < |s.callers| && (s.callers[c].pc.Waiting? || s.callers[c].pc.Acquiring?) && Distance(s, c) > 0
    ensures !step.Arrive? && !step.Cancel?
    ensures Enabled(s, step) && c < |Apply(s, step).callers|
    ensures Apply(s, step).callers[c].pc.Waiting? || Apply(s, step).callers[c].pc.Acquiring?
    ensures Distance(Apply(s, step), c) < Distance(s, c)
  {
    if s.callers[c].repo in s.ops {
      HolderNears(s, c);
      step := HolderStep(s, s.operations[s.ops[s.callers[c].repo]].holder);
    } else {
      assert CallerOk(s, c, s.callers[c]);
      step := Wake(c);
      assert OperationOk(s, s.callers[c].pc.on, s.operations[s.callers[c].pc.on]);
    }
  }

  /** No deadlock: from every reachable state the running commands and the releases, without new callers or
      cancellations, let any given waiter get the repository. */
  lemma {:induction false} WaiterCanAcquire(s: State, c: nat) returns (steps: seq<Step>)
    requires Inv(s) && c < |s.callers| && (s.callers[c].pc.Waiting? || s.callers[c].pc.Acquiring?)
    ensures Legal(s, steps) && c < |Run(s, steps).callers| && Holding(Run(s, steps).callers[c])
    ensures forall i | 0 <= i < |steps| :: !steps[i].Arrive? && !steps[i].Cancel?
    decreases Distance(s, c)
  {
    if Distance(s, c) == 0 {
      FreeWhenNear(s, c);
      assert Legal(Apply(s, Enter(c)), []);
      RunCons(s, Enter(c), []);
      steps := [Enter(c)];
      assert [Enter(c)] + [] == steps;
    } else {
      var step := Approach(s, c);
      StepKeeps(s, step);
      var rest := WaiterCanAcquire(Apply(s, step), c);
      RunCons(s, step, rest);
      steps := [step] + rest;
    }
  }

  lemma FreeWhenNear(s: State, c: nat)
    requires Inv(s) && c < |s.callers| && Distance(s, c) == 0
    ensures s.callers[c].repo !in s.ops
  {
    assert s.callers[c].repo in s.ops ==>
        OperationOk(s, s.ops[s.callers[c].repo], s.operations[s.ops[s.callers[c].repo]]);
  }
}

/** The mutex sections of the lock in `RepoService`, each a step of the protocol. */
module RepoLock {
  import opened Wrappers
  import opened RepoLockProtocol

  datatype OperationClass = Read | Exclusive

  class OperationState {
    const cls: OperationClass
    const kind: string
    var done: bool

    constructor (cls: OperationClass, kind: string)
      ensures this.cls == cls && this.kind == kind && !done
    {
      this.cls, this.kind, done := cls, kind, false;
    }

    /** Closing a closed channel panics. */
    method Close()
      requires !done
      modifies this
      ensures done
    {
      done := true;
    }
  }

  datatype Reservation = Reservation(repo: int, state: OperationState)

  datatype Attempt = Reserved(reservation: Reservation) | Blocked(holder: OperationState)

  class RepoOperations {
    var repoOps: map<int, OperationState>
    /** Every state ever made, and where in it the live one of a repository is. */
    ghost var made: seq<OperationState>
    ghost var live: map<int, nat>

    ghost predicate Valid()
      reads this, made
    {
      && (forall i, j | 0 <= i < j < |made| :: made[i] != made[j])
      && live.Keys == repoOps.Keys
      && (forall repo | repo in live :: live[repo] < |made| && made[live[repo]] == repoOps[repo] && !repoOps[repo].done)
      && (forall a, b | a in live && b in live && live[a] == live[b] :: a == b)
    }

    /** The map and the channels are those of a protocol state. */
    ghost predicate Shows(s: State)
      reads this, made
    {
      && s.ops == live && |s.operations| == |made|
      && forall l | 0 <= l < |made| :: s.operations[l].closes > 0 <==> made[l].done
    }

    constructor ()
      ensures Valid() && Shows(INITIAL) && repoOps == map[]
    {
      repoOps, made, live := map[], [], map[];
    }

    /** The mutex section of `acquireRepoOperation` is the step Enter. */
    method TryAcquire(repo: int, kind: string, cls: OperationClass, ghost s: State, ghost c: nat)
        returns (attempt: Attempt)
      requires Valid() && Shows(s) && Enabled(s, Enter(c)) && s.callers[c].repo == repo
      modifies this
      ensures Valid() && Shows(Apply(s, Enter(c)))
      ensures attempt.Blocked? <==> repo in old(repoOps)
      ensures attempt.Blocked? ==> attempt.holder == repoOps[repo] && !attempt.holder.done && made == old(made)
      ensures attempt.Reserved? ==>
              fresh(attempt.reservation.state) && attempt.reservation == Reservation(repo, repoOps[repo])
                                    && repoOps[repo].kind == kind && repoOps[repo].cls == cls
                                        && made == old(made) + [repoOps[repo]]
    {
      if repo in repoOps {
        return Blocked(repoOps[repo]);
      }
      var state := new OperationState(cls, kind);
      repoOps := repoOps[repo := state];
      live, made := live[repo := |made|], made + [state];
      attempt := Reserved(Reservation(repo, state));
    }

    /** A reservation that is not the live one of its repository is left alone, however often it is released. */
    method Release(reservation: Option<Reservation>, ghost s: State, ghost l: nat)
      requires Valid() && Shows(s)
      requires reservation.Some? ==> l < |made| && made[l] == reservation.value.state
      modifies this, if reservation.Some? then {reservation.value.state} else {}
      ensures Valid() && made == old(made)
      ensures Shows(if reservation.Some? then Released(s, reservation.value.repo, Some(l)) else s)
    {
      if reservation.None? {
        return;
      }
      var repo, state := reservation.value.repo, reservation.value.state;
      if repo !in repoOps || repoOps[repo] != state {
        return;
      }
      assert live[repo] == l;
      repoOps := repoOps - {repo};
      live := live - {repo};
      state.Close();
    }
  }
}
