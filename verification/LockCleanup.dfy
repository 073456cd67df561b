/** Clearing restic's own locks before a scheduled command, and how a lock of this process or a child of it is
    recognised. */
module LockCleanup {
  import opened Wrappers

  /** A restic lock record; fields that do not decode are "" and 0. */
  datatype LockInfo = LockInfo(hostname: string, pid: int)

  /** The `/proc` entries, each with its parent where the entry can be read. */
  type Processes = map<int, Option<int>>

  datatype OwnerStatus = OwnerStatus(currentInstance: bool, alive: bool)

  /** What `restic list locks` gives: a failure, a lock error, or an output with its records and whether it has lock
      ids. */
  datatype ListOutcome = CommandError | LockError(hasIDs: bool) | Output(records: seq<LockInfo>, hasIDs: bool)

  datatype Listing = Listing(locks: seq<LockInfo>, hasIDs: bool)

  function ListRepositoryLocks(outcome: ListOutcome): Option<Listing> {
    match outcome
    case CommandError => None
    case LockError(hasIDs) => Some(Listing([LockInfo("", 0)], hasIDs))
    case Output(records, hasIDs) =>
        Some(Listing(if records == [] && hasIDs then [LockInfo("", 0)] else records, hasIDs))
  }

  // ---- the process tree ----

  function ParentOf(table: Processes, pid: int): Option<int> {
    if pid in table && table[pid].Some? && table[pid].value > 0 && table[pid].value != pid then table[pid] else None
  }

  function Ancestor(table: Processes, pid: int, k: nat): Option<int> {
    if k == 0 then Some(pid)
    else
      var p := Ancestor(table, pid, k - 1);
      if p.None? then None else ParentOf(table, p.value)
  }

  ghost predicate DescendsFrom(table: Processes, pid: int, ancestor: int) {
    exists k: nat :: Ancestor(table, pid, k) == Some(ancestor)
  }

  /** Parents have smaller ranks: no process is its own ancestor. */
  ghost predicate Ranked(table: Processes, rank: map<int, nat>) {
    forall p | p in table && ParentOf(table, p).Some? ::
        p in rank && ParentOf(table, p).value in rank && rank[ParentOf(table, p).value] < rank[p]
  }

  ghost predicate Acyclic(table: Processes) {
    exists rank :: Ranked(table, rank)
  }

  lemma {:induction false} NoAncestorAbove(table: Processes, pid: int, k: nat, j: nat)
    requires k <= j && Ancestor(table, pid, k) == None
    ensures Ancestor(table, pid, j) == None
    decreases j
  {
    if k < j { NoAncestorAbove(table, pid, k, j - 1); }
  }

  /** A walk that found nothing below the top of the chain has found nothing. */
  lemma ChainEnds(table: Processes, pid: int, k: nat, ancestor: int)
    requires Ancestor(table, pid, k).Some? && ParentOf(table, Ancestor(table, pid, k).value) == None
    requires forall j: nat | j <= k :: Ancestor(table, pid, j) != Some(ancestor)
    ensures !DescendsFrom(table, pid, ancestor)
  {
    forall j: nat ensures Ancestor(table, pid, j) != Some(ancestor) {
      if j > k { NoAncestorAbove(table, pid, k + 1, j); }
    }
  }

  /** What the kernel guarantees: no process is its own ancestor, and process 1 has no parent. */
  ghost predicate Plausible(table: Processes) {
    Acyclic(table) && ParentOf(table, 1) == None
  }

  /** The process is this one or, unless this one is process 1, descends from it. */
  ghost predicate IsOwn(table: Processes, pid: int, self: int) {
    pid > 0 && (pid == self || (self > 1 && pid in table && DescendsFrom(table, pid, self)))
  }

  /** Answers exactly whether the process is this one or descends from it, unless this one is process 1. */
  method ResticLockProcessStatus(pid: int, self: int, table: Processes) returns (status: OwnerStatus)
    requires self > 0 && Plausible(table)
    ensures status.currentInstance <==> IsOwn(table, pid, self)
    ensures status.alive <==> pid > 0 && (pid == self || pid in table)
  {
    if pid <= 0 {
      return OwnerStatus(false, false);
    }
    if pid == self {
      return OwnerStatus(true, true);
    }
    if pid !in table {
      return OwnerStatus(false, false);
    }
    ghost var rank :| Ranked(table, rank);
    var parentPID := pid;
    ghost var k: nat := 0;
    while parentPID > 1
      invariant parentPID > 0 && Ancestor(table, pid, k) == Some(parentPID)
      invariant forall j: nat | j < k :: Ancestor(table, pid, j) != Some(self)
      decreases if parentPID in rank then rank[parentPID] + 1 else 0
    {
      if parentPID == self {
        return OwnerStatus(true, true);
      }
      if parentPID !in table || table[parentPID].None? || table[parentPID].value <= 0
          || table[parentPID].value == parentPID {
        ChainEnds(table, pid, k, self);
        return OwnerStatus(false, true);
      }
      parentPID, k := table[parentPID].value, k + 1;
    }
    if self > 1 { ChainEnds(table, pid, k, self); }
    status := OwnerStatus(false, true);
  }

  // ---- the clean-up loop ----

  /** What one pass sees: the listing, the host name, the process table, whether the ticker or the context fires, how
      `unlock` ends. */
  datatype Pass = Pass(outcome: ListOutcome, hostname: Option<string>, table: Processes, tick: bool, unlocked: bool)

  datatype Verdict = Ready | ListingFailed | Cancelled | UnlockFailed | StillWaiting

  predicate IsClear(listing: Listing) {
    listing.locks == [] && !listing.hasIDs
  }

  /** Some lock of this host belongs to this process or a child of it. */
  ghost predicate HeldHere(locks: seq<LockInfo>, hostname: Option<string>, table: Processes, self: int) {
    hostname.Some? && exists i | 0 <= i < |locks| ::
        locks[i].hostname == hostname.value && IsOwn(table, locks[i].pid, self)
  }

  method HasCurrentInstanceLiveLock(locks: seq<LockInfo>, hostname: Option<string>, table: Processes, self: int)
      returns (held: bool)
    requires self > 0 && Plausible(table)
    ensures held <==> HeldHere(locks, hostname, table, self)
  {
    if hostname.None? {
      return false;
    }
    var i := 0;
    while i < |locks|
      invariant 0 <= i <= |locks|
      invariant forall j | 0 <= j < i :: locks[j].hostname != hostname.value || !IsOwn(table, locks[j].pid, self)
    {
      if locks[i].hostname == hostname.value && locks[i].pid > 0 {
        var status := ResticLockProcessStatus(locks[i].pid, self, table);
        if status.currentInstance && status.alive {
          return true;
        }
      }
      i := i + 1;
    }
    held := false;
  }

  /** How a pass ends the loop; `None` when it goes round again. */
  ghost function PassEnds(pass: Pass, self: int): Option<Verdict> {
    var listing := ListRepositoryLocks(pass.outcome);
    if listing.None? then Some(ListingFailed)
    else if IsClear(listing.value) then Some(Ready)
    else if HeldHere(listing.value.locks, pass.hostname, pass.table, self)
        then (if pass.tick then None else Some(Cancelled))
    else if pass.unlocked then None else Some(UnlockFailed)
  }

  /** A pass that issues `unlock --remove-all`. */
  ghost predicate Unlocks(pass: Pass, self: int) {
    var listing := ListRepositoryLocks(pass.outcome);
    listing.Some? && !IsClear(listing.value) && !HeldHere(listing.value.locks, pass.hostname, pass.table, self)
  }

  /** The loop over the passes the world offers it; `unlocks` says of each pass made whether it issued `unlock
      --remove-all`. */
  method PrepareScheduledResticLocks(passes: seq<Pass>, self: int) returns (verdict: Verdict, unlocks: seq<bool>)
    requires self > 0 && forall i | 0 <= i < |passes| :: Plausible(passes[i].table)
    ensures |unlocks| <= |passes| && forall i | 0 <= i < |unlocks| :: unlocks[i] <==> Unlocks(passes[i], self)
    ensures verdict == StillWaiting ==>
            |unlocks| == |passes| && forall i | 0 <= i < |passes| :: PassEnds(passes[i], self) == None
    ensures verdict != StillWaiting ==>
              |unlocks| > 0 && PassEnds(passes[|unlocks| - 1], self) == Some(verdict)
              && forall i | 0 <= i < |unlocks| - 1 :: PassEnds(passes[i], self) == None
    ensures verdict == Ready ==> passes[|unlocks| - 1].outcome == Output([], false)
  {
    unlocks := [];
    var i := 0;
    while i < |passes|
      invariant 0 <= i == |unlocks| <= |passes|
      invariant forall j | 0 <= j < i :: (unlocks[j] <==> Unlocks(passes[j], self)) && PassEnds(passes[j], self) == None
    {
      var pass := passes[i];
      var listing := ListRepositoryLocks(pass.outcome);
      i := i + 1;
      if listing.None? {
        return ListingFailed, unlocks + [false];
      }
      if |listing.value.locks| == 0 && !listing.value.hasIDs {
        return Ready, unlocks + [false];
      }
      var held := HasCurrentInstanceLiveLock(listing.value.locks, pass.hostname, pass.table, self);
      unlocks := unlocks + [!held];
      if held {
        if !pass.tick {
          return Cancelled, unlocks;
        }
      } else if !pass.unlocked {
        return UnlockFailed, unlocks;
      }
    }
    verdict := StillWaiting;
  }

  /** With a known host name and decoded records, a listing that shows a lock of a live descendant never leads to
      `unlock --remove-all`. */
  lemma NeverUnlocksOwnLock(pass: Pass, self: int, records: seq<LockInfo>, hasIDs: bool, i: nat)
    requires pass.outcome == Output(records, hasIDs) && i < |records| && pass.hostname == Some(records[i].hostname)
    requires self > 1 && records[i].pid > 0 && records[i].pid in pass.table
            && DescendsFrom(pass.table, records[i].pid, self)
    ensures !Unlocks(pass, self)
  {
    assert IsOwn(pass.table, records[i].pid, self);
  }

  /** As process 1, the service takes every lock of its own children for a stranger's. */
  lemma Process1DisownsChildren(pass: Pass, records: seq<LockInfo>, hasIDs: bool)
    requires pass.outcome == Output(records, hasIDs) && records != [] && forall i | 0 <= i < |records| ::
            records[i].pid != 1
    ensures Unlocks(pass, 1)
  {
    assert forall i | 0 <= i < |records| :: !IsOwn(pass.table, records[i].pid, 1);
  }

  /** The passes said by what `restic list locks` gave: it ends the loop when the command fails and when it lists
      nothing; a lock error counts as a lock of a stranger, as do lock ids without a record; otherwise the locks are
      removed exactly when no record is this host's and this process's or a child's. */
  lemma PassesByOutcome(pass: Pass, self: int)
    ensures PassEnds(pass, self) == Some(ListingFailed) <==> pass.outcome.CommandError?
    ensures PassEnds(pass, self) == Some(Ready) <==> pass.outcome == Output([], false)
    ensures pass.outcome.LockError? ==> Unlocks(pass, self)
    ensures pass.outcome == Output([], true) ==> Unlocks(pass, self)
    ensures pass.outcome.Output? && pass.outcome.records != [] ==>
              (Unlocks(pass, self) <==> !HeldHere(pass.outcome.records, pass.hostname, pass.table, self))
    ensures Unlocks(pass, self) ==> PassEnds(pass, self) == if pass.unlocked then None else Some(UnlockFailed)
    ensures !Unlocks(pass, self) && pass.outcome.Output? && pass.outcome != Output([], false) ==>
              PassEnds(pass, self) == if pass.tick then None else Some(Cancelled)
  {
    var nobody := [LockInfo("", 0)];
    assert !HeldHere(nobody, pass.hostname, pass.table, self);
  }
}
