/** The refresh planner: which repositories a round queues, and why none waits for ever. */
module Planner {
  import opened Wrappers
  import opened Ordering
  import CacheTables

  const MAX_QUEUES_PER_ROUND: nat := 4

  datatype Candidate = Candidate(repo: int, domain: string, priority: int, dueAt: int, updatedAt: int)

  /** What the planner reads of the sync state of a repository. */
  datatype Row = Row(status: CacheTables.Status, updatedAt: int)

  datatype World = World(rows: map<int, Row>, active: set<int>)

  predicate NeedsRefresh(status: CacheTables.Status) {
    status == CacheTables.Stale || status == CacheTables.Failed || status == CacheTables.Interrupted
  }

  predicate Less(a: Candidate, b: Candidate) {
    if a.priority != b.priority then a.priority < b.priority
    else if a.dueAt != b.dueAt then a.dueAt < b.dueAt
    else if a.updatedAt != b.updatedAt then a.updatedAt < b.updatedAt
    else if a.repo != b.repo then a.repo < b.repo
    else LexLess(a.domain, b.domain)
  }

  lemma LessStrict(s: set<Candidate>)
    ensures StrictOn(Less, s)
  {
    forall x: Candidate, y: Candidate ensures (x == y || Less(x, y) || Less(y, x)) && !Less(x, x) {
      LexIrreflexive(x.domain);
      LexTrichotomy(x.domain, y.domain);
    }
    forall x: Candidate, y: Candidate, z: Candidate | Less(x, y) && Less(y, z) ensures Less(x, z) {
      if LexLess(x.domain, y.domain) && LexLess(y.domain, z.domain) { LexTransitive(x.domain, y.domain, z.domain); }
    }
  }

  predicate IsDue(w: World, repo: int) {
    repo !in w.active && repo in w.rows && NeedsRefresh(w.rows[repo].status)
  }

  function CandidateOf(w: World, repo: int): Candidate
    requires repo in w.rows
  {
    Candidate(repo, "core", 0, w.rows[repo].updatedAt, w.rows[repo].updatedAt)
  }

  function Due(w: World, repos: set<int>): set<Candidate> {
    set repo | repo in repos && IsDue(w, repo) :: CandidateOf(w, repo)
  }

  ghost function Planned(w: World, repos: set<int>): seq<Candidate> {
    LessStrict(Due(w, repos));
    var all := Sorted(Less, Due(w, repos));
    if |all| > MAX_QUEUES_PER_ROUND then all[..MAX_QUEUES_PER_ROUND] else all
  }

  /** A round that can read every state queues the least candidates; one that cannot queues nothing. */
  method PlanRefreshRound(repos: seq<int>, w: World, unreadable: set<int>) returns (round: Option<seq<Candidate>>)
    ensures round.None? <==> exists i | 0 <= i < |repos| :: repos[i] !in w.active && repos[i] in unreadable
    ensures round.Some? ==> round.value == Planned(w, Elements(repos))
  {
    var found := CollectCandidates(repos, w, unreadable);
    if found.None? {
      return None;
    }
    LessStrict(found.value);
    var sorted := SortSet(Less, found.value);
    round := Some(if |sorted| > MAX_QUEUES_PER_ROUND then sorted[..MAX_QUEUES_PER_ROUND] else sorted);
  }

  method CollectCandidates(repos: seq<int>, w: World, unreadable: set<int>) returns (found: Option<set<Candidate>>)
    ensures found.None? <==> exists i | 0 <= i < |repos| :: repos[i] !in w.active && repos[i] in unreadable
    ensures found.Some? ==> found.value == Due(w, Elements(repos))
  {
    var candidates: set<Candidate> := {};
    var i := 0;
    while i < |repos|
      invariant 0 <= i <= |repos|
      invariant candidates == Due(w, Elements(repos[..i]))
      invariant forall j | 0 <= j < i :: repos[j] in w.active || repos[j] !in unreadable
    {
      var repo := repos[i];
      DueGrows(w, repos, i);
      if repo !in w.active {
        if repo in unreadable {
          return None;
        }
        if repo in w.rows && NeedsRefresh(w.rows[repo].status) {
          candidates := candidates + {Candidate(repo, "core", 0, w.rows[repo].updatedAt, w.rows[repo].updatedAt)};
        }
      }
      i := i + 1;
    }
    assert repos[..i] == repos;
    found := Some(candidates);
  }

  lemma DueGrows(w: World, repos: seq<int>, i: nat)
    requires i < |repos|
    ensures Due(w, Elements(repos[..i + 1]))
            == Due(w, Elements(repos[..i])) + if IsDue(w, repos[i]) then {CandidateOf(w, repos[i])} else {}
  {
    assert Elements(repos[..i + 1]) == Elements(repos[..i]) + {repos[i]};
  }

  // ---- what a round picks ----

  ghost function Picked(w: World, repos: set<int>): set<Candidate> {
    Elements(Planned(w, repos))
  }

  function Ahead(due: set<Candidate>, c: Candidate): set<Candidate> {
    set x | x in due && Less(x, c)
  }

  lemma PicksThePrefix(w: World, repos: set<int>) returns (all: seq<Candidate>, planned: seq<Candidate>)
    ensures Ascending(Less, all) && Elements(all) == Due(w, repos) && |all| == |Due(w, repos)|
    ensures planned == Planned(w, repos)
            == if |all| > MAX_QUEUES_PER_ROUND then all[..MAX_QUEUES_PER_ROUND] else all
  {
    LessStrict(Due(w, repos));
    all, planned := Sorted(Less, Due(w, repos)), Planned(w, repos);
  }

  lemma PrefixComesFirst(all: seq<Candidate>, n: nat, x: Candidate, y: Candidate)
    requires Ascending(Less, all) && n <= |all| && x in all[..n] && y in all && y !in all[..n]
    ensures Less(x, y)
  {
    var i :| 0 <= i < n && all[i] == x;
    var j :| 0 <= j < |all| && all[j] == y;
    assert forall h | 0 <= h < n :: all[h] in all[..n];
  }

  /** At most four, all due, and everything that is left out comes after everything picked. */
  lemma PicksTheLeast(w: World, repos: set<int>)
    ensures Picked(w, repos) <= Due(w, repos)
    ensures |Picked(w, repos)| == if |Due(w, repos)| > MAX_QUEUES_PER_ROUND then MAX_QUEUES_PER_ROUND
            else |Due(w, repos)|
    ensures forall x, y | x in Picked(w, repos) && y in Due(w, repos) - Picked(w, repos) :: Less(x, y)
  {
    var all, planned := PicksThePrefix(w, repos);
    assert planned == all[..|planned|];
    AscendingCount(planned);
    forall x, y | x in Picked(w, repos) && y in Due(w, repos) - Picked(w, repos) ensures Less(x, y) {
      assert y in Elements(all);
      PrefixComesFirst(all, |planned|, x, y);
    }
    assert forall x | x in planned :: x in Elements(all);
  }

  lemma {:induction false} AscendingCount(r: seq<Candidate>)
    requires Ascending(Less, r)
    ensures |Elements(r)| == |r|
    decreases |r|
  {
    if r != [] {
      var init, last := r[..|r| - 1], r[|r| - 1];
      AscendingCount(init);
      assert Elements(r) == Elements(init) + {last};
      LessStrict({last});
      assert last !in init by {
        assert forall i | 0 <= i < |init| :: Less(init[i], last);
      }
    }
  }

  lemma SubsetCount(a: set<Candidate>, b: set<Candidate>)
    requires a <= b
    ensures |a| <= |b|
  {
    assert b == a + (b - a);
  }

  /** Whoever is not picked saw a full round of candidates ahead of it picked. */
  lemma LeftOutBehindFour(w: World, repos: set<int>, c: Candidate)
    requires c in Due(w, repos) && c !in Picked(w, repos)
    ensures |Picked(w, repos)| == MAX_QUEUES_PER_ROUND
    ensures Picked(w, repos) <= Ahead(Due(w, repos), c)
  {
    PicksTheLeast(w, repos);
    if |Due(w, repos)| <= MAX_QUEUES_PER_ROUND {
      SubsetCount(Picked(w, repos) + {c}, Due(w, repos));
    }
  }

  // ---- nobody starves ----

  /** A sync of the repository is running or was just queued. */
  ghost predicate Touched(w: World, repos: set<int>, repo: int) {
    repo in w.active || exists x | x in Picked(w, repos) :: x.repo == repo
  }

  predicate Untouched(w: World, w': World, repo: int) {
    && (repo in w'.active <==> repo in w.active) && (repo in w'.rows <==> repo in w.rows)
    && (repo in w.rows ==> w'.rows[repo] == w.rows[repo])
  }

  /** From one round to the next only queued and running syncs change rows. */
  ghost predicate OnlyTouchedChange(w: World, w': World, repos: set<int>) {
    forall repo | repo in repos && !Touched(w, repos, repo) :: Untouched(w, w', repo)
  }

  /** The candidates whose sync left no later update time: its first state write failed. */
  ghost function Stuck(w: World, w': World, repos: set<int>, now: int): set<Candidate> {
    set repo | repo in repos && Touched(w, repos, repo) && IsDue(w', repo) && w'.rows[repo].updatedAt <= now
      :: CandidateOf(w', repo)
  }

  /** Every touched repository is active, no longer due, or has a later update time. */
  ghost predicate Passes(w: World, w': World, repos: set<int>, now: int) {
    OnlyTouchedChange(w, w', repos) && Stuck(w, w', repos, now) == {}
  }

  lemma StaysDue(w: World, w': World, repos: set<int>, c: Candidate)
    requires OnlyTouchedChange(w, w', repos) && c in Due(w, repos) && c !in Picked(w, repos)
    ensures c in Due(w', repos)
  {
    PicksTheLeast(w, repos);
    assert forall x | x in Picked(w, repos) && x.repo == c.repo :: x in Due(w, repos) && x == c;
    assert !Touched(w, repos, c.repo);
  }

  lemma NotStuckComesLater(w: World, w': World, repos: set<int>, now: int, c: Candidate, repo: int)
    requires c.dueAt <= now && c.priority == 0 && repo in repos && IsDue(w', repo)
    ensures Touched(w, repos, repo) ==>
              CandidateOf(w', repo) in Stuck(w, w', repos, now) || !Less(CandidateOf(w', repo), c)
  {
  }

  lemma PickedIsTouched(w: World, repos: set<int>, repo: int)
    requires repo in w.rows && !Touched(w, repos, repo)
    ensures CandidateOf(w, repo) !in Picked(w, repos)
  {
  }

  /** Who is ahead after a round was ahead before it and not picked, or is stuck. */
  lemma AheadAfter(w: World, w': World, repos: set<int>, now: int, c: Candidate)
    requires OnlyTouchedChange(w, w', repos) && c.dueAt <= now && c.priority == 0
    ensures Ahead(Due(w', repos), c) <= (Ahead(Due(w, repos), c) - Picked(w, repos)) + Stuck(w, w', repos, now)
  {
    forall x | x in Ahead(Due(w', repos), c) && x !in Stuck(w, w', repos, now)
      ensures x in Ahead(Due(w, repos), c) - Picked(w, repos) {
      var repo :| repo in repos && IsDue(w', repo) && CandidateOf(w', repo) == x;
      NotStuckComesLater(w, w', repos, now, c, repo);
      assert Untouched(w, w', repo);
      assert CandidateOf(w, repo) == x && IsDue(w, repo);
      PickedIsTouched(w, repos, repo);
    }
  }

  /** Between two rounds four go from ahead of a candidate that is waiting, and only the stuck come back. */
  lemma QueueMoves(w: World, w': World, repos: set<int>, now: int, c: Candidate)
    requires OnlyTouchedChange(w, w', repos) && c in Due(w, repos) && c !in Picked(w, repos) && c.dueAt <= now
    ensures |Ahead(Due(w', repos), c)| + MAX_QUEUES_PER_ROUND
            <= |Ahead(Due(w, repos), c)| + |Stuck(w, w', repos, now)|
  {
    LeftOutBehindFour(w, repos, c);
    AheadAfter(w, w', repos, now, c);
    CountMoves(Ahead(Due(w', repos), c), Ahead(Due(w, repos), c), Picked(w, repos), Stuck(w, w', repos, now));
  }

  lemma CountMoves(now: set<Candidate>, before: set<Candidate>, gone: set<Candidate>, back: set<Candidate>)
    requires now <= (before - gone) + back && gone <= before
    ensures |now| + |gone| <= |before| + |back|
  {
    SubsetCount(now, (before - gone) + back);
    UnionBound(before - gone, back);
    assert before == (before - gone) + gone;
  }

  lemma UnionBound(a: set<Candidate>, b: set<Candidate>)
    ensures |a + b| <= |a| + |b|
  {
    assert a + b == a + (b - a);
    SubsetCount(b - a, b);
  }

  /** Between two rounds in which no sync is stuck nobody new gets ahead of a candidate that is waiting. */
  lemma QueueShortens(w: World, w': World, repos: set<int>, now: int, c: Candidate)
    requires Passes(w, w', repos, now) && c in Due(w, repos) && c !in Picked(w, repos) && c.dueAt <= now
    ensures |Ahead(Due(w', repos), c)| + MAX_QUEUES_PER_ROUND <= |Ahead(Due(w, repos), c)|
  {
    QueueMoves(w, w', repos, now, c);
  }

  /** How often between round `i` and round `end` a sync was stuck. */
  ghost function TotalStuck(worlds: seq<World>, nows: seq<int>, repos: set<int>, i: nat, end: nat): nat
    requires |worlds| == |nows| + 1 && i <= end < |worlds|
    decreases end - i
  {
    if i == end then 0
    else |Stuck(worlds[i], worlds[i + 1], repos, nows[i])| + TotalStuck(worlds, nows, repos, i + 1, end)
  }

  /** The rounds follow each other, and come after the candidate fell due. */
  ghost predicate Follows(worlds: seq<World>, nows: seq<int>, repos: set<int>, c: Candidate) {
    && |worlds| == |nows| + 1
    && forall i | 0 <= i < |nows| :: OnlyTouchedChange(worlds[i], worlds[i + 1], repos) && c.dueAt <= nows[i]
  }

  lemma WaitsOneRound(w: World, w': World, repos: set<int>, now: int, c: Candidate)
    requires OnlyTouchedChange(w, w', repos) && c in Due(w, repos) && c !in Picked(w, repos) && c.dueAt <= now
    ensures c in Due(w', repos)
    ensures |Ahead(Due(w', repos), c)| + MAX_QUEUES_PER_ROUND
            <= |Ahead(Due(w, repos), c)| + |Stuck(w, w', repos, now)|
  {
    StaysDue(w, w', repos, c);
    QueueMoves(w, w', repos, now, c);
  }

  lemma LeftOutHasFourAhead(w: World, repos: set<int>, c: Candidate)
    requires c in Due(w, repos) && c !in Picked(w, repos)
    ensures |Ahead(Due(w, repos), c)| >= MAX_QUEUES_PER_ROUND
  {
    LeftOutBehindFour(w, repos, c);
    SubsetCount(Picked(w, repos), Ahead(Due(w, repos), c));
  }

  /** A candidate with k others ahead of it in round `i` is picked by round `end` when four times the rounds pass k and
      the times a sync was stuck. */
  lemma {:induction false} PickedDespiteStuck(worlds: seq<World>, nows: seq<int>, repos: set<int>, c: Candidate,
                                              i: nat, end: nat)
      returns (round: nat)
    requires Follows(worlds, nows, repos, c) && i <= end < |worlds| && c in Due(worlds[i], repos)
    requires MAX_QUEUES_PER_ROUND * (end - i + 1)
             > |Ahead(Due(worlds[i], repos), c)| + TotalStuck(worlds, nows, repos, i, end)
    ensures i <= round <= end && c in Picked(worlds[round], repos)
    decreases end - i
  {
    if c in Picked(worlds[i], repos) {
      round := i;
    } else {
      LeftOutHasFourAhead(worlds[i], repos, c);
      WaitsOneRound(worlds[i], worlds[i + 1], repos, nows[i], c);
      round := PickedDespiteStuck(worlds, nows, repos, c, i + 1, end);
    }
  }

  /** The rounds follow each other, and in none of them a sync is stuck. */
  ghost predicate AllPass(worlds: seq<World>, nows: seq<int>, repos: set<int>, c: Candidate) {
    && |worlds| == |nows| + 1
    && forall i | 0 <= i < |nows| :: Passes(worlds[i], worlds[i + 1], repos, nows[i]) && c.dueAt <= nows[i]
  }

  lemma {:induction false} NoneStuck(worlds: seq<World>, nows: seq<int>, repos: set<int>, c: Candidate,
                                     i: nat, end: nat)
    requires AllPass(worlds, nows, repos, c) && i <= end < |worlds|
    ensures TotalStuck(worlds, nows, repos, i, end) == 0
    decreases end - i
  {
    if i < end {
      assert Passes(worlds[i], worlds[i + 1], repos, nows[i]);
      NoneStuck(worlds, nows, repos, c, i + 1, end);
    }
  }

  /** When no sync is stuck, a candidate with k others ahead of it is picked within k / 4 + 1 rounds. */
  lemma NobodyStarves(worlds: seq<World>, nows: seq<int>, repos: set<int>, c: Candidate) returns (round: nat)
    requires AllPass(worlds, nows, repos, c) && c in Due(worlds[0], repos)
    requires |worlds| > |Ahead(Due(worlds[0], repos), c)| / MAX_QUEUES_PER_ROUND
    ensures round <= |Ahead(Due(worlds[0], repos), c)| / MAX_QUEUES_PER_ROUND && round < |worlds|
    ensures c in Picked(worlds[round], repos)
  {
    var k := |Ahead(Due(worlds[0], repos), c)|;
    AllPassFollows(worlds, nows, repos, c);
    NoneStuck(worlds, nows, repos, c, 0, k / MAX_QUEUES_PER_ROUND);
    EnoughRounds(k);
    round := PickedDespiteStuck(worlds, nows, repos, c, 0, k / MAX_QUEUES_PER_ROUND);
  }

  lemma AllPassFollows(worlds: seq<World>, nows: seq<int>, repos: set<int>, c: Candidate)
    requires AllPass(worlds, nows, repos, c)
    ensures Follows(worlds, nows, repos, c)
  {
    forall i | 0 <= i < |nows| ensures OnlyTouchedChange(worlds[i], worlds[i + 1], repos) {
      assert Passes(worlds[i], worlds[i + 1], repos, nows[i]);
    }
  }

  lemma EnoughRounds(k: nat)
    ensures MAX_QUEUES_PER_ROUND * (k / MAX_QUEUES_PER_ROUND + 1) > k
  {
  }

  // ---- a round, said by the rows it reads ----

  /** A repository is due when no sync of it runs and the state it left is stale, failed or interrupted. */
  ghost predicate WantsSync(w: World, repo: int) {
    && repo !in w.active && repo in w.rows
    && w.rows[repo].status != CacheTables.Running && w.rows[repo].status != CacheTables.Successful
  }

  function Wanting(w: World, repos: set<int>): set<int> {
    set repo | repo in repos && repo !in w.active && repo in w.rows
               && w.rows[repo].status in {CacheTables.Stale, CacheTables.Failed, CacheTables.Interrupted}
  }

  lemma {:induction false} ImageCount(w: World, repos: set<int>)
    requires forall repo | repo in repos :: IsDue(w, repo)
    ensures |Due(w, repos)| == |repos|
    decreases |repos|
  {
    if repos != {} {
      assert (forall r :: r !in repos) ==> repos == {};
      var repo :| repo in repos;
      ImageCount(w, repos - {repo});
      assert Due(w, repos) == Due(w, repos - {repo}) + {CandidateOf(w, repo)};
      assert CandidateOf(w, repo) !in Due(w, repos - {repo});
    }
  }

  /** The state of the first was left before that of the second; equal times go by number. */
  predicate LeftBefore(w: World, first: int, second: int) {
    && first in w.rows && second in w.rows
    && (w.rows[first].updatedAt < w.rows[second].updatedAt
        || (w.rows[first].updatedAt == w.rows[second].updatedAt && first < second))
  }

  /** A round queues repositories that want a sync, all of them up to four; and of the others it leaves out only those
      whose state is not older than that of any it queues. */
  lemma RoundByRows(w: World, repos: set<int>)
    ensures |Picked(w, repos)| == if |Wanting(w, repos)| > 4 then 4 else |Wanting(w, repos)|
    ensures forall x | x in Picked(w, repos) :: x.repo in repos && WantsSync(w, x.repo) && x.domain == "core"
    ensures forall x, repo | x in Picked(w, repos) && repo in repos && WantsSync(w, repo)
              && !(exists y | y in Picked(w, repos) :: y.repo == repo) ::
              LeftBefore(w, x.repo, repo)
  {
    PicksTheLeast(w, repos);
    WantingIsDue(w, repos);
    forall x, repo | x in Picked(w, repos) && repo in repos && WantsSync(w, repo)
        && !(exists y | y in Picked(w, repos) :: y.repo == repo)
      ensures LeftBefore(w, x.repo, repo) {
      var y := CandidateOf(w, repo);
      assert IsDue(w, repo) && y in Due(w, repos) - Picked(w, repos) && Less(x, y);
      assert x in Due(w, repos);
      LexIrreflexive("core");
    }
  }

  lemma WantingIsDue(w: World, repos: set<int>)
    ensures |Due(w, repos)| == |Wanting(w, repos)|
    ensures forall repo :: WantsSync(w, repo) <==> IsDue(w, repo)
    ensures forall x | x in Due(w, repos) ::
              x.repo in repos && WantsSync(w, x.repo) && x.domain == "core" && x == CandidateOf(w, x.repo)
  {
    var wanting := Wanting(w, repos);
    assert forall repo :: repo in wanting <==> repo in repos && IsDue(w, repo);
    assert Due(w, repos) == Due(w, wanting);
    ImageCount(w, wanting);
  }
}
