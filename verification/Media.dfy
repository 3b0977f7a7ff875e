/** Downloading pending media: a claim that takes turns between tenants, and rows that settle once. */
module Media {
  import opened Wrappers

  const SECOND := 1_000_000_000
  const HOUR := 3600 * SECOND
  const RETRY_WINDOW := 7 * 24 * HOUR

  datatype Status = Pending | Stored | Failed(reason: string)

  datatype Row = Row(tenant: nat, createdAt: int, status: Status, nextAttemptAt: int, attempts: nat)

  /** Media rows by message id. */
  type Rows = map<nat, Row>

  // The claim.

  /** A row a claim may take: pending, due, and of a tenant not closed. */
  predicate Due(rows: Rows, now: int, closed: set<nat>, id: nat) {
    && id in rows && rows[id].status.Pending? && rows[id].nextAttemptAt <= now && rows[id].tenant !in closed
  }

  predicate Older(rows: Rows, a: nat, b: nat)
    requires a in rows && b in rows
  {
    rows[a].createdAt < rows[b].createdAt || (rows[a].createdAt == rows[b].createdAt && a < b)
  }

  /** The due rows of the same tenant queued before this one. */
  function Ahead(rows: Rows, now: int, closed: set<nat>, id: nat): set<nat>
    requires id in rows
  {
    set other | other in rows && Due(rows, now, closed, other) && rows[other].tenant == rows[id].tenant && Older(rows, other, id)
  }

  /** A row's place in its tenant's queue, counting from one. */
  function Turn(rows: Rows, now: int, closed: set<nat>, id: nat): nat
    requires id in rows
  {
    |Ahead(rows, now, closed, id)| + 1
  }

  predicate ClaimedFirst(rows: Rows, now: int, closed: set<nat>, a: nat, b: nat)
    requires a in rows && b in rows
  {
    var turnA, turnB := Turn(rows, now, closed, a), Turn(rows, now, closed, b);
    turnA < turnB || (turnA == turnB && Older(rows, a, b))
  }

  /** What a claim answers: the first `limit` due rows by turn, then age, then id. */
  predicate Claims(rows: Rows, now: int, limit: nat, closed: set<nat>, claim: seq<nat>) {
    && |claim| <= limit
    && (forall i :: 0 <= i < |claim| ==> claim[i] in rows && Due(rows, now, closed, claim[i]))
    && (forall i, j :: 0 <= i < j < |claim| ==> ClaimedFirst(rows, now, closed, claim[i], claim[j]))
    && (forall id :: id in rows && Due(rows, now, closed, id) && id !in claim ==>
          |claim| == limit && forall i :: 0 <= i < |claim| ==> ClaimedFirst(rows, now, closed, claim[i], id))
  }

  /** An older row of one tenant takes an earlier turn. */
  lemma OlderTurn(rows: Rows, now: int, closed: set<nat>, a: nat, b: nat)
    requires a in rows && b in rows && Due(rows, now, closed, a)
    requires rows[a].tenant == rows[b].tenant && Older(rows, a, b)
    ensures Turn(rows, now, closed, a) < Turn(rows, now, closed, b)
  {
    var aheadA, aheadB := Ahead(rows, now, closed, a), Ahead(rows, now, closed, b);
    assert aheadA <= aheadB && a in aheadB && a !in aheadA;
    Fewer(aheadA, aheadB, a);
  }

  lemma Fewer(small: set<nat>, large: set<nat>, extra: nat)
    requires small <= large && extra in large && extra !in small
    ensures |small| < |large|
  {
    assert small <= large - {extra};
    Subset(small, large - {extra});
  }

  lemma {:induction false} Subset(small: set<nat>, large: set<nat>)
    requires small <= large
    ensures |small| <= |large|
    decreases small
  {
    if id :| id in small {
      Subset(small - {id}, large - {id});
    }
  }

  /** Each tenant's claimed rows are the oldest of its queue. */
  lemma ClaimTakesOldest(rows: Rows, now: int, limit: nat, closed: set<nat>, claim: seq<nat>, id: nat, older: nat)
    requires Claims(rows, now, limit, closed, claim) && id in claim
    requires older in rows && Due(rows, now, closed, older) && rows[older].tenant == rows[id].tenant && Older(rows, older, id)
    ensures older in claim
  {
    OlderTurn(rows, now, closed, older, id);
  }

  function ClaimedOf(rows: Rows, claim: seq<nat>, tenant: nat): set<nat> {
    set id | id in claim && id in rows && rows[id].tenant == tenant
  }

  /** The oldest due row of a tenant's queue that the claim left. */
  lemma OldestLeft(rows: Rows, now: int, closed: set<nat>, claim: seq<nat>, id: nat) returns (oldest: nat)
    requires id in rows && Due(rows, now, closed, id) && id !in claim
    ensures oldest in rows && Due(rows, now, closed, oldest) && oldest !in claim && rows[oldest].tenant == rows[id].tenant
    ensures forall other :: other in Ahead(rows, now, closed, oldest) ==> other in claim
    decreases Turn(rows, now, closed, id)
  {
    if other :| other in Ahead(rows, now, closed, id) && other !in claim {
      OlderTurn(rows, now, closed, other, id);
      oldest := OldestLeft(rows, now, closed, claim, other);
    } else {
      oldest := id;
    }
  }

  /** The newest row of a tenant that the claim took. */
  lemma NewestTaken(rows: Rows, now: int, closed: set<nat>, taken: set<nat>, id: nat) returns (newest: nat)
    requires id in taken && taken <= rows.Keys
    ensures newest in taken && forall other :: other in taken && other != newest ==> Older(rows, other, newest)
    decreases taken
  {
    var rest := taken - {id};
    assert forall other :: other in taken ==> other == id || other in rest;
    if other :| other in rest {
      newest := NewestTaken(rows, now, closed, rest, other);
      if Older(rows, newest, id) {
        newest := id;
      }
    } else {
      newest := id;
    }
  }

  /** While a tenant has due rows left unclaimed, no other tenant got more than one row beyond it. */
  lemma ClaimIsFair(rows: Rows, now: int, limit: nat, closed: set<nat>, claim: seq<nat>, left: nat, tenant: nat)
    requires Claims(rows, now, limit, closed, claim)
    requires left in rows && Due(rows, now, closed, left) && left !in claim
    ensures |ClaimedOf(rows, claim, tenant)| <= |ClaimedOf(rows, claim, rows[left].tenant)| + 1
  {
    var theirs, ours := ClaimedOf(rows, claim, tenant), ClaimedOf(rows, claim, rows[left].tenant);
    if id :| id in theirs {
      var a := OldestLeft(rows, now, closed, claim, left);
      var b := NewestTaken(rows, now, closed, theirs, id);
      var i :| 0 <= i < |claim| && claim[i] == b;
      assert ClaimedFirst(rows, now, closed, b, a);
      assert Ahead(rows, now, closed, a) <= ours;
      Subset(Ahead(rows, now, closed, a), ours);
      forall other | other in theirs - {b} ensures other in Ahead(rows, now, closed, b) {
        var j :| 0 <= j < |claim| && claim[j] == other;
      }
      Subset(theirs - {b}, Ahead(rows, now, closed, b));
    }
  }

  // What becomes of a row.

  /** Thirty seconds doubled for each attempt made, and an hour from the seventh on. */
  function Backoff(attempts: nat): int {
    if attempts >= 7 then HOUR else 30 * SECOND * Shift(attempts)
  }

  function Shift(n: nat): nat { if n == 0 then 1 else 2 * Shift(n - 1) }

  /** Every delay lies between thirty seconds and one hour, and each is twice the one before or else the hour. */
  lemma BackoffBounds(attempts: nat)
    ensures 30 * SECOND <= Backoff(attempts) <= HOUR && Backoff(attempts) <= Backoff(attempts + 1)
    ensures Backoff(0) == 30 * SECOND
    ensures Backoff(attempts + 1) == if 2 * Backoff(attempts) <= HOUR then 2 * Backoff(attempts) else HOUR
  {
    assert Shift(1) == 2 && Shift(2) == 4 && Shift(3) == 8 && Shift(4) == 16 && Shift(5) == 32 && Shift(6) == 64;
  }

  /** What the download of one row came to; each part is asked for only once the parts before it went well. */
  datatype Download = Download(credentials: bool, size: Option<nat>, data: Option<nat>, matches: bool)

  /** The row after one attempt to download it: stored, failed for good, or deferred. Its age was read at `checked`. */
  function Fetched(row: Row, claimed: Row, maxBytes: nat, download: Download, checked: int, now: int): Row {
    if !row.status.Pending? then row
    else if checked - claimed.createdAt > RETRY_WINDOW then row.(status := Failed("expired"))
    else if !download.credentials || download.size.None? then Deferred(row, claimed, now)
    else if download.size.value > maxBytes then row.(status := Failed("too_large"))
    else if download.data.None? then Deferred(row, claimed, now)
    else if download.data.value > maxBytes then row.(status := Failed("too_large"))
    else if !download.matches then Deferred(row, claimed, now)
    else row.(status := Stored)
  }

  function Deferred(row: Row, claimed: Row, now: int): Row {
    row.(attempts := row.attempts + 1, nextAttemptAt := now + Backoff(claimed.attempts))
  }

  /** A download of which every part arrived, in size and unspoiled. */
  predicate Good(download: Download, maxBytes: nat) {
    && download.credentials && download.size.Some? && download.size.value <= maxBytes
    && download.data.Some? && download.data.value <= maxBytes && download.matches
  }

  /** A size that was answered, or the data that followed a fitting one, past the limit. */
  predicate TooLarge(download: Download, maxBytes: nat) {
    && download.credentials && download.size.Some?
    && (download.size.value > maxBytes || (download.data.Some? && download.data.value > maxBytes))
  }

  /** Some part is missing, or all arrived in size and do not match. */
  predicate Spoiled(download: Download, maxBytes: nat) {
    !TooLarge(download, maxBytes)
    && (!download.credentials || download.size.None? || download.data.None? || !download.matches)
  }

  /**
   What a pending row comes to, each end exactly: stored when it was in its window and the
   download is good, failed by age past the window, failed by size in it, and deferred by
   the backoff of the attempts claimed when in it the download is spoiled.
   */
  predicate Resolved(before: Row, after: Row, claimed: Row, maxBytes: nat, download: Download, checked: int, now: int) {
    var inWindow := checked - before.createdAt <= 7 * 24 * HOUR;
    && after.createdAt == before.createdAt && after.tenant == before.tenant
    && (after.status == Stored <==> inWindow && Good(download, maxBytes))
    && (after.status == Failed("expired") <==> !inWindow)
    && (after.status == Failed("too_large") <==> inWindow && TooLarge(download, maxBytes))
    && (after.status == Pending <==> inWindow && Spoiled(download, maxBytes))
    && (after.status.Pending? ==>
          after.attempts == before.attempts + 1 && after.nextAttemptAt == now + Backoff(claimed.attempts))
    && (!after.status.Pending? ==> after.attempts == before.attempts && after.nextAttemptAt == before.nextAttemptAt)
  }

  /** An ended row stays as it is; a pending one is resolved, and if deferred then by thirty seconds to an hour. */
  lemma FetchSettlesOnce(row: Row, claimed: Row, maxBytes: nat, download: Download, checked: int, now: int)
    ensures var after := Fetched(row, claimed, maxBytes, download, checked, now);
      && (!row.status.Pending? ==> after == row)
      && (row.status.Pending? && claimed.createdAt == row.createdAt ==>
            Resolved(row, after, claimed, maxBytes, download, checked, now))
      && (after.status.Pending? ==>
            && after.attempts == row.attempts + 1
            && now + 30 * SECOND <= after.nextAttemptAt <= now + HOUR)
      && (after.status.Stored? && row.status.Pending? ==>
            download.matches && download.data.Some? && download.data.value <= maxBytes)
  {
    BackoffBounds(claimed.attempts);
    assert "expired"[0] != "too_large"[0];
  }

  // Whole runs of any number of fetchers.

  /** `claimed` is what each fetcher claimed and has not come to yet, as the rows were then. */
  datatype Sys = Sys(maxBytes: nat, rows: Rows, claimed: map<nat, map<nat, Row>>)

  /** A fetch whose last statement fails changes nothing; a sweep ends early when its time is over or its process is. */
  datatype Action =
    | Await(id: nat, tenant: nat, now: int)
    | Claim(fetcher: nat, claim: seq<nat>, limit: nat, closed: set<nat>, now: int)
    | Fetch(fetcher: nat, id: nat, download: Download, checked: int, now: int, works: bool)
    | Break(fetcher: nat)

  predicate Holds(s: Sys, fetcher: nat, id: nat) { fetcher in s.claimed && id in s.claimed[fetcher] }

  predicate Enabled(s: Sys, a: Action) {
    match a
    case Await(id, _, _) => id !in s.rows
    case Claim(fetcher, claim, limit, closed, now) => fetcher !in s.claimed && Claims(s.rows, now, limit, closed, claim)
    case Fetch(fetcher, id, _, _, _, _) => Holds(s, fetcher, id) && id in s.rows
    case Break(fetcher) => fetcher in s.claimed
  }

  function Apply(s: Sys, a: Action): Sys
    requires Enabled(s, a)
  {
    match a
    case Await(id, tenant, now) => s.(rows := s.rows[id := Row(tenant, now, Pending, now, 0)])
    case Claim(fetcher, claim, _, _, _) =>
      s.(claimed := s.claimed[fetcher := map id | id in claim && id in s.rows :: s.rows[id]])
    case Fetch(fetcher, id, download, checked, now, works) => Sys(
      s.maxBytes,
      if works then s.rows[id := Fetched(s.rows[id], s.claimed[fetcher][id], s.maxBytes, download, checked, now)] else s.rows,
      s.claimed[fetcher := s.claimed[fetcher] - {id}])
    case Break(fetcher) => s.(claimed := s.claimed - {fetcher})
  }

  predicate Steps(s: Sys, a: Action, s': Sys) { Enabled(s, a) && s' == Apply(s, a) }

  ghost predicate IsRun(states: seq<Sys>, actions: seq<Action>) {
    && |states| == |actions| + 1
    && states[0].rows == map[] && states[0].claimed == map[]
    && forall i :: 0 <= i < |actions| ==> Steps(states[i], actions[i], states[i + 1])
  }

  /** What was claimed is a row as it once was. */
  ghost predicate Inv(s: Sys) {
    forall fetcher, id :: Holds(s, fetcher, id) ==>
      id in s.rows && s.claimed[fetcher][id].createdAt == s.rows[id].createdAt
  }

  lemma StepHolds(s: Sys, a: Action)
    requires Inv(s) && Enabled(s, a)
    ensures Inv(Apply(s, a)) && Apply(s, a).maxBytes == s.maxBytes
  {
    hide Claims, Backoff;
    var s' := Apply(s, a);
    forall fetcher, id | Holds(s', fetcher, id)
      ensures id in s'.rows && s'.claimed[fetcher][id].createdAt == s'.rows[id].createdAt
    {
      if Holds(s, fetcher, id) {}
    }
  }

  lemma {:induction false} RunHolds(states: seq<Sys>, actions: seq<Action>, i: nat)
    requires IsRun(states, actions) && i < |states|
    ensures Inv(states[i]) && states[i].maxBytes == states[0].maxBytes
  {
    hide Inv, Apply, Enabled;
    if i == 0 {
      assert Inv(states[0]) by { NothingClaimed(states[0]); }
    } else {
      RunHolds(states, actions, i - 1);
      assert Steps(states[i - 1], actions[i - 1], states[i]);
      StepHolds(states[i - 1], actions[i - 1]);
    }
  }

  lemma NothingClaimed(s: Sys)
    requires s.claimed == map[]
    ensures Inv(s)
  {
  }

  /** A fetch of this row whose statement works. */
  predicate Resolves(a: Action, id: nat) { a.Fetch? && a.id == id && a.works }

  lemma OthersKeep(s: Sys, a: Action, id: nat)
    requires Enabled(s, a) && id in s.rows && (!s.rows[id].status.Pending? || !Resolves(a, id))
    ensures id in Apply(s, a).rows && Apply(s, a).rows[id] == s.rows[id]
  {
    hide Claims;
  }

  /** Stored and failed are for ever, however many fetchers claimed the row while it was pending. */
  lemma {:induction false} EndedStays(states: seq<Sys>, actions: seq<Action>, i: nat, j: nat, id: nat)
    requires IsRun(states, actions) && i <= j < |states| && id in states[i].rows && !states[i].rows[id].status.Pending?
    ensures id in states[j].rows && states[j].rows[id] == states[i].rows[id]
  {
    hide Apply, Enabled;
    if i < j {
      EndedStays(states, actions, i, j - 1, id);
      assert Steps(states[j - 1], actions[j - 1], states[j]);
      OthersKeep(states[j - 1], actions[j - 1], id);
    }
  }

  /** A row nobody resolves stays as it is: a failing statement leaves it pending and due as it was. */
  lemma {:induction false} UnresolvedStays(states: seq<Sys>, actions: seq<Action>, i: nat, j: nat, id: nat)
    requires IsRun(states, actions) && i <= j < |states| && id in states[i].rows
    requires forall k :: i <= k < j ==> !Resolves(actions[k], id)
    ensures id in states[j].rows && states[j].rows[id] == states[i].rows[id]
  {
    hide Apply, Enabled;
    if i < j {
      UnresolvedStays(states, actions, i, j - 1, id);
      assert Steps(states[j - 1], actions[j - 1], states[j]);
      OthersKeep(states[j - 1], actions[j - 1], id);
    }
  }

  /**
   What a fetch whose statement works makes of a pending row stands until the next one:
   stored exactly when all of the download arrived, fits and matches within the window,
   failed by age exactly past it, failed by size exactly when a size is past the limit, and
   otherwise due again thirty seconds to an hour on with one attempt more.
   */
  lemma ResolutionStands(states: seq<Sys>, actions: seq<Action>, i: nat, j: nat)
    requires IsRun(states, actions) && i < j < |states| && actions[i].Fetch? && actions[i].works
    requires forall k :: i < k < j ==> !Resolves(actions[k], actions[i].id)
    ensures var a := actions[i];
      a.id in states[i].rows && a.id in states[j].rows &&
      var before, after := states[i].rows[a.id], states[j].rows[a.id];
      && Holds(states[i], a.fetcher, a.id)
      && (!before.status.Pending? ==> after == before)
      && (before.status.Pending? ==>
            && Resolved(before, after, states[i].claimed[a.fetcher][a.id], states[0].maxBytes, a.download, a.checked, a.now)
            && (after.status.Pending? ==>
                  after.attempts == before.attempts + 1 && a.now + 30 * SECOND <= after.nextAttemptAt <= a.now + HOUR))
  {
    var a := actions[i];
    RunHolds(states, actions, i);
    assert Steps(states[i], a, states[i + 1]) && Holds(states[i], a.fetcher, a.id);
    FetchSettlesOnce(states[i].rows[a.id], states[i].claimed[a.fetcher][a.id], states[i].maxBytes, a.download, a.checked, a.now);
    hide Backoff, Claims;
    UnresolvedStays(states, actions, i + 1, j, a.id);
  }

  class MediaFetcher {
    const maxBytes: nat
    var rows: Rows

    constructor (maxBytes: nat)
      ensures this.maxBytes == maxBytes && rows == map[]
    {
      this.maxBytes := maxBytes;
      rows := map[];
    }

    /** A pending row is stored from here on; any other row, or a statement that fails, changes nothing. */
    method MarkStored(id: nat, works: bool)
      modifies this
      ensures rows == if works && id in old(rows) && old(rows)[id].status.Pending?
                      then old(rows)[id := old(rows)[id].(status := Stored)] else old(rows)
    {
      if works && id in rows && rows[id].status.Pending? {
        rows := rows[id := rows[id].(status := Stored)];
      }
    }

    method MarkFailed(id: nat, reason: string, works: bool)
      modifies this
      ensures rows == if works && id in old(rows) && old(rows)[id].status.Pending?
                      then old(rows)[id := old(rows)[id].(status := Failed(reason))] else old(rows)
    {
      if works && id in rows && rows[id].status.Pending? {
        rows := rows[id := rows[id].(status := Failed(reason))];
      }
    }

    method Reschedule(id: nat, nextAttemptAt: int, works: bool)
      modifies this
      ensures rows == if works && id in old(rows) && old(rows)[id].status.Pending?
                      then old(rows)[id := old(rows)[id].(attempts := old(rows)[id].attempts + 1, nextAttemptAt := nextAttemptAt)]
                      else old(rows)
    {
      if works && id in rows && rows[id].status.Pending? {
        rows := rows[id := rows[id].(attempts := rows[id].attempts + 1, nextAttemptAt := nextAttemptAt)];
      }
    }

    /** Resolves one claimed row to stored, rescheduled or failed, or leaves it when the statement that would fails. */
    method FetchOne(id: nat, claimed: Row, download: Download, checked: int, now: int, works: bool)
      modifies this
      ensures rows == if works && id in old(rows)
                      then old(rows)[id := Fetched(old(rows)[id], claimed, maxBytes, download, checked, now)] else old(rows)
    {
      ghost var was := rows;
      if checked - claimed.createdAt > RETRY_WINDOW {
        MarkFailed(id, "expired", works);
      } else if !download.credentials || download.size.None? {
        Reschedule(id, now + Backoff(claimed.attempts), works);
      } else if download.size.value > maxBytes {
        MarkFailed(id, "too_large", works);
      } else if download.data.None? {
        Reschedule(id, now + Backoff(claimed.attempts), works);
      } else if download.data.value > maxBytes {
        MarkFailed(id, "too_large", works);
      } else if !download.matches {
        Reschedule(id, now + Backoff(claimed.attempts), works);
      } else {
        MarkStored(id, works);
      }
      assert id in was ==> was[id := was[id]] == was;
    }

    /**
     Takes the claimed rows in turn, each at a time of its own; those whose statement
     fails, as every one does once the sweep's time is over, stay as they are, and so do
     the rows outside the claim.
     */
    method Sweep(claim: seq<nat>, downloads: map<nat, Download>, clocks: map<nat, (int, int)>, failing: set<nat>)
      requires forall i, j :: 0 <= i < j < |claim| ==> claim[i] != claim[j]
      requires forall i :: 0 <= i < |claim| ==> claim[i] in rows && claim[i] in downloads && claim[i] in clocks
      modifies this
      ensures rows.Keys == old(rows).Keys
      ensures forall id :: id in rows && (id !in claim || id in failing) ==> rows[id] == old(rows)[id]
      ensures forall id :: id in rows && id in claim && id !in failing ==>
        rows[id] == Fetched(old(rows)[id], old(rows)[id], maxBytes, downloads[id], clocks[id].0, clocks[id].1)
    {
      ghost var was := rows;
      hide Fetched;
      var pending := seq(|claim|, i requires 0 <= i < |claim| reads this requires claim[i] in rows => rows[claim[i]]);
      for at := 0 to |claim|
        invariant rows.Keys == was.Keys
        invariant forall id :: id in rows && (id !in claim[..at] || id in failing) ==> rows[id] == was[id]
        invariant forall i :: 0 <= i < at && claim[i] !in failing ==>
          rows[claim[i]] == Fetched(was[claim[i]], was[claim[i]], maxBytes, downloads[claim[i]], clocks[claim[i]].0, clocks[claim[i]].1)
      {
        var id := claim[at];
        assert id !in claim[..at];
        FetchOne(id, pending[at], downloads[id], clocks[id].0, clocks[id].1, id !in failing);
      }
      assert claim[..|claim|] == claim;
    }
  }

  /** Closed to a claim is every due tenant whose gate did not say yes. */
  method ClosedTenants(due: seq<nat>, records: map<nat, Option<bool>>) returns (closed: set<nat>)
    requires forall i :: 0 <= i < |due| ==> due[i] in records
    ensures forall tenant :: tenant in closed <==> tenant in due && records[tenant] != Some(true)
  {
    closed := {};
    for i := 0 to |due|
      invariant forall tenant :: tenant in closed <==> tenant in due[..i] && records[tenant] != Some(true)
    {
      if records[due[i]].None? || !records[due[i]].value {
        closed := closed + {due[i]};
      }
    }
    assert due[..|due|] == due;
  }
}
