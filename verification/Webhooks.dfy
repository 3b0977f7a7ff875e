/** Delivering webhooks: leases, backoff and a retry window, over any run of one worker. */
module Webhooks {
  import opened Wrappers

  const SECOND := 1_000_000_000
  const HOUR := 3600 * SECOND
  const RETRY_WINDOW := 24 * HOUR
  const BASE_BACKOFF := 30 * SECOND
  const MAX_BACKOFF := HOUR
  const SWEEP_LEASE := 5 * 60 * SECOND
  const SWEEP_BATCH := 50
  const MAX_INT64 := 0x7fff_ffff_ffff_ffff

  // Backoff.

  function Shifted(delay: int, n: nat): int {
    if n == 0 then delay else 2 * Shifted(delay, n - 1)
  }

  function Least(a: int, b: int): int { if a <= b then a else b }

  /** Thirty seconds doubled for each failure after the first, and never more than an hour. */
  function Backoff(attempts: nat): int
    requires attempts >= 1
  {
    var delay := Shifted(BASE_BACKOFF, Least(attempts - 1, 16));
    if delay > MAX_BACKOFF || delay <= 0 then MAX_BACKOFF else delay
  }

  lemma {:induction false} ShiftedGrows(delay: int, n: nat, m: nat)
    requires delay > 0 && n <= m
    ensures 0 < Shifted(delay, n) <= Shifted(delay, m)
  {
    if n < m {
      ShiftedGrows(delay, n, m - 1);
    } else if n > 0 {
      ShiftedGrows(delay, n - 1, m - 1);
    }
  }

  lemma EightShifts()
    ensures Shifted(BASE_BACKOFF, 6) == 1920 * SECOND && Shifted(BASE_BACKOFF, 7) == 3840 * SECOND
    ensures Shifted(BASE_BACKOFF, 16) <= MAX_INT64
  {
    assert Shifted(BASE_BACKOFF, 1) == 60 * SECOND && Shifted(BASE_BACKOFF, 2) == 120 * SECOND;
    assert Shifted(BASE_BACKOFF, 3) == 240 * SECOND && Shifted(BASE_BACKOFF, 4) == 480 * SECOND;
    assert Shifted(BASE_BACKOFF, 5) == 960 * SECOND && Shifted(BASE_BACKOFF, 6) == 1920 * SECOND;
    assert Shifted(BASE_BACKOFF, 8) == 7680 * SECOND && Shifted(BASE_BACKOFF, 9) == 15360 * SECOND;
    assert Shifted(BASE_BACKOFF, 10) == 30720 * SECOND && Shifted(BASE_BACKOFF, 11) == 61440 * SECOND;
    assert Shifted(BASE_BACKOFF, 12) == 122880 * SECOND && Shifted(BASE_BACKOFF, 13) == 245760 * SECOND;
    assert Shifted(BASE_BACKOFF, 14) == 491520 * SECOND && Shifted(BASE_BACKOFF, 15) == 983040 * SECOND;
  }

  /** From one attempt on, backoff lies between thirty seconds and one hour, never shrinks and never leaves an int64. */
  lemma BackoffBounds(attempts: nat)
    requires attempts >= 1
    ensures BASE_BACKOFF <= Backoff(attempts) <= MAX_BACKOFF
    ensures Backoff(attempts) <= Backoff(attempts + 1)
    ensures 0 < Shifted(BASE_BACKOFF, Least(attempts - 1, 16)) <= MAX_INT64
    ensures attempts >= 8 ==> Backoff(attempts) == HOUR
    ensures Backoff(1) == 30 * SECOND
    ensures Backoff(attempts + 1) == if 2 * Backoff(attempts) <= HOUR then 2 * Backoff(attempts) else HOUR
  {
    EightShifts();
    var n, m := Least(attempts - 1, 16), Least(attempts, 16);
    ShiftedGrows(BASE_BACKOFF, 0, n);
    ShiftedGrows(BASE_BACKOFF, n, m);
    ShiftedGrows(BASE_BACKOFF, n, 16);
    if attempts >= 8 {
      ShiftedGrows(BASE_BACKOFF, 7, n);
    }
  }

  predicate Exhausted(createdAt: int, now: int) { now - createdAt >= RETRY_WINDOW }

  // The queue.

  datatype Status = Pending | Delivered | Failed

  /** `lost` counts the claims no settle followed. */
  datatype Delivery = Delivery(createdAt: int, attempts: nat, deliverAfter: int, status: Status, lost: nat)

  /** `claimed` is when the worker took each delivery it has not settled. */
  datatype Sys = Sys(clock: int, queue: map<nat, Delivery>, claimed: map<nat, int>)

  /** What one attempt came to. */
  datatype Outcome = Accepted | OwnerDisabled | Refused

  function Claimed(d: Delivery, lease: int): Delivery {
    d.(attempts := d.attempts + 1, deliverAfter := lease)
  }

  /** An attempt settled at `now`, its age having been read at `checked`. */
  function Settled(d: Delivery, outcome: Outcome, checked: int, now: int): Delivery
    requires d.attempts >= 1
  {
    match outcome
    case Accepted => d.(status := Delivered, deliverAfter := now)
    case OwnerDisabled => d.(status := Failed, deliverAfter := now)
    case Refused =>
      if Exhausted(d.createdAt, checked) then d.(status := Failed, deliverAfter := now)
      else d.(status := Pending, deliverAfter := now + Backoff(d.attempts))
  }

  datatype Action =
    | Enqueue(id: nat, now: int)
    | Claim(ids: set<nat>, now: int)
    | Settle(id: nat, outcome: Outcome, checked: int, now: int)
    | Crash

  predicate DueAt(queue: map<nat, Delivery>, id: nat, now: int) {
    id in queue && queue[id].status.Pending? && queue[id].deliverAfter <= now
  }

  /** One worker claims again only once it settled what it had claimed; clocks do not go back. */
  predicate Enabled(s: Sys, a: Action) {
    match a
    case Enqueue(id, now) => id !in s.queue && now >= s.clock
    case Claim(ids, now) => now >= s.clock && s.claimed == map[] && forall id :: id in ids ==> DueAt(s.queue, id, now)
    case Settle(id, _, checked, now) => id in s.claimed && id in s.queue && s.clock <= checked <= now && s.queue[id].attempts >= 1
    case Crash => true
  }

  function Apply(s: Sys, a: Action): Sys
    requires Enabled(s, a)
  {
    match a
    case Enqueue(id, now) => s.(clock := now, queue := s.queue[id := Delivery(now, 0, now, Pending, 0)])
    case Claim(ids, now) => Sys(
      now,
      map id | id in s.queue :: if id in ids then Claimed(s.queue[id], now + SWEEP_LEASE) else s.queue[id],
      map id | id in ids :: now)
    case Settle(id, outcome, checked, now) => Sys(
      now, s.queue[id := Settled(s.queue[id], outcome, checked, now)], s.claimed - {id})
    case Crash => s.(
      queue := map id | id in s.queue ::
        if id in s.claimed then s.queue[id].(lost := s.queue[id].lost + 1) else s.queue[id],
      claimed := map[])
  }

  predicate Start(s: Sys) { s.queue == map[] && s.claimed == map[] }

  predicate Steps(s: Sys, a: Action, s': Sys) { Enabled(s, a) && s' == Apply(s, a) }

  ghost predicate IsRun(states: seq<Sys>, actions: seq<Action>) {
    && |states| == |actions| + 1
    && Start(states[0])
    && forall i :: 0 <= i < |actions| ==> Steps(states[i], actions[i], states[i + 1])
  }

  // What every reachable state keeps.

  /** The least that many settled failures hold a delivery back. */
  function Held(failures: nat): int {
    if failures == 0 then 0 else Held(failures - 1) + Backoff(failures)
  }

  lemma {:induction false} HeldGrows(n: nat, m: nat)
    requires n <= m
    ensures Held(n) <= Held(m)
  {
    if n < m {
      HeldGrows(n, m - 1);
      BackoffBounds(m);
    }
  }

  lemma {:induction false} HeldPastSeven(n: nat)
    requires n >= 7
    ensures Held(n) == 3810 * SECOND + (n - 7) * HOUR
  {
    if n == 7 {
      EightShifts();
      assert Shifted(BASE_BACKOFF, 5) == 960 * SECOND && Shifted(BASE_BACKOFF, 4) == 480 * SECOND;
      assert Shifted(BASE_BACKOFF, 3) == 240 * SECOND && Shifted(BASE_BACKOFF, 2) == 120 * SECOND;
      assert Backoff(1) == 30 * SECOND && Backoff(2) == 60 * SECOND && Backoff(3) == 120 * SECOND;
      assert Backoff(4) == 240 * SECOND && Backoff(5) == 480 * SECOND && Backoff(6) == 960 * SECOND;
      assert Backoff(7) == 1920 * SECOND;
      assert Held(1) == 30 * SECOND && Held(2) == 90 * SECOND && Held(3) == 210 * SECOND;
      assert Held(4) == 450 * SECOND && Held(5) == 930 * SECOND && Held(6) == 1890 * SECOND;
    } else {
      HeldPastSeven(n - 1);
      BackoffBounds(n);
      assert (n - 8) * HOUR + HOUR == (n - 7) * HOUR;
    }
  }

  /** Thirty failures hold a delivery back past its retry window, and no fewer do. */
  lemma ThirtyFailures(n: nat)
    ensures Held(n) < RETRY_WINDOW <==> n < 30
  {
    HeldPastSeven(29);
    HeldPastSeven(30);
    if n < 30 { HeldGrows(n, 29); } else { HeldGrows(30, n); }
  }

  /** The failures settled so far have held the delivery back; only a settle within the window leaves it pending. */
  predicate DeliverySound(d: Delivery, claimedAt: Option<int>) {
    match claimedAt
    case None =>
      && d.attempts >= d.lost
      && (d.status.Pending? ==>
            d.attempts - d.lost <= 30 && d.deliverAfter >= d.createdAt + Held(d.attempts - d.lost))
      && d.attempts - d.lost <= 31
    case Some(at) =>
      && d.status.Pending? && d.attempts > d.lost && d.attempts - d.lost - 1 <= 30
      && at >= d.createdAt + Held(d.attempts - d.lost - 1) && d.deliverAfter == at + SWEEP_LEASE
  }

  function ClaimedAt(s: Sys, id: nat): Option<int> {
    if id in s.claimed then Some(s.claimed[id]) else None
  }

  predicate Inv(s: Sys) {
    && (forall id :: id in s.claimed ==> id in s.queue && s.claimed[id] <= s.clock)
    && forall id :: id in s.queue ==> DeliverySound(s.queue[id], ClaimedAt(s, id))
  }

  lemma SettleHolds(d: Delivery, at: int, outcome: Outcome, checked: int, now: int)
    requires DeliverySound(d, Some(at)) && at <= checked <= now
    ensures DeliverySound(Settled(d, outcome, checked, now), None)
  {
    var n := d.attempts - d.lost - 1;
    ThirtyFailures(n);
    BackoffsAtLeast(n + 1, d.attempts);
  }

  /** A failure counted later holds back no less. */
  lemma {:induction false} BackoffsAtLeast(n: nat, m: nat)
    requires 1 <= n <= m
    ensures Backoff(n) <= Backoff(m)
  {
    if n < m {
      BackoffsAtLeast(n, m - 1);
      BackoffBounds(m - 1);
    }
  }

  lemma StepHolds(s: Sys, a: Action)
    requires Inv(s) && Enabled(s, a)
    ensures Inv(Apply(s, a))
  {
    match a
    case Settle(id, outcome, checked, now) =>
      SettleHolds(s.queue[id], s.claimed[id], outcome, checked, now);
      hide DeliverySound, Settled;
      assert forall other :: other != id ==> ClaimedAt(Apply(s, a), other) == ClaimedAt(s, other);
    case Crash => CrashHolds(s);
    case _ =>
  }

  lemma CrashHolds(s: Sys)
    requires Inv(s)
    ensures Inv(Apply(s, Crash))
  {
    hide Held;
  }

  lemma {:induction false} RunHolds(states: seq<Sys>, actions: seq<Action>, i: nat)
    requires IsRun(states, actions) && i < |states|
    ensures Inv(states[i])
  {
    hide Apply, Enabled;
    if i > 0 {
      RunHolds(states, actions, i - 1);
      assert Steps(states[i - 1], actions[i - 1], states[i]);
      StepHolds(states[i - 1], actions[i - 1]);
    }
  }

  /** A delivery is attempted at most 31 times besides the claims that were lost. */
  lemma AttemptsBounded(states: seq<Sys>, actions: seq<Action>, i: nat, id: nat)
    requires IsRun(states, actions) && i < |states| && id in states[i].queue
    ensures states[i].queue[id].attempts <= 31 + states[i].queue[id].lost
  {
    RunHolds(states, actions, i);
    assert DeliverySound(states[i].queue[id], ClaimedAt(states[i], id));
  }

  /** A refused delivery fails only at 24 hours of age; before that it is due again between thirty seconds and an hour on. */
  lemma SettleDefersOrEnds(d: Delivery, outcome: Outcome, checked: int, now: int)
    requires d.attempts >= 1
    ensures var after := Settled(d, outcome, checked, now);
      && (outcome == Refused ==> (after.status.Failed? <==> checked - d.createdAt >= RETRY_WINDOW))
      && (after.status.Delivered? <==> outcome == Accepted)
      && (after.status.Pending? ==> now + BASE_BACKOFF <= after.deliverAfter <= now + HOUR)
  {
    BackoffBounds(d.attempts);
  }

  predicate Claims(a: Action, id: nat) { a.Claim? && id in a.ids }

  lemma StandsOn(s: Sys, a: Action, id: nat)
    requires Enabled(s, a) && id in s.queue && id !in s.claimed && !Claims(a, id)
    ensures id in Apply(s, a).queue && id !in Apply(s, a).claimed && Apply(s, a).queue[id] == s.queue[id]
  {
  }

  /**
   Until it is claimed again a settled delivery stays delivered, or failed, a refused one
   only at 24 hours of age, or due between thirty seconds and an hour after that settle.
   */
  lemma {:induction false} SettleStands(
    states: seq<Sys>, actions: seq<Action>, i: nat, j: nat, id: nat, outcome: Outcome, checked: int, now: int)
    requires IsRun(states, actions) && i < j < |states| && actions[i] == Settle(id, outcome, checked, now)
    requires forall k :: i < k < j ==> !Claims(actions[k], id)
    ensures id in states[i].queue && id in states[j].queue && id !in states[j].claimed
    ensures var before, d := states[i].queue[id], states[j].queue[id];
      && d.createdAt == before.createdAt && d.attempts == before.attempts
      && (d.status.Delivered? <==> outcome == Accepted)
      && (d.status.Failed? <==> outcome == OwnerDisabled || (outcome == Refused && checked - d.createdAt >= RETRY_WINDOW))
      && (d.status.Pending? ==> d.attempts >= 1 && d.deliverAfter == now + Backoff(d.attempts))
      && (d.status.Pending? ==> now + BASE_BACKOFF <= d.deliverAfter <= now + HOUR)
  {
    hide Inv, Backoff;
    assert Steps(states[j - 1], actions[j - 1], states[j]);
    if j == i + 1 {
      SettleDefersOrEnds(states[i].queue[id], outcome, checked, now);
    } else {
      SettleStands(states, actions, i, j - 1, id, outcome, checked, now);
      StandsOn(states[j - 1], actions[j - 1], id);
    }
  }

  /** A delivery once queued is due from then on until it is claimed. */
  lemma {:induction false} QueuedIsDue(states: seq<Sys>, actions: seq<Action>, i: nat, j: nat, id: nat, now: int, later: int)
    requires IsRun(states, actions) && i < j < |states| && actions[i] == Enqueue(id, now) && now <= later
    requires forall k :: i < k < j ==> !Claims(actions[k], id)
    ensures DueAt(states[j].queue, id, later) && id !in states[j].claimed
    ensures states[j].queue[id].createdAt == now && states[j].queue[id].attempts == 0
  {
    RunHolds(states, actions, i);
    assert Steps(states[j - 1], actions[j - 1], states[j]);
    hide Inv, Held;
    if j > i + 1 {
      QueuedIsDue(states, actions, i, j - 1, id, now, later);
      StandsOn(states[j - 1], actions[j - 1], id);
    }
  }

  /** A delivery delivered or failed stays as it is. */
  lemma {:induction false} EndedStays(states: seq<Sys>, actions: seq<Action>, i: nat, j: nat, id: nat)
    requires IsRun(states, actions) && i <= j < |states| && id in states[i].queue && !states[i].queue[id].status.Pending?
    ensures id in states[j].queue && states[j].queue[id] == states[i].queue[id]
  {
    hide Settled, Held;
    if i < j {
      EndedStays(states, actions, i, j - 1, id);
      RunHolds(states, actions, j - 1);
      assert Steps(states[j - 1], actions[j - 1], states[j]);
      assert DeliverySound(states[j - 1].queue[id], ClaimedAt(states[j - 1], id));
      StandsOn(states[j - 1], actions[j - 1], id);
    }
  }

  /** A claim that is lost leaves its delivery due again at its lease. */
  lemma LostClaimFallsDue(states: seq<Sys>, actions: seq<Action>, i: nat, id: nat)
    requires IsRun(states, actions) && i < |actions| && actions[i] == Crash
    requires id in states[i].claimed
    ensures id in states[i + 1].queue && states[i + 1].queue[id].status.Pending?
    ensures states[i + 1].queue[id].deliverAfter == states[i].claimed[id] + 5 * 60 * SECOND
  {
    RunHolds(states, actions, i);
    assert Steps(states[i], actions[i], states[i + 1]);
    assert DeliverySound(states[i].queue[id], ClaimedAt(states[i], id));
  }

  // The bound is met.

  /** A queue holding one delivery, made at time zero. */
  function Alone(clock: int, attempts: nat, due: int): Sys {
    Sys(clock, map[0 := Delivery(0, attempts, due, Pending, 0)], map[])
  }

  function AloneClaimed(attempts: nat, now: int): Sys {
    Sys(now, map[0 := Delivery(0, attempts, now + SWEEP_LEASE, Pending, 0)], map[0 := now])
  }

  lemma ClaimAlone(clock: int, attempts: nat, due: int)
    requires clock <= due
    ensures Enabled(Alone(clock, attempts, due), Claim({0}, due))
    ensures Apply(Alone(clock, attempts, due), Claim({0}, due)) == AloneClaimed(attempts + 1, due)
  {
  }

  lemma RefuseAlone(attempts: nat, now: int)
    requires attempts >= 1 && now < RETRY_WINDOW
    ensures var settle := Settle(0, Refused, now, now);
      && Enabled(AloneClaimed(attempts, now), settle)
      && Apply(AloneClaimed(attempts, now), settle) == Alone(now, attempts, now + Backoff(attempts))
  {
    hide Backoff;
    assert map[0 := now] - {0} == map[];
  }

  lemma StepOn(states: seq<Sys>, actions: seq<Action>, a: Action)
    requires IsRun(states, actions) && Enabled(states[|states| - 1], a)
    ensures IsRun(states + [Apply(states[|states| - 1], a)], actions + [a])
  {
    var states', actions' := states + [Apply(states[|states| - 1], a)], actions + [a];
    forall i | 0 <= i < |actions'| ensures Steps(states'[i], actions'[i], states'[i + 1]) {
      if i < |actions| { assert Steps(states[i], actions[i], states[i + 1]); }
    }
  }

  /** A delivery refused at once each time it falls due. */
  lemma {:induction false} RefusedRun(n: nat) returns (states: seq<Sys>, actions: seq<Action>, clock: int)
    requires n <= 30
    ensures IsRun(states, actions) && clock <= Held(n) && states[|states| - 1] == Alone(clock, n, Held(n))
  {
    if n == 0 {
      var empty := Sys(0, map[], map[]);
      StepOn([empty], [], Enqueue(0, 0));
      states, actions, clock := [empty] + [Apply(empty, Enqueue(0, 0))], [] + [Enqueue(0, 0)], 0;
    } else {
      states, actions, clock := RefusedRun(n - 1);
      var due := Held(n - 1);
      ThirtyFailures(n - 1);
      HeldGrows(n - 1, n);
      assert Held(n) == due + Backoff(n);
      hide Held, Backoff, Apply, Enabled, IsRun, Alone, AloneClaimed;
      ClaimAlone(clock, n - 1, due);
      RefuseAlone(n, due);
      StepOn(states, actions, Claim({0}, due));
      states, actions := states + [AloneClaimed(n, due)], actions + [Claim({0}, due)];
      StepOn(states, actions, Settle(0, Refused, due, due));
      states, actions := states + [Alone(due, n, due + Backoff(n))], actions + [Settle(0, Refused, due, due)];
      clock := due;
    }
  }

  /** Some delivery is attempted 31 times with no claim lost. */
  lemma ThirtyOneReached() returns (states: seq<Sys>, actions: seq<Action>)
    ensures IsRun(states, actions) && 0 in states[|states| - 1].queue
    ensures states[|states| - 1].queue[0].attempts == 31 && states[|states| - 1].queue[0].lost == 0
  {
    hide Held, Apply, Enabled, IsRun;
    var clock: int;
    states, actions, clock := RefusedRun(30);
    ClaimAlone(clock, 30, Held(30));
    StepOn(states, actions, Claim({0}, Held(30)));
    states, actions := states + [AloneClaimed(31, Held(30))], actions + [Claim({0}, Held(30))];
  }

  // The worker over its queue.

  predicate DueBefore(queue: map<nat, Delivery>, a: nat, b: nat)
    requires a in queue && b in queue
  {
    queue[a].deliverAfter < queue[b].deliverAfter || (queue[a].deliverAfter == queue[b].deliverAfter && a < b)
  }

  /** What a claim takes: the first `limit` due deliveries, by when they fell due and then by id. */
  predicate TakesDue(queue: map<nat, Delivery>, now: int, limit: nat, ids: seq<nat>) {
    && |ids| <= limit
    && (forall i :: 0 <= i < |ids| ==> ids[i] in queue && DueAt(queue, ids[i], now))
    && (forall i, j :: 0 <= i < j < |ids| ==> DueBefore(queue, ids[i], ids[j]))
    && forall id :: id in queue && DueAt(queue, id, now) && id !in ids ==>
         |ids| == limit && forall i :: 0 <= i < |ids| ==> DueBefore(queue, ids[i], id)
  }

  /** A delivery that was claimed and, when that worked, settled. */
  function Swept(d: Delivery, now: int, outcome: Outcome, clocks: (int, int), works: bool): Delivery {
    var claimed := Claimed(d, now + SWEEP_LEASE);
    if works then Settled(claimed, outcome, clocks.0, clocks.1) else claimed
  }

  class Worker {
    var queue: map<nat, Delivery>

    constructor ()
      ensures queue == map[]
    {
      queue := map[];
    }

    /** Counts an attempt against each claimed delivery and holds it until its lease. */
    method ClaimDue(ids: seq<nat>, now: int)
      requires TakesDue(queue, now, SWEEP_BATCH, ids)
      modifies this
      ensures queue.Keys == old(queue).Keys
      ensures forall id :: id in queue ==>
        queue[id] == if id in ids then Claimed(old(queue)[id], now + SWEEP_LEASE) else old(queue)[id]
    {
      queue := map id | id in queue ::
        if id in ids then queue[id].(attempts := queue[id].attempts + 1, deliverAfter := now + SWEEP_LEASE) else queue[id];
    }

    /** Settles one claimed delivery by what its attempt came to; a settle the queue refuses leaves it held until its lease. */
    method Attempt(id: nat, outcome: Outcome, checked: int, now: int, works: bool)
      requires id in queue && queue[id].attempts >= 1
      modifies this
      ensures queue == if works then old(queue)[id := Settled(old(queue)[id], outcome, checked, now)] else old(queue)
    {
      if outcome == Accepted {
        Settle(id, Delivered, now, works);
        return;
      }
      if outcome == OwnerDisabled {
        Settle(id, Failed, now, works);
        return;
      }
      if Exhausted(queue[id].createdAt, checked) {
        Settle(id, Failed, now, works);
        return;
      }
      Settle(id, Pending, now + Backoff(queue[id].attempts), works);
    }

    method Settle(id: nat, status: Status, deliverAfter: int, works: bool)
      requires id in queue
      modifies this
      ensures queue == if works then old(queue)[id := old(queue)[id].(status := status, deliverAfter := deliverAfter)]
                       else old(queue)
    {
      if works {
        queue := queue[id := queue[id].(status := status, deliverAfter := deliverAfter)];
      }
    }

    /** Claims what is due and attempts every delivery claimed. */
    method Sweep(ids: seq<nat>, outcomes: map<nat, Outcome>, clocks: map<nat, (int, int)>, failing: set<nat>, now: int)
      requires TakesDue(queue, now, SWEEP_BATCH, ids) && forall i :: 0 <= i < |ids| ==> ids[i] in outcomes && ids[i] in clocks
      modifies this
      ensures queue.Keys == old(queue).Keys
      ensures forall id :: id in queue && id !in ids ==> queue[id] == old(queue)[id]
      ensures forall id :: id in queue && id in ids ==>
        queue[id] == Swept(old(queue)[id], now, outcomes[id], clocks[id], id !in failing)
    {
      ghost var was := queue;
      ClaimDue(ids, now);
      hide Settled, DueAt;
      for at := 0 to |ids|
        invariant queue.Keys == was.Keys
        invariant forall id :: id in queue && id !in ids ==> queue[id] == was[id]
        invariant forall i :: at <= i < |ids| ==> queue[ids[i]] == Claimed(was[ids[i]], now + SWEEP_LEASE)
        invariant forall i :: 0 <= i < at ==>
          queue[ids[i]] == Swept(was[ids[i]], now, outcomes[ids[i]], clocks[ids[i]], ids[i] !in failing)
      {
        var id := ids[at];
        assert forall i :: 0 <= i < |ids| && i != at ==> ids[i] != id;
        Attempt(id, outcomes[id], clocks[id].0, clocks[id].1, id !in failing);
      }
    }
  }
}
