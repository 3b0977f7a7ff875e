/** What every reachable state of the catalogue protocol keeps, and what follows for whole runs. */
module CatalogSafety {
  import opened Wrappers
  import opened FieldTypes
  import opened CatalogProtocol

  /** Whether later callers of its tenant still join f. */
  predicate Current(s: Sys, f: nat)
    requires f < |s.readings|
  {
    s.readings[f].tenant in s.cat.flights && s.cat.flights[s.readings[f].tenant] == f
  }

  /**
   A flight others can join is unfinished, and nobody stopped or overtook it. A
   stopped flight is finished, overtaken or waited on by nobody. A cancelled read
   answers nobody: it was overtaken, or its last waiter left.
   */
  predicate FlightLive(flight: FlightState, reading: Reading, waiters: nat, epoch: nat, floor: nat, current: bool) {
    && reading.epoch <= epoch
    && (reading.epoch == epoch ==> reading.floor == floor)
    && flight.waiting >= waiters
    && (current ==>
          && reading.epoch == epoch && flight.outcome == None
          && !flight.stopped && !flight.overtaken && flight.waiting >= 1)
    && (!current ==> flight.stopped)
    && (flight.outcome == None ==> flight.waiting == waiters)
    && (flight.outcome == None && flight.stopped ==> flight.overtaken || waiters == 0)
    && (reading.state.Read? && reading.state.answer == Failed(Cancelled) ==>
          flight.stopped && (flight.overtaken || waiters == 0))
  }

  function LiveIn(history: seq<Database>, version: nat, t: Tenant): seq<Definition>
    requires version < |history|
  {
    if t in history[version] then history[version][t] else []
  }

  predicate IssuedFor(issued: map<nat, Issue>, stamp: nat, t: Tenant, fields: seq<GraphField>) {
    stamp in issued && issued[stamp] == Issue(t, fields)
  }

  /**
   What a flight read is what was live at a version no older than the floor it
   began after, and what it handed over is what it read under a stamp issued for it.
   */
  predicate FlightTrue(
    reading: Reading, outcome: Option<Answer>, history: seq<Database>, issued: map<nat, Issue>)
  {
    match reading.state
    case Unread => outcome == None && reading.floor < |history|
    case Read(version, answer) =>
      && reading.floor <= version < |history|
      && (answer.Found? ==> answer.view == ViewOf(LiveIn(history, version, reading.tenant), answer.view.read))
      && match outcome
         case None => true
         case Some(Failed(e)) => answer == Failed(e)
         case Some(Found(view)) =>
           answer == Found(view.(stamp := 0)) && IssuedFor(issued, view.stamp, reading.tenant, view.fields)
  }

  ghost predicate FlightSound(s: Sys, f: nat)
    requires f < |s.cat.flying| == |s.readings|
  {
    var t := s.readings[f].tenant;
    && FlightLive(s.cat.flying[f], s.readings[f], |s.Waiters(f)|, s.Epoch(t), s.Floor(t), Current(s, f))
    && FlightTrue(s.readings[f], s.cat.flying[f].outcome, s.history, s.issued)
  }

  /** A held view was handed over by a flight that began after the tenant's last forget. */
  predicate HeldSound(t: Tenant, view: View, reading: Reading, flight: FlightState, epoch: nat) {
    reading.tenant == t && reading.epoch == epoch && flight.outcome == Some(Found(view))
  }

  /** A call is answered by a flight of its tenant that began no earlier than the call's floor. */
  predicate CallerSound(caller: Caller, readings: seq<Reading>, flying: seq<FlightState>, floor: nat) {
    && caller.floor <= floor
    && match caller.phase
       case Waiting(f) =>
         f < |readings| && readings[f].tenant == caller.tenant && caller.floor <= readings[f].floor
       case Answered(answer, f) =>
         && f < |readings| && readings[f].tenant == caller.tenant && caller.floor <= readings[f].floor
         && f < |flying| && flying[f].outcome == Some(answer) && answer != Failed(Cancelled)
       case _ => true
  }

  predicate Shaped(s: Sys) {
    && |s.history| > 0
    && |s.readings| == |s.cat.flying|
    && (forall t :: t in s.floors ==> s.floors[t] < |s.history|)
    && (forall t :: t in s.cat.flights ==> s.cat.flights[t] < |s.readings| && s.readings[s.cat.flights[t]].tenant == t)
    && (forall k :: k in s.issued ==> 0 < k <= s.cat.stamped)
  }

  ghost predicate FlightsSound(s: Sys)
    requires |s.readings| == |s.cat.flying|
  {
    forall f :: 0 <= f < |s.readings| ==> FlightSound(s, f)
  }

  predicate ViewsSound(s: Sys) {
    forall t :: t in s.cat.views ==>
      && t in s.origin && s.origin[t] < |s.readings| && s.origin[t] < |s.cat.flying|
      && HeldSound(t, s.cat.views[t], s.readings[s.origin[t]], s.cat.flying[s.origin[t]], s.Epoch(t))
  }

  predicate CallersSound(s: Sys) {
    forall w :: w in s.callers ==>
      CallerSound(s.callers[w], s.readings, s.cat.flying, s.Floor(s.callers[w].tenant))
  }

  ghost predicate Inv(s: Sys) {
    Shaped(s) && FlightsSound(s) && ViewsSound(s) && CallersSound(s)
  }

  lemma StartHolds(s: Sys)
    requires Start(s)
    ensures Inv(s)
  {
  }

  lemma TrueKept(
    reading: Reading, outcome: Option<Answer>,
    history: seq<Database>, issued: map<nat, Issue>, history': seq<Database>, issued': map<nat, Issue>)
    requires FlightTrue(reading, outcome, history, issued) && history <= history'
    requires forall k :: k in issued ==> k in issued' && issued'[k] == issued[k]
    ensures FlightTrue(reading, outcome, history', issued')
  {
    if reading.state.Read? {
      assert history'[reading.state.version] == history[reading.state.version];
    }
  }

  /** Moving one caller moves it alone among the waiters of each flight. */
  lemma Recount(s: Sys, s': Sys, who: Who, f: nat)
    requires who in s'.callers && s'.callers == s.callers[who := s'.callers[who]]
    ensures s'.callers[who].phase == Waiting(f) && who !in s.Waiters(f) ==> |s'.Waiters(f)| == |s.Waiters(f)| + 1
    ensures s'.callers[who].phase != Waiting(f) && who in s.Waiters(f) ==> |s'.Waiters(f)| == |s.Waiters(f)| - 1
    ensures s'.callers[who].phase != Waiting(f) && who !in s.Waiters(f) ==> |s'.Waiters(f)| == |s.Waiters(f)|
  {
    assert s'.callers[who].phase == Waiting(f) ==> s'.Waiters(f) == s.Waiters(f) + {who};
    assert s'.callers[who].phase != Waiting(f) ==> s'.Waiters(f) == s.Waiters(f) - {who};
  }

  /** A stamp is either new or was issued to this tenant for these very fields. */
  lemma StampIsOwn(s: Sys, t: Tenant, fields: seq<GraphField>)
    requires Inv(s)
    ensures var (stamped, stamp) := StampFor(s.cat.views, s.cat.stamped, t, fields);
      && 0 < stamp <= stamped
      && (stamp in s.issued ==> s.issued[stamp] == Issue(t, fields))
  {
    if t in s.cat.views && s.cat.views[t].fields == fields {
      assert FlightSound(s, s.origin[t]);
    }
  }

  lemma SoundAt(s: Sys, f: nat)
    requires Shaped(s) && FlightsSound(s) && f < |s.readings|
    ensures FlightSound(s, f)
  {
  }

  /** A flight a step leaves alone stays sound, whatever its tenant's later epochs. */
  lemma FlightKept(s: Sys, s': Sys, f: nat)
    requires f < |s.cat.flying| == |s.readings| && f < |s'.cat.flying| == |s'.readings|
    requires FlightSound(s, f)
    requires s'.cat.flying[f] == s.cat.flying[f] && s'.readings[f] == s.readings[f]
    requires |s'.Waiters(f)| == |s.Waiters(f)| && Current(s', f) == Current(s, f)
    requires var t := s.readings[f].tenant;
      (s'.Epoch(t) == s.Epoch(t) && s'.Floor(t) == s.Floor(t)) || (s'.Epoch(t) > s.Epoch(t) && !Current(s, f))
    requires s.history <= s'.history && forall k :: k in s.issued ==> k in s'.issued && s'.issued[k] == s.issued[k]
    ensures FlightSound(s', f)
  {
    TrueKept(s.readings[f], s.cat.flying[f].outcome, s.history, s.issued, s'.history, s'.issued);
  }

  lemma NobodyWaitsYet(s: Sys, f: nat)
    requires CallersSound(s) && f >= |s.readings|
    ensures |s.Waiters(f)| == 0
  {
    assert s.Waiters(f) == {};
  }

  /** A call stays sound as flights are added, floors rise and finished flights stay as they are. */
  lemma CallerKept(s: Sys, s': Sys, who: Who)
    requires CallersSound(s) && who in s.callers && |s.readings| <= |s'.readings| && |s.cat.flying| <= |s'.cat.flying|
    requires forall f :: 0 <= f < |s.readings| ==> s'.readings[f] == s.readings[f].(state := s'.readings[f].state)
    requires forall f :: 0 <= f < |s.cat.flying| && s.cat.flying[f].outcome.Some? ==>
      s'.cat.flying[f].outcome == s.cat.flying[f].outcome
    requires s.Floor(s.callers[who].tenant) <= s'.Floor(s.callers[who].tenant)
    ensures CallerSound(s.callers[who], s'.readings, s'.cat.flying, s'.Floor(s.callers[who].tenant))
  {
  }

  // Joining.

  /** Joining answers from the cache, or waits on the current flight, or starts one; it changes nothing else. */
  lemma JoinChanges(s: Sys, who: Who, now: int)
    requires Ready(s) && Shaped(s) && CanJoin(s, who)
    ensures var s', t, n := AfterJoin(s, who, now), s.callers[who].tenant, |s.readings|;
      && s'.history == s.history && s'.epochs == s.epochs && s'.floors == s.floors && s'.issued == s.issued
      && s'.origin == s.origin && s'.cat.views == s.cat.views && s'.cat.stamped == s.cat.stamped
      && who in s'.callers && s'.callers == s.callers[who := s.callers[who].(phase := s'.callers[who].phase)]
      && if Fresh(s.cat, t, now) then
           && s'.cat == s.cat && s'.readings == s.readings
           && s'.callers[who].phase == Answered(Found(s.cat.views[t]), s.origin[t])
         else if t in s.cat.flights then
           var f := s.cat.flights[t];
           && s'.readings == s.readings && s'.cat.flights == s.cat.flights
           && s'.cat.flying == s.cat.flying[f := s.cat.flying[f].(waiting := s.cat.flying[f].waiting + 1)]
           && s'.callers[who].phase == Waiting(f)
         else
           && s'.readings == s.readings + [Reading(t, s.Epoch(t), s.Floor(t), Unread)]
           && s'.cat.flights == s.cat.flights[t := n]
           && s'.cat.flying == s.cat.flying + [FlightState(1, false, false, None)]
           && s'.callers[who].phase == Waiting(n)
  {
  }

  lemma JoinShaped(s: Sys, who: Who, now: int)
    requires Inv(s) && CanJoin(s, who)
    ensures Shaped(AfterJoin(s, who, now)) && ViewsSound(AfterJoin(s, who, now))
  {
    hide AfterJoin, FlightsSound, CallersSound;
    JoinChanges(s, who, now);
    JoinViews(s, who, now);
  }

  lemma JoinViews(s: Sys, who: Who, now: int)
    requires Inv(s) && CanJoin(s, who)
    ensures ViewsSound(AfterJoin(s, who, now))
  {
    hide AfterJoin, FlightsSound, CallersSound, Fresh;
    JoinChanges(s, who, now);
  }

  lemma JoinedFlight(s: Sys, who: Who, now: int, f: nat)
    requires Inv(s) && CanJoin(s, who) && f < |s.readings| <= |AfterJoin(s, who, now).readings|
    requires |AfterJoin(s, who, now).cat.flying| == |AfterJoin(s, who, now).readings|
    requires AfterJoin(s, who, now).callers[who].phase == Waiting(f)
    ensures FlightSound(AfterJoin(s, who, now), f)
  {
    JoinChanges(s, who, now);
    SoundAt(s, f);
    hide AfterJoin, FlightsSound, ViewsSound, CallersSound, FlightTrue;
    Recount(s, AfterJoin(s, who, now), who, f);
  }

  lemma JoinFlight(s: Sys, who: Who, now: int, f: nat)
    requires Inv(s) && CanJoin(s, who) && f < |s.readings| <= |AfterJoin(s, who, now).readings|
    requires |AfterJoin(s, who, now).cat.flying| == |AfterJoin(s, who, now).readings|
    ensures FlightSound(AfterJoin(s, who, now), f)
  {
    var s' := AfterJoin(s, who, now);
    JoinChanges(s, who, now);
    SoundAt(s, f);
    hide AfterJoin, FlightSound, FlightsSound, ViewsSound, CallersSound;
    if s'.callers[who].phase == Waiting(f) {
      JoinedFlight(s, who, now, f);
    } else {
      Recount(s, s', who, f);
      FlightKept(s, s', f);
    }
  }

  lemma JoinNewFlight(s: Sys, who: Who, now: int)
    requires Inv(s) && CanJoin(s, who) && |s.readings| < |AfterJoin(s, who, now).readings|
    requires |AfterJoin(s, who, now).readings| == |AfterJoin(s, who, now).cat.flying|
    ensures FlightSound(AfterJoin(s, who, now), |s.readings|)
  {
    JoinChanges(s, who, now);
    NobodyWaitsYet(s, |s.readings|);
    hide AfterJoin, FlightsSound, ViewsSound, CallersSound;
    Recount(s, AfterJoin(s, who, now), who, |s.readings|);
  }

  lemma JoinCaller(s: Sys, who: Who, now: int)
    requires Inv(s) && CanJoin(s, who)
    ensures var s' := AfterJoin(s, who, now);
      CallerSound(s'.callers[who], s'.readings, s'.cat.flying, s'.Floor(s'.callers[who].tenant))
  {
    var t := s.callers[who].tenant;
    JoinChanges(s, who, now);
    if t in s.cat.views { SoundAt(s, s.origin[t]); }
    if t in s.cat.flights { SoundAt(s, s.cat.flights[t]); }
    hide AfterJoin, FlightsSound, FlightTrue;
  }

  lemma JoinCallers(s: Sys, who: Who, now: int)
    requires Inv(s) && CanJoin(s, who)
    ensures CallersSound(AfterJoin(s, who, now))
  {
    var s' := AfterJoin(s, who, now);
    JoinCaller(s, who, now);
    JoinChanges(s, who, now);
    hide AfterJoin, CallerSound, FlightsSound, ViewsSound;
    forall w | w in s.callers && w != who
      ensures CallerSound(s'.callers[w], s'.readings, s'.cat.flying, s'.Floor(s'.callers[w].tenant))
    {
      CallerKept(s, s', w);
    }
  }

  lemma JoinHolds(s: Sys, who: Who, now: int)
    requires Inv(s) && CanJoin(s, who)
    ensures Inv(AfterJoin(s, who, now))
  {
    var s' := AfterJoin(s, who, now);
    JoinShaped(s, who, now);
    JoinChanges(s, who, now);
    hide AfterJoin, FlightsSound, ViewsSound, CallersSound;
    JoinFlights(s, who, now);
    JoinCallers(s, who, now);
  }

  lemma JoinFlights(s: Sys, who: Who, now: int)
    requires Inv(s) && CanJoin(s, who) && |s.readings| <= |AfterJoin(s, who, now).readings| <= |s.readings| + 1
    requires |AfterJoin(s, who, now).readings| == |AfterJoin(s, who, now).cat.flying|
    ensures FlightsSound(AfterJoin(s, who, now))
  {
    var s' := AfterJoin(s, who, now);
    hide AfterJoin, FlightSound;
    forall f | 0 <= f < |s'.readings| ensures FlightSound(s', f) {
      if f < |s.readings| { JoinFlight(s, who, now, f); } else { JoinNewFlight(s, who, now); }
    }
  }

  // Fetching.

  lemma FetchFlight(s: Sys, f: nat, now: int, fetched: Fetched, g: nat)
    requires Inv(s) && CanFetch(s, f, fetched) && g < |s.readings|
    ensures FlightSound(AfterFetch(s, f, now, fetched), g)
  {
    var s' := AfterFetch(s, f, now, fetched);
    SoundAt(s, g);
    assert s'.Waiters(g) == s.Waiters(g);
    hide FlightsSound, ViewsSound, CallersSound;
    if g != f {
      hide FlightLive, FlightTrue;
      FlightKept(s, s', g);
    }
  }

  lemma FetchHolds(s: Sys, f: nat, now: int, fetched: Fetched)
    requires Inv(s) && CanFetch(s, f, fetched)
    ensures Inv(AfterFetch(s, f, now, fetched))
  {
    var s' := AfterFetch(s, f, now, fetched);
    forall g | 0 <= g < |s'.readings| ensures FlightSound(s', g) { FetchFlight(s, f, now, fetched, g); }
    hide FlightSound, CallerSound;
    forall w | w in s'.callers
      ensures CallerSound(s'.callers[w], s'.readings, s'.cat.flying, s'.Floor(s'.callers[w].tenant))
    {
      CallerKept(s, s', w);
    }
  }

  // Waking.

  lemma WakeFlight(s: Sys, who: Who, g: nat)
    requires Inv(s) && CanWake(s, who) && g < |s.readings|
    ensures FlightSound(AfterWake(s, who), g)
  {
    var s' := AfterWake(s, who);
    SoundAt(s, g);
    hide FlightsSound, ViewsSound, CallersSound, FlightTrue;
    Recount(s, s', who, g);
    if who !in s.Waiters(g) {
      hide FlightLive;
      FlightKept(s, s', g);
    }
  }

  /** A call is answered by the flight it waits on, and never a cancellation. */
  lemma WakeCaller(s: Sys, who: Who)
    requires Inv(s) && CanWake(s, who)
    ensures var s' := AfterWake(s, who);
      CallerSound(s'.callers[who], s'.readings, s'.cat.flying, s'.Floor(s'.callers[who].tenant))
  {
    var f := s.callers[who].phase.flight;
    assert who in s.Waiters(f);
    SoundAt(s, f);
  }

  lemma WakeHolds(s: Sys, who: Who)
    requires Inv(s) && CanWake(s, who)
    ensures Inv(AfterWake(s, who))
  {
    var s' := AfterWake(s, who);
    forall g | 0 <= g < |s'.readings| ensures FlightSound(s', g) { WakeFlight(s, who, g); }
    WakeCaller(s, who);
    hide FlightSound, CallerSound;
    forall w | w in s'.callers && w != who
      ensures CallerSound(s'.callers[w], s'.readings, s'.cat.flying, s'.Floor(s'.callers[w].tenant))
    {
      CallerKept(s, s', w);
    }
  }

  // Leaving.

  lemma LeaveChanges(s: Sys, who: Who)
    requires Shaped(s) && Ready(s) && CanLeave(s, who)
    requires s.callers[who].phase.flight < |s.readings|
    requires s.readings[s.callers[who].phase.flight].tenant == s.callers[who].tenant
    ensures var s', f := AfterLeave(s, who), s.callers[who].phase.flight;
      && s'.history == s.history && s'.epochs == s.epochs && s'.floors == s.floors && s'.issued == s.issued
      && s'.readings == s.readings && s'.origin == s.origin
      && s'.cat.views == s.cat.views && s'.cat.stamped == s.cat.stamped
      && s'.callers == s.callers[who := s.callers[who].(phase := Quit)]
      && var last := s.cat.flying[f].waiting == 1;
      && s'.cat.flying == s.cat.flying[f := s.cat.flying[f].(
           waiting := s.cat.flying[f].waiting - 1, stopped := last || s.cat.flying[f].stopped)]
      && s'.cat.flights == if last && Current(s, f) then s.cat.flights - {s.callers[who].tenant} else s.cat.flights
  {
  }

  lemma LeaveFlight(s: Sys, who: Who, g: nat)
    requires Inv(s) && CanLeave(s, who) && g < |s.readings| == |AfterLeave(s, who).cat.flying|
    requires |AfterLeave(s, who).readings| == |s.readings|
    ensures FlightSound(AfterLeave(s, who), g)
  {
    var s' := AfterLeave(s, who);
    var f := s.callers[who].phase.flight;
    assert who in s.Waiters(f) && s.readings[f].tenant == s.callers[who].tenant;
    LeaveChanges(s, who);
    SoundAt(s, g);
    hide AfterLeave, FlightsSound, ViewsSound, CallersSound, FlightTrue;
    Recount(s, s', who, g);
    if g != f {
      hide FlightLive;
      FlightKept(s, s', g);
    }
  }

  lemma LeaveCallers(s: Sys, who: Who)
    requires Inv(s) && CanLeave(s, who)
    ensures Shaped(AfterLeave(s, who)) && ViewsSound(AfterLeave(s, who)) && CallersSound(AfterLeave(s, who))
  {
    var s' := AfterLeave(s, who);
    LeaveChanges(s, who);
    hide AfterLeave, FlightsSound;
    forall w | w in s'.callers && w != who
      ensures CallerSound(s'.callers[w], s'.readings, s'.cat.flying, s'.Floor(s'.callers[w].tenant))
    {
      CallerKept(s, s', w);
    }
  }

  lemma LeaveHolds(s: Sys, who: Who)
    requires Inv(s) && CanLeave(s, who)
    ensures Inv(AfterLeave(s, who))
  {
    var s' := AfterLeave(s, who);
    LeaveChanges(s, who);
    LeaveCallers(s, who);
    hide AfterLeave, FlightSound, CallersSound, ViewsSound;
    forall g | 0 <= g < |s'.readings| ensures FlightSound(s', g) { LeaveFlight(s, who, g); }
  }

  // Forgetting.

  lemma ForgetShaped(s: Sys, t: Tenant)
    requires Inv(s)
    ensures Shaped(AfterForget(s, t)) && ViewsSound(AfterForget(s, t))
  {
  }

  lemma ForgetFlight(s: Sys, t: Tenant, f: nat)
    requires Inv(s) && f < |s.readings| == |AfterForget(s, t).cat.flying|
    ensures FlightSound(AfterForget(s, t), f)
  {
    var s' := AfterForget(s, t);
    assert s'.Waiters(f) == s.Waiters(f);
    SoundAt(s, f);
    hide FlightsSound, ViewsSound, CallersSound, FlightTrue;
    if !(t in s.cat.flights && s.cat.flights[t] == f) {
      FlightKept(s, s', f);
    }
  }

  lemma ForgetHolds(s: Sys, t: Tenant)
    requires Inv(s)
    ensures Inv(AfterForget(s, t))
  {
    var s' := AfterForget(s, t);
    ForgetShaped(s, t);
    forall f | 0 <= f < |s'.readings| ensures FlightSound(s', f) { ForgetFlight(s, t, f); }
    if t in s.cat.flights { SoundAt(s, s.cat.flights[t]); }
    hide FlightSound, CallerSound;
    forall w | w in s'.callers
      ensures CallerSound(s'.callers[w], s'.readings, s'.cat.flying, s'.Floor(s'.callers[w].tenant))
    {
      CallerKept(s, s', w);
    }
  }

  // Landing.

  lemma LandIssues(s: Sys, f: nat)
    requires Inv(s) && CanLand(s, f)
    ensures var s' := AfterLand(s, f);
      && s.cat.stamped <= s'.cat.stamped
      && (forall k :: k in s'.issued ==> 0 < k <= s'.cat.stamped)
      && (forall k :: k in s.issued ==> k in s'.issued && s'.issued[k] == s.issued[k])
  {
    var t, answer := s.readings[f].tenant, s.readings[f].state.answer;
    if answer.Found? { StampIsOwn(s, t, answer.view.fields); }
    hide Land, StampFor, FlightsSound, ViewsSound, CallersSound;
  }

  /** Landing f changes nothing but f, the tenant's current flight and held view, and the stamps. */
  lemma LandChanges(s: Sys, f: nat)
    requires Shaped(s) && Ready(s) && CanLand(s, f)
    ensures var s', t, answer := AfterLand(s, f), s.readings[f].tenant, s.readings[f].state.answer;
      && s'.history == s.history && s'.readings == s.readings && s'.callers == s.callers
      && s'.epochs == s.epochs && s'.floors == s.floors
      && |s'.cat.flying| == |s.readings|
      && s'.cat.flying == s.cat.flying[f := s.cat.flying[f].(stopped := true, outcome := s'.cat.flying[f].outcome)]
      && s'.cat.flights == (if Current(s, f) then s.cat.flights - {t} else s.cat.flights)
      && (answer.Failed? ==> s'.cat.flying[f].outcome == Some(answer) && s'.issued == s.issued)
      && (answer.Found? ==>
            && s'.cat.flying[f].outcome.Some? && s'.cat.flying[f].outcome.value.Found?
            && var view := s'.cat.flying[f].outcome.value.view;
            && view == answer.view.(stamp := StampFor(s.cat.views, s.cat.stamped, t, answer.view.fields).1)
            && s'.issued == s.issued[view.stamp := Issue(t, view.fields)])
      && (if answer.Found? && Current(s, f)
          then s'.cat.views == s.cat.views[t := s'.cat.flying[f].outcome.value.view] && s'.origin == s.origin[t := f]
          else s'.cat.views == s.cat.views && s'.origin == s.origin)
  {
    hide StampFor;
  }

  lemma LandShaped(s: Sys, f: nat)
    requires Inv(s) && CanLand(s, f)
    ensures Shaped(AfterLand(s, f))
  {
    LandIssues(s, f);
    LandChanges(s, f);
    hide AfterLand, StampFor, FlightsSound, ViewsSound, CallersSound;
  }

  lemma LandedTrue(s: Sys, f: nat)
    requires Inv(s) && CanLand(s, f) && |AfterLand(s, f).cat.flying| == |s.readings|
    ensures var s' := AfterLand(s, f);
      FlightTrue(s'.readings[f], s'.cat.flying[f].outcome, s'.history, s'.issued)
  {
    SoundAt(s, f);
    LandChanges(s, f);
    hide AfterLand, StampFor, FlightsSound, ViewsSound, CallersSound, FlightLive, Shaped;
  }

  lemma LandedFlight(s: Sys, f: nat)
    requires Inv(s) && CanLand(s, f) && |AfterLand(s, f).cat.flying| == |AfterLand(s, f).readings| == |s.readings|
    ensures FlightSound(AfterLand(s, f), f)
  {
    var s' := AfterLand(s, f);
    SoundAt(s, f);
    LandedTrue(s, f);
    LandChanges(s, f);
    hide AfterLand, StampFor, FlightsSound, ViewsSound, CallersSound, FlightTrue;
    assert s'.Waiters(f) == s.Waiters(f);
  }

  lemma LandOther(s: Sys, f: nat, g: nat)
    requires Inv(s) && CanLand(s, f) && g < |s.readings| && g != f
    requires |AfterLand(s, f).cat.flying| == |AfterLand(s, f).readings| == |s.readings|
    ensures FlightSound(AfterLand(s, f), g)
  {
    var s' := AfterLand(s, f);
    SoundAt(s, g);
    LandIssues(s, f);
    LandChanges(s, f);
    hide AfterLand, StampFor, FlightSound, FlightsSound, ViewsSound, CallersSound;
    assert s'.Waiters(g) == s.Waiters(g);
    FlightKept(s, s', g);
  }

  lemma LandViews(s: Sys, f: nat)
    requires Inv(s) && CanLand(s, f)
    ensures ViewsSound(AfterLand(s, f))
  {
    SoundAt(s, f);
    LandChanges(s, f);
    hide AfterLand, StampFor, FlightTrue, FlightsSound, CallersSound, Shaped;
  }

  lemma LandHolds(s: Sys, f: nat)
    requires Inv(s) && CanLand(s, f)
    ensures Inv(AfterLand(s, f))
  {
    var s' := AfterLand(s, f);
    LandShaped(s, f);
    LandViews(s, f);
    LandChanges(s, f);
    hide AfterLand, FlightSound, CallerSound, ViewsSound;
    forall g | 0 <= g < |s'.readings| ensures FlightSound(s', g) {
      if g == f { LandedFlight(s, f); } else { LandOther(s, f, g); }
    }
    forall w | w in s'.callers
      ensures CallerSound(s'.callers[w], s'.readings, s'.cat.flying, s'.Floor(s'.callers[w].tenant))
    {
      CallerKept(s, s', w);
    }
  }

  // Any step.

  lemma ElseHolds(s: Sys, s': Sys)
    requires Inv(s) && s' == s.(history := s'.history, callers := s'.callers, cat := s.cat.(views := s'.cat.views))
    requires s.history <= s'.history
    requires forall w :: w in s.callers ==> w in s'.callers && s'.callers[w] == s.callers[w]
    requires forall w :: w in s'.callers && w !in s.callers ==>
      s'.callers[w].phase == Joining && s'.callers[w].floor == s.Floor(s'.callers[w].tenant)
    requires forall t :: t in s'.cat.views ==> t in s.cat.views && s'.cat.views[t] == s.cat.views[t]
    ensures Inv(s')
  {
    hide FlightSound;
    forall f | 0 <= f < |s'.readings| ensures FlightSound(s', f) {
      assert s'.Waiters(f) == s.Waiters(f);
      SoundAt(s, f);
      FlightKept(s, s', f);
    }
  }

  /** Every step keeps the invariant. */
  lemma StepHolds(s: Sys, a: Action)
    requires Inv(s) && Enabled(s, a)
    ensures Inv(Apply(s, a))
  {
    match a
    case JoinAs(who, now) => JoinHolds(s, who, now);
    case Fetch(f, now, fetched) => FetchHolds(s, f, now, fetched);
    case LandFlight(f) => LandHolds(s, f);
    case Wake(who) => WakeHolds(s, who);
    case LeaveAs(who) => LeaveHolds(s, who);
    case Forget(t) => ForgetHolds(s, t);
    case Change(_) => ElseHolds(s, Apply(s, a));
    case Begin(_, _) => ElseHolds(s, Apply(s, a));
    case Evict(_) => ElseHolds(s, Apply(s, a));
  }
}
