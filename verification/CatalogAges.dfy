/** How old a view may be when it answers, told from the clocks of the reads and the calls themselves. */
module CatalogAges {
  import opened Wrappers
  import opened FieldTypes
  import opened CatalogProtocol
  import opened CatalogSafety
  import opened CatalogRuns

  lemma StepRefresh(s: Sys, a: Action)
    requires Ready(s) && Enabled(s, a)
    ensures Apply(s, a).cat.refresh == s.cat.refresh
  {
    hide ViewOf;
  }

  lemma {:induction false} RefreshStays(states: seq<Sys>, actions: seq<Action>, i: nat)
    requires IsRun(states, actions) && i < |states|
    ensures states[i].cat.refresh == states[0].cat.refresh
  {
    hide Apply, Enabled, Ready;
    if i > 0 {
      RefreshStays(states, actions, i - 1);
      assert Steps(states[i - 1], actions[i - 1], states[i]);
      StepRefresh(states[i - 1], actions[i - 1]);
    }
  }

  /** A reading that is done was done before or is done by this fetch of it, at this fetch's clock. */
  predicate DoneBy(reading: Reading, a: Action, f: nat) {
    && a.Fetch? && a.flight == f && reading.state.Read?
    && (reading.state.answer.Found? ==> a.fetched == Success && reading.state.answer.view.read == a.now)
  }

  lemma JoinReads(s: Sys, who: Who, now: int, f: nat)
    requires Ready(s) && CanJoin(s, who)
    requires f < |AfterJoin(s, who, now).readings| && AfterJoin(s, who, now).readings[f].state.Read?
    ensures f < |s.readings| && AfterJoin(s, who, now).readings[f] == s.readings[f]
  {
    hide Join;
  }

  lemma StepReads(s: Sys, a: Action, f: nat)
    requires Ready(s) && Enabled(s, a)
    requires f < |Apply(s, a).readings| && Apply(s, a).readings[f].state.Read?
    ensures f < |s.readings|
    ensures Apply(s, a).readings[f] == s.readings[f] || DoneBy(Apply(s, a).readings[f], a, f)
  {
    hide AfterJoin, AfterLand, AfterLeave, AfterWake, AfterForget;
    match a
    case JoinAs(who, now) => JoinReads(s, who, now, f);
    case LandFlight(g) => LandKeepsReadings(s, g);
    case LeaveAs(who) => LeaveKeepsReadings(s, who);
    case Wake(who) => WakeKeepsReadings(s, who);
    case Forget(t) => ForgetKeepsReadings(s, t);
    case _ =>
  }

  lemma LandKeepsReadings(s: Sys, f: nat)
    requires Ready(s) && CanLand(s, f)
    ensures AfterLand(s, f).readings == s.readings
  {
    hide Land, Detach;
  }

  lemma LeaveKeepsReadings(s: Sys, who: Who)
    requires Ready(s) && CanLeave(s, who)
    ensures AfterLeave(s, who).readings == s.readings
  {
    hide Leave;
  }

  lemma WakeKeepsReadings(s: Sys, who: Who)
    requires Ready(s) && CanWake(s, who)
    ensures AfterWake(s, who).readings == s.readings
  {
  }

  lemma ForgetKeepsReadings(s: Sys, t: Tenant)
    requires Ready(s)
    ensures AfterForget(s, t).readings == s.readings
  {
    hide Drop;
  }

  /** What a flight read it read in one step of the run, at the clock its view carries. */
  lemma {:induction false} FetchedInRun(states: seq<Sys>, actions: seq<Action>, n: nat, f: nat) returns (i: nat)
    requires IsRun(states, actions) && n < |states|
    requires f < |states[n].readings| && states[n].readings[f].state.Read?
    ensures i < n && DoneBy(states[n].readings[f], actions[i], f)
  {
    hide Apply, Enabled, Ready, DoneBy;
    assert n > 0;
    assert Steps(states[n - 1], actions[n - 1], states[n]);
    StepReads(states[n - 1], actions[n - 1], f);
    if states[n].readings[f] == states[n - 1].readings[f] {
      i := FetchedInRun(states, actions, n - 1, f);
    } else {
      i := n - 1;
    }
  }

  /** A flight reads once. */
  lemma FetchedOnce(states: seq<Sys>, actions: seq<Action>, i: nat, j: nat)
    requires IsRun(states, actions) && i < j < |actions|
    requires actions[i].Fetch? && actions[j].Fetch?
    ensures actions[i].flight != actions[j].flight
  {
    hide Inv;
    assert Steps(states[i], actions[i], states[i + 1]) && Steps(states[j], actions[j], states[j + 1]);
    RunGrows(states, actions, i + 1, j);
    var f := actions[i].flight;
    assert states[i + 1].readings[f].state.Read?;
    assert ReadingGrows(states[i + 1].readings[f], states[j].readings[f]);
  }

  /** A fetch of the flight the tenant's held view came from, less than the refresh time ago. */
  predicate RecentFetch(s: Sys, t: Tenant, a: Action, now: int, refresh: int) {
    t in s.cat.views && t in s.origin && a.Fetch? && a.flight == s.origin[t] && now - a.now < refresh
  }

  /** The clock a held view carries is that of the one fetch its flight made. */
  lemma HeldAge(states: seq<Sys>, actions: seq<Action>, k: nat, t: Tenant) returns (i: nat)
    requires IsRun(states, actions) && k < |states| && t in states[k].cat.views
    ensures t in states[k].origin && i < k && actions[i].Fetch?
    ensures actions[i].flight == states[k].origin[t] && actions[i].now == states[k].cat.views[t].read
    ensures forall j :: 0 <= j < k && actions[j].Fetch? && actions[j].flight == states[k].origin[t] ==> j == i
  {
    RunHolds(states, actions, k);
    var f := states[k].origin[t];
    SoundAt(states[k], f);
    hide Inv, FlightsSound;
    i := FetchedInRun(states, actions, k, f);
    forall j | 0 <= j < k && actions[j].Fetch? && actions[j].flight == f ensures j == i {
      if j < i { FetchedOnce(states, actions, j, i); }
      if i < j { FetchedOnce(states, actions, i, j); }
    }
  }

  lemma JoinAnswers(s: Sys, who: Who, now: int)
    requires Ready(s) && CanJoin(s, who)
    ensures var s', t := AfterJoin(s, who, now), s.callers[who].tenant;
      && who in s'.callers
      && if t in s.cat.views && now - s.cat.views[t].read < s.cat.refresh
         then s'.callers[who].phase == Answered(Found(s.cat.views[t]), s.origin[t])
              && s'.cat == s.cat && s'.readings == s.readings
         else s'.callers[who].phase.Waiting?
  {
  }

  /**
   A call that joins is answered at once exactly when the tenant's held view was fetched
   less than the refresh time before, by the clocks of that fetch and of the call; then by
   that view, and no read starts. Any other call waits on a read.
   */
  lemma AnsweredAtOnceExactly(states: seq<Sys>, actions: seq<Action>, k: nat)
    requires IsRun(states, actions) && k < |actions| && actions[k].JoinAs?
    ensures var (who, now) := (actions[k].who, actions[k].now);
      && who in states[k].callers && who in states[k + 1].callers
      && var t, phase := states[k].callers[who].tenant, states[k + 1].callers[who].phase;
      && (phase.Answered? <==>
            exists i :: 0 <= i < k && RecentFetch(states[k], t, actions[i], now, states[0].cat.refresh))
      && (phase.Answered? ==>
            && t in states[k].cat.views && t in states[k].origin
            && phase == Answered(Found(states[k].cat.views[t]), states[k].origin[t])
            && states[k + 1].cat == states[k].cat && states[k + 1].readings == states[k].readings)
      && (!phase.Answered? ==> phase.Waiting?)
  {
    assert Steps(states[k], actions[k], states[k + 1]);
    JoinAnswers(states[k], actions[k].who, actions[k].now);
    RefreshStays(states, actions, k);
    hide AfterJoin;
    var t := states[k].callers[actions[k].who].tenant;
    if t in states[k].cat.views {
      var i := HeldAge(states, actions, k, t);
      if actions[k].now - states[k].cat.views[t].read < states[0].cat.refresh {
        assert RecentFetch(states[k], t, actions[i], actions[k].now, states[0].cat.refresh);
      }
    }
  }

  /** Reading again what is held already keeps the view's stamp, so nobody who compares stamps sees a change. */
  lemma UnchangedKeepsStamp(states: seq<Sys>, actions: seq<Action>, k: nat, f: nat)
    requires IsRun(states, actions) && k < |actions| && actions[k] == LandFlight(f)
    ensures f < |states[k].readings| && f < |states[k + 1].cat.flying| && states[k].readings[f].state.Read?
    ensures var t, answer := states[k].readings[f].tenant, states[k].readings[f].state.answer;
      answer.Found? && t in states[k].cat.views && states[k].cat.views[t].fields == answer.view.fields ==>
        states[k + 1].cat.flying[f].outcome == Some(Found(answer.view.(stamp := states[k].cat.views[t].stamp)))
  {
    assert Steps(states[k], actions[k], states[k + 1]);
  }
}
