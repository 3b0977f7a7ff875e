/** Whole runs of the catalogue protocol: reading one's own write, isolated cancellations, honest stamps. */
module CatalogRuns {
  import opened Wrappers
  import opened FieldTypes
  import opened CatalogProtocol
  import opened CatalogSafety

  predicate ReadingGrows(reading: Reading, reading': Reading) {
    && reading' == reading.(state := reading'.state)
    && (reading.state.Read? ==> reading' == reading)
  }

  predicate CallerGrows(caller: Caller, caller': Caller) {
    && caller' == caller.(phase := caller'.phase)
    && (caller.phase.Answered? || caller.phase.Quit? ==> caller' == caller)
  }

  /** What no step takes back: versions, floors, epochs, stamps, reads, outcomes and answers. */
  ghost predicate Grows(s: Sys, s': Sys) {
    && s.history <= s'.history
    && (forall k :: k in s.issued ==> k in s'.issued && s'.issued[k] == s.issued[k])
    && (forall t :: t in s.floors ==> t in s'.floors && s.floors[t] <= s'.floors[t])
    && (forall t :: t in s.epochs ==> t in s'.epochs && s.epochs[t] <= s'.epochs[t])
    && |s.readings| <= |s'.readings| && |s.cat.flying| <= |s'.cat.flying|
    && (forall f :: 0 <= f < |s.readings| ==> ReadingGrows(s.readings[f], s'.readings[f]))
    && (forall f :: 0 <= f < |s.cat.flying| && s.cat.flying[f].outcome.Some? ==>
          s'.cat.flying[f].outcome == s.cat.flying[f].outcome
          && s'.cat.flying[f].overtaken == s.cat.flying[f].overtaken)
    && (forall w :: w in s.callers ==> w in s'.callers && CallerGrows(s.callers[w], s'.callers[w]))
  }

  lemma GrowsSelf(s: Sys)
    ensures Grows(s, s)
  {
  }

  lemma GrowsOn(s: Sys, s': Sys, s'': Sys)
    requires Grows(s, s') && Grows(s', s'')
    ensures Grows(s, s'')
  {
    hide ReadingGrows, CallerGrows;
    forall f | 0 <= f < |s.readings| ensures ReadingGrows(s.readings[f], s''.readings[f]) {
      ReadingGrowsOn(s.readings[f], s'.readings[f], s''.readings[f]);
    }
    forall w | w in s.callers ensures w in s''.callers && CallerGrows(s.callers[w], s''.callers[w]) {
      CallerGrowsOn(s.callers[w], s'.callers[w], s''.callers[w]);
    }
  }

  lemma ReadingGrowsOn(reading: Reading, reading': Reading, reading'': Reading)
    requires ReadingGrows(reading, reading') && ReadingGrows(reading', reading'')
    ensures ReadingGrows(reading, reading'')
  {
  }

  lemma CallerGrowsOn(caller: Caller, caller': Caller, caller'': Caller)
    requires CallerGrows(caller, caller') && CallerGrows(caller', caller'')
    ensures CallerGrows(caller, caller'')
  {
  }

  lemma JoinGrows(s: Sys, who: Who, now: int)
    requires Inv(s) && CanJoin(s, who)
    ensures Grows(s, AfterJoin(s, who, now))
  {
    hide AfterJoin, Inv, Fresh;
    InvShaped(s);
    JoinChanges(s, who, now);
  }

  lemma InvShaped(s: Sys)
    requires Inv(s)
    ensures Shaped(s) && Ready(s)
  {
  }

  lemma LandGrows(s: Sys, f: nat)
    requires Inv(s) && CanLand(s, f)
    ensures Grows(s, AfterLand(s, f))
  {
    LandIssues(s, f);
    LandChanges(s, f);
    hide AfterLand, Inv, StampFor;
  }

  lemma LeaveGrows(s: Sys, who: Who)
    requires Inv(s) && CanLeave(s, who)
    ensures Grows(s, AfterLeave(s, who))
  {
    LeaveChanges(s, who);
    hide AfterLeave, Inv;
  }

  lemma ForgetGrows(s: Sys, t: Tenant)
    requires Inv(s)
    ensures Grows(s, AfterForget(s, t))
  {
    if t in s.cat.flights { SoundAt(s, s.cat.flights[t]); }
    hide FlightsSound, ViewsSound, CallersSound;
  }

  lemma StepGrows(s: Sys, a: Action)
    requires Inv(s) && Enabled(s, a)
    ensures Grows(s, Apply(s, a))
  {
    hide FlightsSound, ViewsSound, CallersSound;
    match a
    case JoinAs(who, now) => JoinGrows(s, who, now);
    case LandFlight(f) => LandGrows(s, f);
    case LeaveAs(who) => LeaveGrows(s, who);
    case Forget(t) => ForgetGrows(s, t);
    case _ =>
  }

  /** A run starts with nothing read and takes one enabled action at a time. */
  ghost predicate IsRun(states: seq<Sys>, actions: seq<Action>) {
    && |states| == |actions| + 1
    && Start(states[0])
    && forall i :: 0 <= i < |actions| ==> Steps(states[i], actions[i], states[i + 1])
  }

  predicate Steps(s: Sys, a: Action, s': Sys) {
    Ready(s) && Enabled(s, a) && s' == Apply(s, a)
  }

  lemma {:induction false} RunHolds(states: seq<Sys>, actions: seq<Action>, i: nat)
    requires IsRun(states, actions) && i < |states|
    ensures Inv(states[i])
  {
    if i == 0 {
      StartHolds(states[0]);
    } else {
      RunHolds(states, actions, i - 1);
      assert Steps(states[i - 1], actions[i - 1], states[i]);
      StepHolds(states[i - 1], actions[i - 1]);
    }
  }

  lemma {:induction false} RunGrows(states: seq<Sys>, actions: seq<Action>, i: nat, j: nat)
    requires IsRun(states, actions) && i <= j < |states|
    ensures Grows(states[i], states[j])
  {
    hide Grows, Inv;
    if i == j {
      GrowsSelf(states[i]);
    } else {
      RunGrows(states, actions, i, j - 1);
      RunHolds(states, actions, j - 1);
      assert Steps(states[j - 1], actions[j - 1], states[j]);
      StepGrows(states[j - 1], actions[j - 1]);
      GrowsOn(states[i], states[j - 1], states[j]);
    }
  }

  /**
   A call that begins after a forget has returned is answered with definitions
   read no earlier than that forget, so at or after every change it followed.
   */
  lemma ReadYourOwnWrite(
    states: seq<Sys>, actions: seq<Action>, i: nat, j: nat, k: nat, who: Who, t: Tenant, view: View, f: nat)
    requires IsRun(states, actions) && i < j < k < |states|
    requires actions[i] == Forget(t) && actions[j] == Begin(who, t)
    requires who in states[k].callers && states[k].callers[who].phase == Answered(Found(view), f)
    ensures f < |states[k].readings| && states[k].readings[f].state.Read?
    ensures var version := states[k].readings[f].state.version;
      && |states[i].history| - 1 <= version < |states[k].history|
      && view == ViewOf(LiveIn(states[k].history, version, t), view.read).(stamp := view.stamp)
  {
    hide Inv, Grows;
    CallFloor(states, actions, i, j, who, t);
    RunGrows(states, actions, j + 1, k);
    CallKept(states[j + 1], states[k], who);
    RunHolds(states, actions, k);
    AnswerRead(states[k], who, view, f);
  }

  /** A call that begins after a forget is no older than the version forgotten into view. */
  lemma CallFloor(states: seq<Sys>, actions: seq<Action>, i: nat, j: nat, who: Who, t: Tenant)
    requires IsRun(states, actions) && i < j < |actions|
    requires actions[i] == Forget(t) && actions[j] == Begin(who, t)
    ensures who in states[j + 1].callers && states[j + 1].callers[who].tenant == t
    ensures states[j + 1].callers[who].floor >= |states[i].history| - 1
  {
    hide Inv;
    assert Steps(states[i], actions[i], states[i + 1]) && Steps(states[j], actions[j], states[j + 1]);
    RunGrows(states, actions, i + 1, j);
  }

  lemma CallKept(s: Sys, s': Sys, who: Who)
    requires Grows(s, s') && who in s.callers
    ensures who in s'.callers && s'.callers[who].tenant == s.callers[who].tenant
    ensures s'.callers[who].floor == s.callers[who].floor
  {
    assert CallerGrows(s.callers[who], s'.callers[who]);
  }

  /** The view a call is answered with is what was live at a version no older than the call's floor. */
  lemma AnswerRead(s: Sys, who: Who, view: View, f: nat)
    requires Inv(s) && who in s.callers && s.callers[who].phase == Answered(Found(view), f)
    ensures f < |s.readings| && s.readings[f].state.Read?
    ensures var caller, version := s.callers[who], s.readings[f].state.version;
      && caller.floor <= version < |s.history|
      && view == ViewOf(LiveIn(s.history, version, caller.tenant), view.read).(stamp := view.stamp)
      && IssuedFor(s.issued, view.stamp, caller.tenant, view.fields)
  {
    hide FlightsSound, ViewsSound, FlightLive;
    SoundAt(s, f);
  }

  /** No caller is ever answered a cancellation: not by another caller leaving, not by a forget. */
  lemma NeverCancelled(states: seq<Sys>, actions: seq<Action>, k: nat, who: Who, answer: Answer, f: nat)
    requires IsRun(states, actions) && k < |states|
    requires who in states[k].callers && states[k].callers[who].phase == Answered(answer, f)
    ensures answer != Failed(Cancelled)
  {
    RunHolds(states, actions, k);
  }

  /** A flight others can join: unstopped, not overtaken, and waited on. */
  ghost predicate Joinable(s: Sys, f: nat) {
    && f < |s.cat.flying| && s.Waiters(f) != {}
    && !s.cat.flying[f].stopped && !s.cat.flying[f].overtaken && s.cat.flying[f].waiting >= 1
  }

  /** A flight in the map is neither stopped nor overtaken and is waited on; a stopped one is spent. */
  lemma MappedFlightsLive(states: seq<Sys>, actions: seq<Action>, k: nat)
    requires IsRun(states, actions) && k < |states|
    ensures forall t :: t in states[k].cat.flights ==> Joinable(states[k], states[k].cat.flights[t])
    ensures forall f :: 0 <= f < |states[k].cat.flying| && states[k].cat.flying[f].stopped ==>
      states[k].cat.flying[f].outcome.Some? || states[k].cat.flying[f].overtaken || states[k].Waiters(f) == {}
  {
    RunHolds(states, actions, k);
    var s := states[k];
    forall t | t in s.cat.flights ensures Joinable(s, s.cat.flights[t]) {
      SoundAt(s, s.cat.flights[t]);
    }
    forall f | 0 <= f < |s.cat.flying| && s.cat.flying[f].stopped
      ensures s.cat.flying[f].outcome.Some? || s.cat.flying[f].overtaken || s.Waiters(f) == {}
    {
      SoundAt(s, f);
    }
  }

  /** No read begun before a forget is ever held after it. */
  lemma HeldBegunAfterForget(states: seq<Sys>, actions: seq<Action>, i: nat, k: nat, t: Tenant)
    requires IsRun(states, actions) && i < k < |states| && actions[i] == Forget(t)
    requires t in states[k].cat.views
    ensures t in states[k].origin && states[k].origin[t] >= |states[i].readings|
    ensures states[k].origin[t] < |states[k].cat.flying|
      && states[k].cat.flying[states[k].origin[t]].outcome == Some(Found(states[k].cat.views[t]))
  {
    assert Steps(states[i], actions[i], states[i + 1]);
    RunHolds(states, actions, i);
    RunHolds(states, actions, k);
    RunGrows(states, actions, i + 1, k);
    RunGrows(states, actions, i, k);
    var f := states[k].origin[t];
    if f < |states[i].readings| {
      SoundAt(states[i], f);
    }
  }

  /** Two views ever answered under one stamp belong to one tenant and list the same fields. */
  lemma StampsAgree(
    states: seq<Sys>, actions: seq<Action>, i: nat, k: nat,
    who: Who, view: View, f: nat, who': Who, view': View, f': nat)
    requires IsRun(states, actions) && i <= k < |states|
    requires who in states[i].callers && states[i].callers[who].phase == Answered(Found(view), f)
    requires who' in states[k].callers && states[k].callers[who'].phase == Answered(Found(view'), f')
    requires view.stamp == view'.stamp
    ensures states[i].callers[who].tenant == states[k].callers[who'].tenant && view.fields == view'.fields
  {
    hide Inv, ViewOf;
    RunHolds(states, actions, i);
    RunHolds(states, actions, k);
    RunGrows(states, actions, i, k);
    AnswerRead(states[i], who, view, f);
    AnswerRead(states[k], who', view', f');
  }
}
