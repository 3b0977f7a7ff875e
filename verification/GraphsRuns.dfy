/** Whole runs of the graph cache: reading one's own write end to end, honest stamps, exclusive builds. */
module GraphsRuns {
  import opened Wrappers
  import opened FieldTypes
  import opened Widen
  import opened GraphsProtocol
  import opened GraphsLocks
  import opened GraphsSafety
  import C = CatalogProtocol
  import S = CatalogSafety
  import R = CatalogRuns

  predicate Steps(s: Sys, a: Action, s': Sys) {
    s.table.WellFormed() && Enabled(s, a) && s' == Apply(s, a)
  }

  /** A run starts with nothing read, held or asked for and takes one enabled action at a time. */
  ghost predicate IsRun(states: seq<Sys>, actions: seq<Action>) {
    && |states| == |actions| + 1
    && Start(states[0])
    && forall i :: 0 <= i < |actions| ==> Steps(states[i], actions[i], states[i + 1])
  }

  lemma {:induction false} RunHolds(states: seq<Sys>, actions: seq<Action>, i: nat)
    requires IsRun(states, actions) && i < |states|
    ensures Inv(states[i])
  {
    hide Inv;
    if i == 0 {
      StartHolds(states[0]);
    } else {
      RunHolds(states, actions, i - 1);
      assert Steps(states[i - 1], actions[i - 1], states[i]);
      StepHolds(states[i - 1], actions[i - 1]);
    }
  }

  /** No step takes back what the sources did, nor changes a request's tenant, floors or what it was served. */
  ghost predicate Grows(s: Sys, s': Sys) {
    && s'.types == s.types && SourcesGrow(s.sources, s'.sources)
    && forall r :: r in s.requests ==> r in s'.requests && RequestGrows(s.requests[r], s'.requests[r])
  }

  predicate RequestGrows(request: Request, request': Request) {
    request' == request.(pc := request'.pc) && (request.pc.Served? ==> request' == request)
  }

  lemma GrowsSelf(s: Sys)
    ensures Grows(s, s)
  {
    forall k | 0 <= k < |s.sources| ensures R.Grows(s.sources[k], s.sources[k]) { R.GrowsSelf(s.sources[k]); }
  }

  lemma GrowsOn(s: Sys, s': Sys, s'': Sys)
    requires Grows(s, s') && Grows(s', s'')
    ensures Grows(s, s'')
  {
    hide R.Grows;
    forall k | 0 <= k < |s.sources| ensures R.Grows(s.sources[k], s''.sources[k]) {
      R.GrowsOn(s.sources[k], s'.sources[k], s''.sources[k]);
    }
  }

  /** A step that leaves the sources alone. */
  lemma OwnStepGrows(s: Sys, s': Sys)
    requires s'.types == s.types && s'.sources == s.sources
    requires forall r :: r in s.requests ==> r in s'.requests && RequestGrows(s.requests[r], s'.requests[r])
    ensures Grows(s, s')
  {
    hide R.Grows;
    GrowsSelf(s);
  }

  lemma CallGrows(s: Sys, r: nat)
    requires Inv(s) && CanCall(s, r)
    ensures Grows(s, AfterCall(s, r))
  {
    hide CallsSound, HeldSound, RequestsSound, LocksSound, SourcesSound, SourcesGrow, C.Apply, C.Ready;
    var who := C.GraphCall(r, Round(s.requests[r].pc.under));
    OneGrows(s.sources, |s.requests[r].pc.got|, C.Begin(who, s.requests[r].tenant));
  }

  /** The steps a request takes with its tenant's lock. */
  lemma LockStepGrows(s: Sys, a: Action)
    requires Enabled(s, a) && s.table.WellFormed() && (a.UseLock? || a.HoldLock? || a.Unlock? || a.UnuseLock?)
    ensures Grows(s, Apply(s, a))
  {
    hide SourcesGrow, C.Apply, C.Enabled, C.Ready, Use, Hold, Unhold, Unuse;
    OwnStepGrows(s, Apply(s, a));
  }

  /** The steps of a request's checks and builds, and what befalls the held graphs. */
  lemma CheckStepGrows(s: Sys, a: Action)
    requires Enabled(s, a) && s.table.WellFormed()
    requires a.Begin? || a.Take? || a.Decide? || a.Recheck? || a.Store? || a.Evict?
    ensures Grows(s, Apply(s, a))
  {
    hide SourcesGrow, C.Apply, C.Enabled, C.Ready, GroupOf, AllFields, Stamps;
    OwnStepGrows(s, Apply(s, a));
  }

  lemma SourceGrows(s: Sys, k: nat, step: C.Action)
    requires Inv(s) && CanSource(s, k, step) && s.table.WellFormed()
    ensures Grows(s, Apply(s, Source(k, step)))
  {
    hide CallsSound, HeldSound, RequestsSound, LocksSound, SourcesSound, SourcesGrow, C.Apply, C.Enabled, C.Ready;
    OneGrows(s.sources, k, step);
  }

  lemma CallStepGrows(s: Sys, r: nat)
    requires Inv(s) && CanCall(s, r) && s.table.WellFormed()
    ensures Grows(s, Apply(s, Call(r)))
  {
    hide Inv, Grows, AfterCall;
    CallGrows(s, r);
  }

  lemma StepGrows(s: Sys, a: Action)
    requires Inv(s) && Enabled(s, a) && s.table.WellFormed()
    ensures Grows(s, Apply(s, a))
  {
    hide Inv, Grows, Apply, CanCall, CanSource;
    match a
    case Source(k, step) => SourceGrows(s, k, step);
    case Call(r) => CallStepGrows(s, r);
    case _ => if a.UseLock? || a.HoldLock? || a.Unlock? || a.UnuseLock? { LockStepGrows(s, a); } else { CheckStepGrows(s, a); }
  }

  lemma {:induction false} RunGrows(states: seq<Sys>, actions: seq<Action>, i: nat, j: nat)
    requires IsRun(states, actions) && i <= j < |states|
    ensures Grows(states[i], states[j])
  {
    hide Grows, Inv;
    if i == j {
      GrowsSelf(states[i]);
    } else {
      RunGrows(states, actions, i, j - 1);
      RunHolds(states, actions, j - 1);
      assert Steps(states[j - 1], actions[j - 1], states[j]);
      StepGrows(states[j - 1], actions[j - 1]);
      GrowsOn(states[i], states[j - 1], states[j]);
    }
  }

  // Reading one's own write.

  /** The fields of the definitions live for t at some version no older than the floor. */
  ghost predicate ReadSince(source: C.Sys, t: Tenant, floor: nat, fields: seq<GraphField>) {
    exists version: nat ::
      floor <= version < |source.history| && fields == FieldsOf(S.LiveIn(source.history, version, t))
  }

  /** A graph of fields every source had live no earlier than its floor. */
  ghost predicate ServedFresh(types: Types, sources: seq<C.Sys>, t: Tenant, floors: seq<nat>, served: Graph) {
    exists got: seq<View> ::
      && |got| == |sources| == |floors| && served == GroupOf(types, AllFields(got))
      && forall k :: 0 <= k < |sources| ==> ReadSince(sources[k], t, floors[k], got[k].fields)
  }

  lemma AnsweredReads(source: C.Sys, who: C.Who, t: Tenant, floor: nat, view: View)
    requires S.Inv(source) && Answered(source, who, t, floor, view)
    ensures ReadSince(source, t, floor, view.fields)
  {
    var f := source.callers[who].phase.via;
    S.SoundAt(source, f);
    var version := source.readings[f].state.version;
    assert floor <= version < |source.history| && view.fields == FieldsOf(S.LiveIn(source.history, version, t));
  }

  lemma GraphFresh(types: Types, sources: seq<C.Sys>, r: nat, round: nat, t: Tenant, floors: seq<nat>, served: Graph)
    requires SourcesSound(sources) && GraphSound(types, sources, r, round, t, floors, served)
    ensures ServedFresh(types, sources, t, floors, served)
  {
    hide S.Inv, Answered, ReadSince, GroupOf;
    var got: seq<View> :| |got| == |sources| && GotSound(sources, r, round, t, floors, got) && served == GroupOf(types, AllFields(got));
    forall k | 0 <= k < |sources| ensures ReadSince(sources[k], t, floors[k], got[k].fields) {
      AnsweredReads(sources[k], C.GraphCall(r, round), t, floors[k], got[k]);
    }
  }

  /**
   A request that begins after a source's forget has returned is served the graph
   of definitions every source had live since the request began, and that source
   no earlier than its forget; unless a source failed it or it gave up itself.
   */
  lemma ServesOwnWrite(states: seq<Sys>, actions: seq<Action>, i: nat, j: nat, n: nat, k: nat, r: nat, t: Tenant)
    requires IsRun(states, actions) && i < j < n < |states|
    requires actions[i] == Source(k, C.Forget(t)) && actions[j] == Begin(r, t)
    requires r in states[n].requests && states[n].requests[r].pc.Served?
    ensures k < |states[i].sources| && k < |states[n].requests[r].floors|
    ensures states[n].requests[r].floors[k] >= |states[i].sources[k].history| - 1
    ensures var request := states[n].requests[r];
      if request.pc.via.Some?
      then ServedFresh(states[n].types, states[n].sources, t, request.floors, request.pc.served)
      else SomeRefused(states[n].sources, r)
  {
    hide Inv, Grows, ServedFresh, SomeRefused;
    ForgetThenBegin(states, actions, i, j, k, r, t);
    RunGrows(states, actions, j + 1, n);
    RequestKeepsFloors(states[j + 1], states[n], r);
    RunHolds(states, actions, n);
    RequestServed(states[n], r);
  }

  lemma RequestKeepsFloors(s: Sys, s': Sys, r: nat)
    requires Grows(s, s') && r in s.requests
    ensures r in s'.requests && s'.requests[r].tenant == s.requests[r].tenant && s'.requests[r].floors == s.requests[r].floors
  {
  }

  lemma ForgetThenBegin(states: seq<Sys>, actions: seq<Action>, i: nat, j: nat, k: nat, r: nat, t: Tenant)
    requires IsRun(states, actions) && i < j < |actions|
    requires actions[i] == Source(k, C.Forget(t)) && actions[j] == Begin(r, t)
    ensures k < |states[i].sources| && r in states[j + 1].requests && states[j + 1].requests[r].tenant == t
    ensures k < |states[j + 1].requests[r].floors|
    ensures states[j + 1].requests[r].floors[k] >= |states[i].sources[k].history| - 1
  {
    hide Inv, Grows;
    assert Steps(states[i], actions[i], states[i + 1]) && Steps(states[j], actions[j], states[j + 1]);
    RunGrows(states, actions, i + 1, j);
    FloorGrows(states[i + 1], states[j], k, t);
  }

  lemma FloorGrows(s: Sys, s': Sys, k: nat, t: Tenant)
    requires Grows(s, s') && k < |s.sources|
    ensures k < |s'.sources| && s'.sources[k].Floor(t) >= s.sources[k].Floor(t)
  {
    assert R.Grows(s.sources[k], s'.sources[k]);
  }

  lemma RequestServed(s: Sys, r: nat)
    requires Inv(s) && r in s.requests && s.requests[r].pc.Served?
    ensures var request := s.requests[r];
      if request.pc.via.Some?
      then ServedFresh(s.types, s.sources, request.tenant, request.floors, request.pc.served)
      else SomeRefused(s.sources, r)
  {
    hide SourcesSound, CallsSound, HeldSound, LocksSound, GraphSound, ServedFresh, SomeRefused;
    var request := s.requests[r];
    assert RequestSound(s.types, s.sources, r, request);
    if request.pc.via.Some? {
      GraphFresh(s.types, s.sources, r, request.pc.via.value, request.tenant, request.floors, request.pc.served);
    }
  }

  /** In every reachable state each held graph is the graph of the fields its stamps were issued for. */
  lemma HeldDenoteStamps(states: seq<Sys>, actions: seq<Action>, n: nat, t: Tenant)
    requires IsRun(states, actions) && n < |states| && t in states[n].held
    ensures EntrySound(states[n].types, states[n].sources, t, states[n].held[t])
  {
    hide SourcesSound, CallsSound, RequestsSound, LocksSound;
    RunHolds(states, actions, n);
  }

  // What each check comes to.

  /** The fields of the sources are theirs one source after another, each in its own order. */
  lemma {:induction false} AllFieldsInOrder(got: seq<View>, more: seq<View>, view: View)
    ensures AllFields(got + more) == AllFields(got) + AllFields(more) && AllFields([view]) == view.fields
    decreases more
  {
    assert [view][..0] == [] && AllFields([]) == [];
    if more == [] {
      assert got + more == got;
    } else {
      var front := more[..|more| - 1];
      AllFieldsInOrder(got, front, view);
      assert (got + more)[..|got + more| - 1] == got + front;
    }
  }

  /** Ends with this graph to serve: at once, or once the lock is let go. */
  predicate Ends(pc: Pc, under: Option<nat>, served: Graph) {
    if under.None? then pc.Served? && pc.served == served
    else pc.Unlocking? && pc.l == under.value && pc.served == served
  }

  /**
   A check all sources answered serves the graph it found held exactly when the sources
   answered the very stamps it is held under; otherwise the request goes for the lock, or
   if it has it builds from what they answered.
   */
  lemma CheckedExactly(states: seq<Sys>, actions: seq<Action>, k: nat, r: nat)
    requires IsRun(states, actions) && k < |actions| && actions[k] == Decide(r)
    ensures r in states[k].requests && r in states[k + 1].requests && states[k].requests[r].pc.Checking?
    ensures var (was, pc) := (states[k].requests[r].pc, states[k + 1].requests[r].pc);
      var same := was.cached.Some? && |was.cached.value.stamps| == |was.got|
                  && forall i :: 0 <= i < |was.got| ==> was.cached.value.stamps[i] == was.got[i].stamp;
      if same then Ends(pc, was.under, was.cached.value.served)
      else if was.under.None? then pc.WantingLock?
      else pc == Building(was.under.value, was.got)
  {
    assert Steps(states[k], actions[k], states[k + 1]);
    var was := states[k].requests[r].pc;
    hide C.Apply, C.Enabled, C.Ready;
    if was.cached.Some? && |was.cached.value.stamps| == |was.got| {
      assert Stamps(was.got) == was.cached.value.stamps <==>
        forall i :: 0 <= i < |was.got| ==> was.cached.value.stamps[i] == was.got[i].stamp;
    }
  }

  /** What a tenant has held, or nothing. */
  predicate IsHeld(held: map<Tenant, Entry>, t: Tenant, entry: Option<Entry>) {
    if entry.Some? then t in held && held[t] == entry.value else t !in held
  }

  /** Steps of others leave a check as it is, and its own begin it from what is held then. */
  lemma CheckFound(s: Sys, a: Action, r: nat)
    requires s.table.WellFormed() && Enabled(s, a) && r in Apply(s, a).requests && Apply(s, a).requests[r].pc.Checking?
    ensures var request := Apply(s, a).requests[r];
      || IsHeld(s.held, request.tenant, request.pc.cached)
      || (r in s.requests && s.requests[r].tenant == request.tenant && s.requests[r].pc.Checking?
          && s.requests[r].pc.cached == request.pc.cached)
  {
    hide C.Apply, C.Enabled, C.Ready, GroupOf, AllFields, Use, Hold, Unhold, Unuse;
  }

  /** What a check found was held for its tenant at some moment of the run. */
  lemma {:induction false} FoundWasHeld(states: seq<Sys>, actions: seq<Action>, n: nat, r: nat) returns (i: nat)
    requires IsRun(states, actions) && n < |states| && r in states[n].requests && states[n].requests[r].pc.Checking?
    ensures i <= n && IsHeld(states[i].held, states[n].requests[r].tenant, states[n].requests[r].pc.cached)
  {
    hide Apply, Enabled, IsHeld;
    assert n > 0;
    assert Steps(states[n - 1], actions[n - 1], states[n]);
    CheckFound(states[n - 1], actions[n - 1], r);
    var request := states[n].requests[r];
    if IsHeld(states[n - 1].held, request.tenant, request.pc.cached) {
      i := n - 1;
    } else {
      i := FoundWasHeld(states, actions, n - 1, r);
    }
  }

  /** A request a source fails is served what its check found held for its tenant earlier in the run, or the plain graph. */
  lemma RefusedServesHeld(states: seq<Sys>, actions: seq<Action>, k: nat, r: nat) returns (i: nat)
    requires IsRun(states, actions) && k < |actions| && actions[k] == Take(r)
    requires r in states[k + 1].requests && !states[k + 1].requests[r].pc.Checking?
    ensures i <= k && r in states[k].requests && states[k].requests[r].pc.Checking?
    ensures var (t, under) := (states[k].requests[r].tenant, states[k].requests[r].pc.under);
      Ends(states[k + 1].requests[r].pc, under, if t in states[i].held then states[i].held[t].served else map[])
  {
    assert Steps(states[k], actions[k], states[k + 1]);
    i := FoundWasHeld(states, actions, k, r);
  }

  // Build locks.

  /** The requests of a tenant that hold or await its lock, or have yet to give it back. */
  function UsersOf(s: Sys, t: Tenant): set<nat> {
    set r | r in s.requests && s.requests[r].tenant == t && LockOf(s.requests[r].pc).Some?
  }

  /** The map holds a lock exactly while requests use it, counting each of them. */
  lemma LocksCountUsers(states: seq<Sys>, actions: seq<Action>, n: nat, t: Tenant)
    requires IsRun(states, actions) && n < |states|
    ensures var s := states[n];
      && (t in s.table.byTenant <==> UsersOf(s, t) != {})
      && (t in s.table.byTenant ==> s.table.byTenant[t] < |s.table.locks|
                                    && s.table.locks[s.table.byTenant[t]].users == |UsersOf(s, t)|)
  {
    hide SourcesSound, CallsSound, RequestsSound, HeldSound;
    RunHolds(states, actions, n);
    var s := states[n];
    forall r | r in UsersOf(s, t)
      ensures t in s.table.byTenant && s.table.byTenant[t] == LockOf(s.requests[r].pc).value
    {
      var l := LockOf(s.requests[r].pc).value;
      assert LockSound(s.table, s.requests, l) && r in Users(s.requests, l);
    }
    if t in s.table.byTenant {
      var l := s.table.byTenant[t];
      assert LockSound(s.table, s.requests, l) && Users(s.requests, l) == UsersOf(s, t);
    }
  }

  /** No two requests check again or build for one tenant at once, although locks are deleted and made again. */
  lemma BuildsExclude(states: seq<Sys>, actions: seq<Action>, n: nat, r: nat, r': nat)
    requires IsRun(states, actions) && n < |states|
    requires r in states[n].requests && Holds(states[n].requests[r].pc)
    requires r' in states[n].requests && Holds(states[n].requests[r'].pc)
    requires states[n].requests[r].tenant == states[n].requests[r'].tenant
    ensures r == r'
  {
    hide SourcesSound, CallsSound, RequestsSound, HeldSound;
    RunHolds(states, actions, n);
    var s := states[n];
    var l, l' := LockOf(s.requests[r].pc).value, LockOf(s.requests[r'].pc).value;
    assert LockSound(s.table, s.requests, l) && r in Users(s.requests, l);
    assert LockSound(s.table, s.requests, l') && r' in Users(s.requests, l');
  }
}
