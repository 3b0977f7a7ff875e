/** What every reachable state of the graph cache keeps: held graphs denote their stamps, served ones their answers. */
module GraphsSafety {
  import opened Wrappers
  import opened FieldTypes
  import opened Widen
  import opened GraphsProtocol
  import opened GraphsLocks
  import C = CatalogProtocol
  import S = CatalogSafety
  import R = CatalogRuns

  // Stamps and the fields they denote.

  ghost predicate Denotes(sources: seq<C.Sys>, t: Tenant, stamps: seq<nat>) {
    |stamps| == |sources| &&
    forall k :: 0 <= k < |stamps| ==> stamps[k] in sources[k].issued && sources[k].issued[stamps[k]].tenant == t
  }

  /** The fields each source issued its stamp for, source by source. */
  function FieldsDenoted(sources: seq<C.Sys>, stamps: seq<nat>): seq<GraphField>
    requires |stamps| <= |sources|
  {
    if stamps == [] then []
    else
      var k := |stamps| - 1;
      FieldsDenoted(sources, stamps[..k])
      + if stamps[k] in sources[k].issued then sources[k].issued[stamps[k]].fields else []
  }

  /** A held graph is the graph of the fields its stamps denote. */
  ghost predicate EntrySound(types: Types, sources: seq<C.Sys>, t: Tenant, entry: Entry) {
    Denotes(sources, t, entry.stamps) && entry.served == GroupOf(types, FieldsDenoted(sources, entry.stamps))
  }

  // Answers of the sources.

  /** A source answered this view to a call no older than the floor. */
  predicate Answered(source: C.Sys, who: C.Who, t: Tenant, floor: nat, view: View) {
    && who in source.callers && source.callers[who].tenant == t && source.callers[who].floor >= floor
    && source.callers[who].phase.Answered? && source.callers[who].phase.answer == C.Found(view)
    && S.IssuedFor(source.issued, view.stamp, t, view.fields)
  }

  ghost predicate GotSound(sources: seq<C.Sys>, r: nat, round: nat, t: Tenant, floors: seq<nat>, got: seq<View>) {
    && |got| <= |sources| == |floors|
    && forall k :: 0 <= k < |got| ==> Answered(sources[k], C.GraphCall(r, round), t, floors[k], got[k])
  }

  /** A graph decided by a check is the graph of what every source answered that check. */
  ghost predicate GraphSound(
    types: Types, sources: seq<C.Sys>, r: nat, round: nat, t: Tenant, floors: seq<nat>, served: Graph)
  {
    exists got :: |got| == |sources| && GotSound(sources, r, round, t, floors, got) && served == GroupOf(types, AllFields(got))
  }

  /** A graph served although a source failed is the plain one or was held for the tenant. */
  ghost predicate FallbackSound(types: Types, sources: seq<C.Sys>, t: Tenant, served: Graph) {
    served == PLAIN || exists entry :: EntrySound(types, sources, t, entry) && entry.served == served
  }

  /** A source failed the request's check, or the request gave up waiting on it. */
  predicate Refused(source: C.Sys, r: nat, round: nat) {
    var who := C.GraphCall(r, round);
    who in source.callers && match source.callers[who].phase
                             case Answered(answer, _) => answer.Failed?
                             case Quit => true
                             case _ => false
  }

  ghost predicate SomeRefused(sources: seq<C.Sys>, r: nat) {
    exists k, round :: 0 <= k < |sources| && Refused(sources[k], r, round)
  }

  ghost predicate ServedSound(
    types: Types, sources: seq<C.Sys>, r: nat, t: Tenant, floors: seq<nat>, served: Graph, via: Option<nat>)
  {
    match via
    case Some(round) => GraphSound(types, sources, r, round, t, floors, served)
    case None => FallbackSound(types, sources, t, served) && SomeRefused(sources, r)
  }

  ghost predicate PcSound(types: Types, sources: seq<C.Sys>, r: nat, t: Tenant, floors: seq<nat>, pc: Pc) {
    match pc
    case Checking(cached, got, under) =>
      && (cached.Some? ==> EntrySound(types, sources, t, cached.value))
      && GotSound(sources, r, Round(under), t, floors, got)
    case Building(_, got) => |got| == |sources| && GotSound(sources, r, 1, t, floors, got)
    case Unlocking(_, served, via) => ServedSound(types, sources, r, t, floors, served, via)
    case Leaving(_, served, via) => ServedSound(types, sources, r, t, floors, served, via)
    case Served(served, via) => ServedSound(types, sources, r, t, floors, served, via)
    case _ => true
  }

  predicate FloorsLow(sources: seq<C.Sys>, t: Tenant, floors: seq<nat>) {
    |floors| == |sources| && forall k :: 0 <= k < |floors| ==> floors[k] <= sources[k].Floor(t)
  }

  ghost predicate RequestSound(types: Types, sources: seq<C.Sys>, r: nat, request: Request) {
    && FloorsLow(sources, request.tenant, request.floors)
    && PcSound(types, sources, r, request.tenant, request.floors, request.pc)
  }

  /** Every call a request made of a source is for its tenant and no older than its floor there. */
  predicate CallSound(requests: map<nat, Request>, k: nat, who: C.Who, caller: C.Caller) {
    who.GraphCall? ==>
      && who.request in requests && requests[who.request].tenant == caller.tenant
      && k < |requests[who.request].floors| && requests[who.request].floors[k] <= caller.floor
  }

  ghost predicate CallsSound(requests: map<nat, Request>, sources: seq<C.Sys>) {
    forall k, who :: 0 <= k < |sources| && who in sources[k].callers ==> CallSound(requests, k, who, sources[k].callers[who])
  }

  ghost predicate SourcesSound(sources: seq<C.Sys>) {
    forall k :: 0 <= k < |sources| ==> S.Inv(sources[k])
  }

  ghost predicate HeldSound(s: Sys) {
    forall t :: t in s.held ==> EntrySound(s.types, s.sources, t, s.held[t])
  }

  ghost predicate RequestsSound(s: Sys) {
    forall r :: r in s.requests ==> RequestSound(s.types, s.sources, r, s.requests[r])
  }

  ghost predicate Inv(s: Sys) {
    && SourcesSound(s.sources) && CallsSound(s.requests, s.sources)
    && HeldSound(s) && RequestsSound(s) && LocksSound(s.table, s.requests)
  }

  lemma StartHolds(s: Sys)
    requires Start(s)
    ensures Inv(s)
  {
    forall k | 0 <= k < |s.sources| ensures S.Inv(s.sources[k]) { S.StartHolds(s.sources[k]); }
  }

  // What a step of the sources leaves sound.

  ghost predicate SourcesGrow(sources: seq<C.Sys>, sources': seq<C.Sys>) {
    |sources| == |sources'| && forall k :: 0 <= k < |sources| ==> R.Grows(sources[k], sources'[k])
  }

  lemma {:induction false} DenotedKept(sources: seq<C.Sys>, sources': seq<C.Sys>, stamps: seq<nat>)
    requires SourcesGrow(sources, sources') && |stamps| <= |sources|
    requires forall k :: 0 <= k < |stamps| ==> stamps[k] in sources[k].issued
    ensures FieldsDenoted(sources', stamps) == FieldsDenoted(sources, stamps)
  {
    if stamps != [] {
      var k := |stamps| - 1;
      assert R.Grows(sources[k], sources'[k]);
      DenotedKept(sources, sources', stamps[..k]);
    }
  }

  lemma EntryKept(types: Types, sources: seq<C.Sys>, sources': seq<C.Sys>, t: Tenant, entry: Entry)
    requires SourcesGrow(sources, sources') && EntrySound(types, sources, t, entry)
    ensures EntrySound(types, sources', t, entry)
  {
    hide GroupOf;
    forall k | 0 <= k < |entry.stamps|
      ensures entry.stamps[k] in sources'[k].issued && sources'[k].issued[entry.stamps[k]].tenant == t
    {
      assert R.Grows(sources[k], sources'[k]);
    }
    DenotedKept(sources, sources', entry.stamps);
  }

  lemma AnswerKept(source: C.Sys, source': C.Sys, who: C.Who, t: Tenant, floor: nat, view: View)
    requires R.Grows(source, source') && Answered(source, who, t, floor, view)
    ensures Answered(source', who, t, floor, view)
  {
    assert R.CallerGrows(source.callers[who], source'.callers[who]);
  }

  lemma GotKept(
    sources: seq<C.Sys>, sources': seq<C.Sys>, r: nat, round: nat, t: Tenant, floors: seq<nat>, got: seq<View>)
    requires SourcesGrow(sources, sources') && GotSound(sources, r, round, t, floors, got)
    ensures GotSound(sources', r, round, t, floors, got)
  {
    hide R.Grows;
    forall k | 0 <= k < |got| ensures Answered(sources'[k], C.GraphCall(r, round), t, floors[k], got[k]) {
      AnswerKept(sources[k], sources'[k], C.GraphCall(r, round), t, floors[k], got[k]);
    }
  }

  lemma RefusedKept(sources: seq<C.Sys>, sources': seq<C.Sys>, r: nat)
    requires SourcesGrow(sources, sources') && SomeRefused(sources, r)
    ensures SomeRefused(sources', r)
  {
    var k, round :| 0 <= k < |sources| && Refused(sources[k], r, round);
    assert R.Grows(sources[k], sources'[k]);
    assert R.CallerGrows(sources[k].callers[C.GraphCall(r, round)], sources'[k].callers[C.GraphCall(r, round)]);
    assert Refused(sources'[k], r, round);
  }

  lemma ServedKept(
    types: Types, sources: seq<C.Sys>, sources': seq<C.Sys>,
    r: nat, t: Tenant, floors: seq<nat>, served: Graph, via: Option<nat>)
    requires SourcesGrow(sources, sources') && ServedSound(types, sources, r, t, floors, served, via)
    ensures ServedSound(types, sources', r, t, floors, served, via)
  {
    hide GotSound, EntrySound, SourcesGrow, GroupOf, SomeRefused;
    match via
    case Some(round) =>
      var got :| |got| == |sources| && GotSound(sources, r, round, t, floors, got) && served == GroupOf(types, AllFields(got));
      assert |sources'| == |sources| by { LengthKept(sources, sources'); }
      GotKept(sources, sources', r, round, t, floors, got);
    case None =>
      RefusedKept(sources, sources', r);
      if served != PLAIN {
        var entry :| EntrySound(types, sources, t, entry) && entry.served == served;
        EntryKept(types, sources, sources', t, entry);
      }
  }

  lemma LengthKept(sources: seq<C.Sys>, sources': seq<C.Sys>)
    requires SourcesGrow(sources, sources')
    ensures |sources'| == |sources|
  {
  }

  lemma FloorsKept(sources: seq<C.Sys>, sources': seq<C.Sys>, t: Tenant, floors: seq<nat>)
    requires SourcesGrow(sources, sources') && FloorsLow(sources, t, floors)
    ensures FloorsLow(sources', t, floors)
  {
    forall k | 0 <= k < |floors| ensures floors[k] <= sources'[k].Floor(t) {
      assert R.Grows(sources[k], sources'[k]);
    }
  }

  lemma RequestKept(types: Types, sources: seq<C.Sys>, sources': seq<C.Sys>, r: nat, request: Request)
    requires SourcesGrow(sources, sources') && RequestSound(types, sources, r, request)
    ensures RequestSound(types, sources', r, request)
  {
    hide GotSound, EntrySound, ServedSound, SourcesGrow, FloorsLow;
    var t, floors := request.tenant, request.floors;
    FloorsKept(sources, sources', t, floors);
    match request.pc
    case Checking(cached, got, under) =>
      if cached.Some? { EntryKept(types, sources, sources', t, cached.value); }
      GotKept(sources, sources', r, Round(under), t, floors, got);
    case Building(_, got) =>
      LengthKept(sources, sources');
      GotKept(sources, sources', r, 1, t, floors, got);
    case Unlocking(_, served, via) => ServedKept(types, sources, sources', r, t, floors, served, via);
    case Leaving(_, served, via) => ServedKept(types, sources, sources', r, t, floors, served, via);
    case Served(served, via) => ServedKept(types, sources, sources', r, t, floors, served, via);
    case _ =>
  }

  /** One source taking a step of its own. */
  lemma OneGrows(sources: seq<C.Sys>, k: nat, step: C.Action)
    requires SourcesSound(sources) && k < |sources| && C.Ready(sources[k]) && C.Enabled(sources[k], step)
    ensures var sources' := sources[k := C.Apply(sources[k], step)];
      SourcesSound(sources') && SourcesGrow(sources, sources')
  {
    hide R.Grows, S.Inv, C.Apply, C.Enabled, C.Ready;
    var sources' := sources[k := C.Apply(sources[k], step)];
    assert S.Inv(sources[k]);
    S.StepHolds(sources[k], step);
    R.StepGrows(sources[k], step);
    forall j | 0 <= j < |sources| ensures R.Grows(sources[j], sources'[j]) {
      R.GrowsSelf(sources[j]);
    }
  }

  /** Entries and requests a step of the sources leaves alone stay sound. */
  lemma RestKept(s: Sys, s': Sys)
    requires HeldSound(s) && RequestsSound(s) && SourcesGrow(s.sources, s'.sources)
    requires s' == s.(sources := s'.sources)
    ensures HeldSound(s') && RequestsSound(s')
  {
    hide EntrySound, RequestSound, SourcesGrow;
    forall t | t in s'.held ensures EntrySound(s'.types, s'.sources, t, s'.held[t]) {
      EntryKept(s.types, s.sources, s'.sources, t, s.held[t]);
    }
    forall r | r in s'.requests ensures RequestSound(s'.types, s'.sources, r, s'.requests[r]) {
      RequestKept(s.types, s.sources, s'.sources, r, s.requests[r]);
    }
  }

  /** The same calls under way, each with its tenant and floor. */
  predicate SameCalls(source: C.Sys, source': C.Sys) {
    && source'.callers.Keys == source.callers.Keys
    && forall who :: who in source.callers ==>
         source'.callers[who].tenant == source.callers[who].tenant && source'.callers[who].floor == source.callers[who].floor
  }

  lemma JoinKeepsCalls(source: C.Sys, who: C.Who, now: int)
    requires C.Ready(source) && C.CanJoin(source, who)
    ensures SameCalls(source, C.AfterJoin(source, who, now))
  {
    hide C.Join, C.Fresh;
  }

  lemma WakeKeepsCalls(source: C.Sys, who: C.Who)
    requires C.Ready(source) && C.CanWake(source, who)
    ensures SameCalls(source, C.AfterWake(source, who))
  {
  }

  lemma LeaveKeepsCalls(source: C.Sys, who: C.Who)
    requires C.Ready(source) && C.CanLeave(source, who)
    ensures SameCalls(source, C.AfterLeave(source, who))
  {
    hide C.Leave;
  }

  lemma FetchKeepsCalls(source: C.Sys, f: nat, now: int, fetched: C.Fetched)
    requires C.Ready(source) && C.CanFetch(source, f, fetched)
    ensures C.AfterFetch(source, f, now, fetched).callers == source.callers
  {
    hide FieldTypes.ViewOf;
  }

  lemma LandKeepsCalls(source: C.Sys, f: nat)
    requires C.Ready(source) && C.CanLand(source, f)
    ensures C.AfterLand(source, f).callers == source.callers
  {
    hide C.Land, C.Detach;
  }

  /** Only beginning a call adds a caller, and no step changes a caller's tenant or floor. */
  lemma CallersAfter(source: C.Sys, step: C.Action, who: C.Who)
    requires C.Ready(source) && C.Enabled(source, step)
    requires who in C.Apply(source, step).callers
    ensures var caller := C.Apply(source, step).callers[who];
      if who in source.callers
      then caller.tenant == source.callers[who].tenant && caller.floor == source.callers[who].floor
      else step.Begin? && who == step.who && caller == C.Caller(step.tenant, source.Floor(step.tenant), C.Joining)
  {
    hide C.Ready, C.CanJoin, C.CanWake, C.CanLeave, C.CanFetch, C.CanLand, C.Drop;
    hide C.AfterJoin, C.AfterFetch, C.AfterLand, C.AfterWake, C.AfterLeave;
    match step
    case JoinAs(w, now) => JoinKeepsCalls(source, w, now);
    case Wake(w) => WakeKeepsCalls(source, w);
    case LeaveAs(w) => LeaveKeepsCalls(source, w);
    case Fetch(f, now, fetched) => FetchKeepsCalls(source, f, now, fetched);
    case LandFlight(f) => LandKeepsCalls(source, f);
    case _ =>
  }

  // The steps.

  lemma SourceHolds(s: Sys, k: nat, step: C.Action)
    requires Inv(s) && CanSource(s, k, step)
    ensures Inv(s.(sources := s.sources[k := C.Apply(s.sources[k], step)]))
  {
    hide HeldSound, RequestsSound, LocksSound, S.Inv, C.Apply, C.Enabled, C.Ready, CallSound, SourcesGrow;
    var s' := s.(sources := s.sources[k := C.Apply(s.sources[k], step)]);
    OneGrows(s.sources, k, step);
    RestKept(s, s');
    forall j, who | 0 <= j < |s'.sources| && who in s'.sources[j].callers
      ensures CallSound(s.requests, j, who, s'.sources[j].callers[who])
    {
      if j == k {
        CallersAfter(s.sources[k], step, who);
        SameCall(s.requests, k, who, s.sources[k].callers, s'.sources[k].callers[who]);
      }
    }
  }

  lemma SameCall(requests: map<nat, Request>, k: nat, who: C.Who, callers: map<C.Who, C.Caller>, caller: C.Caller)
    requires who.GraphCall? ==>
      && who in callers && CallSound(requests, k, who, callers[who])
      && caller.tenant == callers[who].tenant && caller.floor == callers[who].floor
    ensures CallSound(requests, k, who, caller)
  {
  }

  lemma CallHolds(s: Sys, r: nat)
    requires Inv(s) && CanCall(s, r)
    ensures Inv(AfterCall(s, r))
  {
    var s', t, k := AfterCall(s, r), s.requests[r].tenant, |s.requests[r].pc.got|;
    var step := C.Begin(C.GraphCall(r, Round(s.requests[r].pc.under)), t);
    assert s' == s.(sources := s.sources[k := C.Apply(s.sources[k], step)]);
    assert RequestSound(s.types, s.sources, r, s.requests[r]);
    hide AfterCall, HeldSound, RequestsSound, LocksSound, S.Inv, C.Apply, C.Ready, PcSound, SourcesGrow;
    OneGrows(s.sources, k, step);
    RestKept(s, s');
    forall j, who | 0 <= j < |s'.sources| && who in s'.sources[j].callers
      ensures CallSound(s.requests, j, who, s'.sources[j].callers[who])
    {
      if j == k { CallersAfter(s.sources[k], step, who); }
    }
  }

  /** A request moving on its own keeps everything but its own place and its lock. */
  lemma MoveHolds(s: Sys, r: nat, pc: Pc, held: map<Tenant, Entry>, table: Table)
    requires Inv(s) && r in s.requests
    requires PcSound(s.types, s.sources, r, s.requests[r].tenant, s.requests[r].floors, pc)
    requires LocksSound(table, s.requests[r := s.requests[r].(pc := pc)])
    requires forall t :: t in held ==> EntrySound(s.types, s.sources, t, held[t])
    ensures Inv(Moved(s, r, pc).(table := table, held := held))
  {
    hide LocksSound, PcSound, EntrySound, SourcesSound;
  }

  lemma MoveHoldsLock(s: Sys, r: nat, pc: Pc, held: map<Tenant, Entry>)
    requires Inv(s) && r in s.requests
    requires PcSound(s.types, s.sources, r, s.requests[r].tenant, s.requests[r].floors, pc)
    requires LockOf(pc) == LockOf(s.requests[r].pc) && Holds(pc) == Holds(s.requests[r].pc)
    requires forall t :: t in held ==> EntrySound(s.types, s.sources, t, held[t])
    ensures Inv(Moved(s, r, pc).(held := held))
  {
    hide PcSound, EntrySound, SourcesSound, CallsSound, HeldSound, RequestsSound, LocksSound;
    MoveKeepsLocks(s.table, s.requests, r, s.requests[r].(pc := pc));
    MoveHolds(s, r, pc, held, s.table);
  }

  lemma BeginHolds(s: Sys, r: nat, t: Tenant)
    requires Inv(s) && r !in s.requests
    ensures Inv(AfterBegin(s, r, t))
  {
    hide EntrySound, SourcesSound, LocksSound, C.Ready;
    var s' := AfterBegin(s, r, t);
    MoveKeepsLocks(s.table, s.requests, r, s'.requests[r]);
    if s.sources == [] {
      assert GotSound(s.sources, r, 0, t, s'.requests[r].floors, []) && AllFields([]) == [];
      assert GraphSound(s.types, s.sources, r, 0, t, s'.requests[r].floors, PLAIN);
    }
  }

  /** What a source answered a call is the view of fields it issued that view's stamp for. */
  lemma AnswerIssued(source: C.Sys, who: C.Who, view: View)
    requires S.Inv(source) && who in source.callers
    requires source.callers[who].phase.Answered? && source.callers[who].phase.answer == C.Found(view)
    ensures S.IssuedFor(source.issued, view.stamp, source.callers[who].tenant, view.fields)
  {
    S.SoundAt(source, source.callers[who].phase.via);
  }

  lemma TakeHolds(s: Sys, r: nat)
    requires Inv(s) && CanTake(s, r)
    ensures Inv(AfterTake(s, r))
  {
    hide S.Inv, S.IssuedFor, EntrySound, LocksSound, HeldSound;
    var request := s.requests[r];
    var pc, k := request.pc, |request.pc.got|;
    var who := C.GraphCall(r, Round(pc.under));
    var phase := s.sources[k].callers[who].phase;
    HeldIsSound(s);
    assert RequestSound(s.types, s.sources, r, request) && CallSound(s.requests, k, who, s.sources[k].callers[who]);
    if phase.Answered? && phase.answer.Found? {
      AnswerIssued(s.sources[k], who, phase.answer.view);
      assert Answered(s.sources[k], who, request.tenant, request.floors[k], phase.answer.view);
      TookSound(s.sources, r, Round(pc.under), request.tenant, request.floors, pc.got, phase.answer.view);
      MoveHoldsLock(s, r, Checking(pc.cached, pc.got + [phase.answer.view], pc.under), s.held);
    } else {
      var served := if pc.cached.Some? then pc.cached.value.served else PLAIN;
      assert FallbackSound(s.types, s.sources, request.tenant, served);
      assert Refused(s.sources[k], r, Round(pc.under));
      MoveHoldsLock(s, r, Ended(pc.under, served, None), s.held);
    }
  }

  lemma TookSound(
    sources: seq<C.Sys>, r: nat, round: nat, t: Tenant, floors: seq<nat>, got: seq<View>, view: View)
    requires GotSound(sources, r, round, t, floors, got) && |got| < |sources|
    requires Answered(sources[|got|], C.GraphCall(r, round), t, floors[|got|], view)
    ensures GotSound(sources, r, round, t, floors, got + [view])
  {
    hide Answered;
  }

  /** The stamps of what the sources answered denote the fields they answered. */
  lemma {:induction false} GotDenotes(
    sources: seq<C.Sys>, r: nat, round: nat, t: Tenant, floors: seq<nat>, got: seq<View>)
    requires GotSound(sources, r, round, t, floors, got)
    ensures FieldsDenoted(sources, Stamps(got)) == AllFields(got)
  {
    if got != [] {
      var k := |got| - 1;
      assert Stamps(got)[..k] == Stamps(got[..k]);
      assert Answered(sources[k], C.GraphCall(r, round), t, floors[k], got[k]);
      GotDenotes(sources, r, round, t, floors, got[..k]);
    }
  }

  lemma GotGraph(
    types: Types, sources: seq<C.Sys>, r: nat, round: nat, t: Tenant, floors: seq<nat>, got: seq<View>, served: Graph)
    requires GotSound(sources, r, round, t, floors, got) && |got| == |sources|
    requires served == GroupOf(types, FieldsDenoted(sources, Stamps(got)))
    ensures GraphSound(types, sources, r, round, t, floors, served)
    ensures EntrySound(types, sources, t, Entry(Stamps(got), served))
  {
    hide GroupOf;
    GotDenotes(sources, r, round, t, floors, got);
    forall k | 0 <= k < |got|
      ensures Stamps(got)[k] in sources[k].issued && sources[k].issued[Stamps(got)[k]].tenant == t
    {
      assert Answered(sources[k], C.GraphCall(r, round), t, floors[k], got[k]);
    }
  }

  lemma DecideHolds(s: Sys, r: nat)
    requires Inv(s) && CanDecide(s, r)
    ensures Inv(AfterDecide(s, r))
  {
    hide EntrySound, GotSound, LocksSound, SourcesSound, CallsSound, HeldSound, GraphSound;
    var request := s.requests[r];
    var pc := request.pc;
    HeldIsSound(s);
    assert RequestSound(s.types, s.sources, r, request);
    if pc.cached.Some? && Stamps(pc.got) == pc.cached.value.stamps {
      CachedGraph(s.types, s.sources, r, Round(pc.under), request.tenant, request.floors, pc.got, pc.cached.value);
      MoveHoldsLock(s, r, Ended(pc.under, pc.cached.value.served, Some(Round(pc.under))), s.held);
    } else {
      MoveHoldsLock(s, r, if pc.under.None? then WantingLock else Building(pc.under.value, pc.got), s.held);
    }
  }

  lemma CachedGraph(
    types: Types, sources: seq<C.Sys>, r: nat, round: nat, t: Tenant, floors: seq<nat>, got: seq<View>, entry: Entry)
    requires GotSound(sources, r, round, t, floors, got) && |got| == |sources|
    requires EntrySound(types, sources, t, entry) && Stamps(got) == entry.stamps
    ensures GraphSound(types, sources, r, round, t, floors, entry.served)
  {
    GotGraph(types, sources, r, round, t, floors, got, entry.served);
  }

  lemma LocksWellFormed(s: Sys)
    requires Inv(s)
    ensures s.table.WellFormed()
  {
  }

  lemma UseLockHolds(s: Sys, r: nat)
    requires Inv(s) && CanUseLock(s, r)
    ensures Inv(AfterUseLock(s, r))
  {
    hide LocksSound, HeldSound, SourcesSound, CallsSound, RequestsSound;
    LocksWellFormed(s);
    UseKeepsLocks(s.table, s.requests, r);
    var (table, l) := Use(s.table, s.requests[r].tenant);
    HeldIsSound(s);
    MoveHolds(s, r, Awaiting(l), s.held, table);
  }

  lemma HeldIsSound(s: Sys)
    requires HeldSound(s)
    ensures forall t :: t in s.held ==> EntrySound(s.types, s.sources, t, s.held[t])
  {
  }

  lemma HoldLockHolds(s: Sys, r: nat)
    requires Inv(s) && CanHoldLock(s, r)
    ensures Inv(AfterHoldLock(s, r))
  {
    hide LocksSound, HeldSound, SourcesSound, CallsSound, RequestsSound;
    HoldKeepsLocks(s.table, s.requests, r);
    HeldIsSound(s);
    MoveHolds(s, r, Holding(s.requests[r].pc.l), s.held, Hold(s.table, s.requests[r].pc.l, r));
  }

  lemma RecheckHolds(s: Sys, r: nat)
    requires Inv(s) && CanRecheck(s, r)
    ensures Inv(Moved(s, r, Checking(Lookup(s.held, s.requests[r].tenant), [], Some(s.requests[r].pc.l))))
  {
    hide LocksSound, SourcesSound, CallsSound, EntrySound;
    assert RequestSound(s.types, s.sources, r, s.requests[r]);
    MoveHoldsLock(s, r, Checking(Lookup(s.held, s.requests[r].tenant), [], Some(s.requests[r].pc.l)), s.held);
  }

  lemma StoreHolds(s: Sys, r: nat)
    requires Inv(s) && CanStore(s, r)
    ensures Inv(AfterStore(s, r))
  {
    hide LocksSound, SourcesSound, CallsSound, EntrySound, GraphSound, GotSound;
    var request := s.requests[r];
    var served := GroupOf(s.types, AllFields(request.pc.got));
    assert RequestSound(s.types, s.sources, r, request);
    GotDenotes(s.sources, r, 1, request.tenant, request.floors, request.pc.got);
    GotGraph(s.types, s.sources, r, 1, request.tenant, request.floors, request.pc.got, served);
    MoveHoldsLock(s, r, Unlocking(request.pc.l, served, Some(1)),
                  s.held[request.tenant := Entry(Stamps(request.pc.got), served)]);
  }

  lemma UnlockHolds(s: Sys, r: nat)
    requires Inv(s) && CanUnlock(s, r)
    ensures var pc := s.requests[r].pc;
      Inv(Moved(s, r, Leaving(pc.l, pc.served, pc.via)).(table := Unhold(s.table, pc.l)))
  {
    hide LocksSound, HeldSound, SourcesSound, CallsSound, ServedSound;
    var pc := s.requests[r].pc;
    assert RequestSound(s.types, s.sources, r, s.requests[r]);
    UnholdKeepsLocks(s.table, s.requests, r, Leaving(pc.l, pc.served, pc.via));
    HeldIsSound(s);
    MoveHolds(s, r, Leaving(pc.l, pc.served, pc.via), s.held, Unhold(s.table, pc.l));
  }

  lemma UnuseLockHolds(s: Sys, r: nat)
    requires Inv(s) && CanUnuseLock(s, r)
    ensures var pc := s.requests[r].pc;
      Inv(Moved(s, r, GraphsProtocol.Served(pc.served, pc.via)).(table := Unuse(s.table, s.requests[r].tenant, pc.l)))
  {
    hide LocksSound, HeldSound, SourcesSound, CallsSound, ServedSound;
    var pc := s.requests[r].pc;
    assert RequestSound(s.types, s.sources, r, s.requests[r]);
    UnuseKeepsLocks(s.table, s.requests, r, GraphsProtocol.Served(pc.served, pc.via));
    HeldIsSound(s);
    MoveHolds(s, r, GraphsProtocol.Served(pc.served, pc.via), s.held, Unuse(s.table, s.requests[r].tenant, pc.l));
  }

  lemma EvictHolds(s: Sys, t: Tenant)
    requires Inv(s)
    ensures Inv(s.(held := s.held - {t}))
  {
    hide LocksSound, SourcesSound, CallsSound, RequestSound, EntrySound;
    var s' := s.(held := s.held - {t});
    assert RequestsSound(s');
  }

  /** Every step keeps the invariant. */
  lemma StepHolds(s: Sys, a: Action)
    requires Inv(s) && Enabled(s, a) && s.table.WellFormed()
    ensures Inv(Apply(s, a))
  {
    hide SourcesSound, CallsSound, RequestsSound, LocksSound;
    match a
    case Source(k, step) => SourceHolds(s, k, step);
    case Begin(r, t) => BeginHolds(s, r, t);
    case Call(r) => CallHolds(s, r);
    case Take(r) => TakeHolds(s, r);
    case Decide(r) => DecideHolds(s, r);
    case UseLock(r) => UseLockHolds(s, r);
    case HoldLock(r) => HoldLockHolds(s, r);
    case Recheck(r) => RecheckHolds(s, r);
    case Store(r) => StoreHolds(s, r);
    case Unlock(r) => UnlockHolds(s, r);
    case UnuseLock(r) => UnuseLockHolds(s, r);
    case Evict(t) => EvictHolds(s, t);
  }
}
