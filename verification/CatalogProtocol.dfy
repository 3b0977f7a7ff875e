/**
 The catalogue cache as a protocol: one atomic step per mutex section, per read
 of the definitions, and per wake of a waiting caller.
 */
module CatalogProtocol {
  import opened Wrappers
  import opened FieldTypes

  datatype Error = SourceError | Cancelled

  datatype Answer = Found(view: View) | Failed(error: Error)

  /** A reading of one tenant's definitions, and how many calls wait on it. */
  datatype FlightState = FlightState(waiting: int, stopped: bool, overtaken: bool, outcome: Option<Answer>)

  /** What the mutex guards. A flight is named by its place in `flying`, which only grows. */
  datatype Cat = Cat(
    refresh: int,
    views: map<Tenant, View>,
    flights: map<Tenant, nat>,
    flying: seq<FlightState>,
    stamped: nat)
  {
    predicate WellFormed() {
      forall t :: t in flights ==> flights[t] < |flying|
    }
  }

  predicate Fresh(c: Cat, t: Tenant, now: int) {
    t in c.views && now - c.views[t].read < c.refresh
  }

  /** One more caller waits on the read under way, started when none is. */
  function Share(c: Cat, t: Tenant): Cat
    requires c.WellFormed()
  {
    if t in c.flights then
      var f := c.flights[t];
      c.(flying := c.flying[f := c.flying[f].(waiting := c.flying[f].waiting + 1)])
    else
      c.(flights := c.flights[t := |c.flying|], flying := c.flying + [FlightState(1, false, false, None)])
  }

  /** One caller joins: answered by a fresh view, or else sharing a read. */
  function Join(c: Cat, t: Tenant, now: int): Cat
    requires c.WellFormed()
  {
    if Fresh(c, t, now) then c else Share(c, t)
  }

  /** Unmaps f when it is what its tenant has mapped, and says whether it was. */
  function Detach(flights: map<Tenant, nat>, t: Tenant, f: nat): (map<Tenant, nat>, bool) {
    if t in flights && flights[t] == f then (flights - {t}, true) else (flights, false)
  }

  /** One caller gives up on f, which is stopped once no caller waits on it. */
  function Leave(c: Cat, t: Tenant, f: nat): Cat
    requires f < |c.flying|
  {
    var left := c.flying[f].(waiting := c.flying[f].waiting - 1);
    if left.waiting == 0 then
      c.(flying := c.flying[f := left.(stopped := true)], flights := Detach(c.flights, t, f).0)
    else
      c.(flying := c.flying[f := left])
  }

  /** The counter and the stamp for fields: the held view's stamp when it holds the same ones, the next one otherwise. */
  function StampFor(views: map<Tenant, View>, stamped: nat, t: Tenant, fields: seq<GraphField>): (nat, nat) {
    if t in views && views[t].fields == fields then (stamped, views[t].stamp) else (stamped + 1, stamped + 1)
  }

  /** The last part of a read: f hands what it read to its callers, and to the cache while it is current. */
  function Land(c: Cat, t: Tenant, f: nat, read: Answer): Cat
    requires f < |c.flying|
  {
    var landed := c.flying[f].(stopped := true);
    var (flights, current) := Detach(c.flights, t, f);
    match read
    case Failed(_) =>
      c.(flights := flights, flying := c.flying[f := landed.(outcome := Some(read))])
    case Found(view) =>
      var (stamped, stamp) := StampFor(c.views, c.stamped, t, view.fields);
      var handed := view.(stamp := stamp);
      c.(flights := flights,
         stamped := stamped,
         views := if current then c.views[t := handed] else c.views,
         flying := c.flying[f := landed.(outcome := Some(Found(handed)))])
  }

  /** No view and no mapped flight of the tenant; a flight that was mapped is overtaken and stopped. */
  function Drop(c: Cat, t: Tenant): Cat
    requires c.WellFormed()
  {
    if t in c.flights then
      var f := c.flights[t];
      c.(flying := c.flying[f := c.flying[f].(overtaken := true, stopped := true)],
         flights := c.flights - {t},
         views := c.views - {t})
    else
      c.(views := c.views - {t})
  }

  // The whole system: the cache, the definitions it reads, and its callers.

  /** Who calls: the k-th check of a graph request, or any other user of the catalogue. */
  datatype Who = GraphCall(request: nat, round: nat) | Other(n: nat)

  datatype Phase = Joining | Waiting(flight: nat) | Answered(answer: Answer, via: nat) | Quit

  /** A call for a view, beside the newest version that was forgotten into view before it began. */
  datatype Caller = Caller(tenant: Tenant, floor: nat, phase: Phase)

  datatype ReadState = Unread | Read(version: nat, answer: Answer)

  /** What a flight is reading: its tenant, and the forgets and the floor it began after. */
  datatype Reading = Reading(tenant: Tenant, epoch: nat, floor: nat, state: ReadState)

  datatype Issue = Issue(tenant: Tenant, fields: seq<GraphField>)

  type Database = map<Tenant, seq<Definition>>

  /**
   `history` is every committed state of the definitions. The other fields past
   `cat` record what happened, for the properties to speak of: what each flight
   reads, which flight each held view came from, how often and at which version
   each tenant was last forgotten, and what each stamp was issued for.
   */
  datatype Sys = Sys(
    cat: Cat,
    history: seq<Database>,
    readings: seq<Reading>,
    origin: map<Tenant, nat>,
    epochs: map<Tenant, nat>,
    floors: map<Tenant, nat>,
    issued: map<nat, Issue>,
    callers: map<Who, Caller>)
  {
    function Epoch(t: Tenant): nat { if t in epochs then epochs[t] else 0 }

    function Floor(t: Tenant): nat { if t in floors then floors[t] else 0 }

    /** The definitions live for t at a version. */
    function Live(version: nat, t: Tenant): seq<Definition>
      requires version < |history|
    {
      if t in history[version] then history[version][t] else []
    }

    function Waiters(f: nat): set<Who> {
      set w | w in callers && callers[w].phase == Waiting(f)
    }
  }

  datatype Fetched = Success | SourceDown | ReadCancelled

  datatype Action =
    | Change(db: Database)
    | Begin(who: Who, tenant: Tenant)
    | JoinAs(who: Who, now: int)
    | Fetch(flight: nat, now: int, fetched: Fetched)
    | LandFlight(flight: nat)
    | Wake(who: Who)
    | LeaveAs(who: Who)
    | Forget(tenant: Tenant)
    | Evict(tenant: Tenant)

  predicate Start(s: Sys) {
    && s.cat.views == map[] && s.cat.flights == map[] && s.cat.flying == [] && s.cat.stamped == 0
    && |s.history| == 1 && s.readings == [] && s.origin == map[] && s.epochs == map[] && s.floors == map[]
    && s.issued == map[] && s.callers == map[]
  }

  predicate CanJoin(s: Sys, who: Who) {
    who in s.callers && s.callers[who].phase == Joining
  }

  /** A read answers a cancellation only once it was stopped. */
  predicate CanFetch(s: Sys, f: nat, fetched: Fetched) {
    && f < |s.readings| == |s.cat.flying| && s.readings[f].state == Unread
    && (fetched == ReadCancelled ==> s.cat.flying[f].stopped)
  }

  predicate CanLand(s: Sys, f: nat) {
    f < |s.readings| == |s.cat.flying| && s.readings[f].state.Read? && s.cat.flying[f].outcome == None
  }

  predicate CanLeave(s: Sys, who: Who) {
    who in s.callers && s.callers[who].phase.Waiting? && s.callers[who].phase.flight < |s.cat.flying|
  }

  predicate CanWake(s: Sys, who: Who) {
    CanLeave(s, who) && s.cat.flying[s.callers[who].phase.flight].outcome.Some?
  }

  predicate Enabled(s: Sys, a: Action) {
    match a
    case Begin(who, _) => who !in s.callers
    case JoinAs(who, _) => CanJoin(s, who)
    case Fetch(f, _, fetched) => CanFetch(s, f, fetched)
    case LandFlight(f) => CanLand(s, f)
    case Wake(who) => CanWake(s, who)
    case LeaveAs(who) => CanLeave(s, who)
    case _ => true
  }

  /** The state one enabled action leads to. */
  function Apply(s: Sys, a: Action): Sys
    requires Ready(s) && Enabled(s, a)
  {
    match a
    case Change(db) => s.(history := s.history + [db])
    case Begin(who, t) => s.(callers := s.callers[who := Caller(t, s.Floor(t), Joining)])
    case JoinAs(who, now) => AfterJoin(s, who, now)
    case Fetch(f, now, fetched) => AfterFetch(s, f, now, fetched)
    case LandFlight(f) => AfterLand(s, f)
    case Wake(who) => AfterWake(s, who)
    case LeaveAs(who) => AfterLeave(s, who)
    case Forget(t) => AfterForget(s, t)
    case Evict(t) => s.(cat := s.cat.(views := s.cat.views - {t}))
  }

  predicate Ready(s: Sys) {
    s.cat.WellFormed() && |s.history| > 0 && forall t :: t in s.cat.views ==> t in s.origin
  }

  function AfterJoin(s: Sys, who: Who, now: int): Sys
    requires Ready(s) && CanJoin(s, who)
  {
    var caller := s.callers[who];
    var t := caller.tenant;
    if Fresh(s.cat, t, now) then
      s.(callers := s.callers[who := caller.(phase := Answered(Found(s.cat.views[t]), s.origin[t]))])
    else
      var cat := Join(s.cat, t, now);
      s.(cat := cat,
         readings := if t in s.cat.flights then s.readings
                     else s.readings + [Reading(t, s.Epoch(t), s.Floor(t), Unread)],
         callers := s.callers[who := caller.(phase := Waiting(cat.flights[t]))])
  }

  function AfterFetch(s: Sys, f: nat, now: int, fetched: Fetched): Sys
    requires Ready(s) && CanFetch(s, f, fetched)
  {
    var version := |s.history| - 1;
    var answer := match fetched
      case Success => Found(ViewOf(s.Live(version, s.readings[f].tenant), now))
      case SourceDown => Failed(SourceError)
      case ReadCancelled => Failed(Cancelled);
    s.(readings := s.readings[f := s.readings[f].(state := Read(version, answer))])
  }

  function AfterLand(s: Sys, f: nat): Sys
    requires Ready(s) && CanLand(s, f)
  {
    var reading := s.readings[f];
    var cat := Land(s.cat, reading.tenant, f, reading.state.answer);
    if reading.state.answer.Failed? then s.(cat := cat)
    else
      var view := cat.flying[f].outcome.value.view;
      s.(cat := cat,
         origin := if Detach(s.cat.flights, reading.tenant, f).1 then s.origin[reading.tenant := f] else s.origin,
         issued := s.issued[view.stamp := Issue(reading.tenant, view.fields)])
  }

  function AfterWake(s: Sys, who: Who): Sys
    requires Ready(s) && CanWake(s, who)
  {
    var caller := s.callers[who];
    var f := caller.phase.flight;
    var phase := if s.cat.flying[f].overtaken then Joining else Answered(s.cat.flying[f].outcome.value, f);
    s.(callers := s.callers[who := caller.(phase := phase)])
  }

  function AfterLeave(s: Sys, who: Who): Sys
    requires Ready(s) && CanLeave(s, who)
  {
    s.(cat := Leave(s.cat, s.callers[who].tenant, s.callers[who].phase.flight),
       callers := s.callers[who := s.callers[who].(phase := Quit)])
  }

  function AfterForget(s: Sys, t: Tenant): Sys
    requires Ready(s)
  {
    s.(cat := Drop(s.cat, t),
       epochs := s.epochs[t := s.Epoch(t) + 1],
       floors := s.floors[t := |s.history| - 1])
  }
}
