/**
 The per-tenant graph cache on top of its field sources, as a protocol: one
 atomic step per mutex section, per touch of the held cache, and per call of a
 source. Each source is a whole catalogue with its own steps between these.
 */
module GraphsProtocol {
  import opened Wrappers
  import opened FieldTypes
  import opened Widen
  import C = CatalogProtocol

  // Build locks.

  /**
   A lock on one tenant's builds: used from the step that takes it out of the map to the
   step that gives it back.
   */
  datatype Lock = Lock(tenant: Tenant, users: int, holder: Option<nat>)

  /** Every lock ever made, named by its place, and the one each tenant's callers now share. */
  datatype Table = Table(locks: seq<Lock>, byTenant: map<Tenant, nat>)
  {
    predicate WellFormed() {
      forall t :: t in byTenant ==> byTenant[t] < |locks|
    }
  }

  /** One more user of the tenant's lock, made when there is none. */
  function Use(table: Table, t: Tenant): (Table, nat)
    requires table.WellFormed()
  {
    if t in table.byTenant then
      var l := table.byTenant[t];
      (table.(locks := table.locks[l := table.locks[l].(users := table.locks[l].users + 1)]), l)
    else
      (Table(table.locks + [Lock(t, 1, None)], table.byTenant[t := |table.locks|]), |table.locks|)
  }

  function Hold(table: Table, l: nat, r: nat): Table
    requires l < |table.locks|
  {
    table.(locks := table.locks[l := table.locks[l].(holder := Some(r))])
  }

  function Unhold(table: Table, l: nat): Table
    requires l < |table.locks|
  {
    table.(locks := table.locks[l := table.locks[l].(holder := None)])
  }

  /** One user fewer, the lock let go with its last. */
  function Unuse(table: Table, t: Tenant, l: nat): Table
    requires l < |table.locks|
  {
    var left := table.locks[l].(users := table.locks[l].users - 1);
    Table(table.locks[l := left], if left.users == 0 then table.byTenant - {t} else table.byTenant)
  }

  // Requests.

  /** A graph is the runtime fields it serves; the plain one serves none. */
  type Graph = ByEntity

  const PLAIN: Graph := map[]

  datatype Entry = Entry(stamps: seq<nat>, served: Graph)

  /**
   Where a request stands. A check holds the entry it found and what the sources
   answered so far; the second one is made under the tenant's lock. `via` is the
   check a served graph was decided by, none when a source failed it.
   */
  datatype Pc =
    | Checking(cached: Option<Entry>, got: seq<View>, under: Option<nat>)
    | WantingLock
    | Awaiting(l: nat)
    | Holding(l: nat)
    | Building(l: nat, got: seq<View>)
    | Unlocking(l: nat, served: Graph, via: Option<nat>)
    | Leaving(l: nat, served: Graph, via: Option<nat>)
    | Served(served: Graph, via: Option<nat>)

  /** `floors` is, for each source, the newest version forgotten into view before the request began. */
  datatype Request = Request(tenant: Tenant, floors: seq<nat>, pc: Pc)

  datatype Sys = Sys(
    types: Types, sources: seq<C.Sys>, held: map<Tenant, Entry>, table: Table, requests: map<nat, Request>)

  function Round(under: Option<nat>): nat { if under.None? then 0 else 1 }

  function Stamps(got: seq<View>): (stamps: seq<nat>)
    ensures |stamps| == |got|
  {
    seq(|got|, k requires 0 <= k < |got| => got[k].stamp)
  }

  function AllFields(got: seq<View>): seq<GraphField> {
    if got == [] then [] else AllFields(got[..|got| - 1]) + got[|got| - 1].fields
  }

  function Lookup(held: map<Tenant, Entry>, t: Tenant): Option<Entry> {
    if t in held then Some(held[t]) else None
  }

  datatype Action =
    | Source(k: nat, step: C.Action)
    | Begin(r: nat, tenant: Tenant)
    | Call(r: nat)
    | Take(r: nat)
    | Decide(r: nat)
    | UseLock(r: nat)
    | HoldLock(r: nat)
    | Recheck(r: nat)
    | Store(r: nat)
    | Unlock(r: nat)
    | UnuseLock(r: nat)
    | Evict(tenant: Tenant)

  predicate Start(s: Sys) {
    && s.held == map[] && s.table == Table([], map[]) && s.requests == map[]
    && forall k :: 0 <= k < |s.sources| ==> C.Start(s.sources[k])
  }

  /** A source's own steps: all but the calls requests make. */
  predicate CanSource(s: Sys, k: nat, step: C.Action) {
    && k < |s.sources| && C.Ready(s.sources[k]) && C.Enabled(s.sources[k], step)
    && !(step.Begin? && step.who.GraphCall?)
  }

  /** A check asks its sources one after another. */
  predicate CanCall(s: Sys, r: nat) {
    && r in s.requests && s.requests[r].pc.Checking?
    && var pc := s.requests[r].pc;
    && |pc.got| < |s.sources| && C.Ready(s.sources[|pc.got|])
    && C.GraphCall(r, Round(pc.under)) !in s.sources[|pc.got|].callers
  }

  predicate CanTake(s: Sys, r: nat) {
    && r in s.requests && s.requests[r].pc.Checking?
    && var pc := s.requests[r].pc;
    && |pc.got| < |s.sources|
    && C.GraphCall(r, Round(pc.under)) in s.sources[|pc.got|].callers
    && var phase := s.sources[|pc.got|].callers[C.GraphCall(r, Round(pc.under))].phase;
    phase.Answered? || phase.Quit?
  }

  predicate CanDecide(s: Sys, r: nat) {
    r in s.requests && s.requests[r].pc.Checking? && |s.requests[r].pc.got| == |s.sources|
  }

  predicate CanUseLock(s: Sys, r: nat) {
    r in s.requests && s.requests[r].pc.WantingLock?
  }

  predicate CanHoldLock(s: Sys, r: nat) {
    && r in s.requests && s.requests[r].pc.Awaiting?
    && s.requests[r].pc.l < |s.table.locks| && s.table.locks[s.requests[r].pc.l].holder.None?
  }

  predicate CanRecheck(s: Sys, r: nat) {
    r in s.requests && s.requests[r].pc.Holding?
  }

  predicate CanStore(s: Sys, r: nat) {
    r in s.requests && s.requests[r].pc.Building?
  }

  predicate CanUnlock(s: Sys, r: nat) {
    r in s.requests && s.requests[r].pc.Unlocking? && s.requests[r].pc.l < |s.table.locks|
  }

  predicate CanUnuseLock(s: Sys, r: nat) {
    r in s.requests && s.requests[r].pc.Leaving? && s.requests[r].pc.l < |s.table.locks|
  }

  predicate Enabled(s: Sys, a: Action) {
    match a
    case Source(k, step) => CanSource(s, k, step)
    case Begin(r, _) => r !in s.requests
    case Call(r) => CanCall(s, r)
    case Take(r) => CanTake(s, r)
    case Decide(r) => CanDecide(s, r)
    case UseLock(r) => CanUseLock(s, r)
    case HoldLock(r) => CanHoldLock(s, r)
    case Recheck(r) => CanRecheck(s, r)
    case Store(r) => CanStore(s, r)
    case Unlock(r) => CanUnlock(s, r)
    case UnuseLock(r) => CanUnuseLock(s, r)
    case Evict(_) => true
  }

  function Apply(s: Sys, a: Action): Sys
    requires s.table.WellFormed() && Enabled(s, a)
  {
    match a
    case Source(k, step) => s.(sources := s.sources[k := C.Apply(s.sources[k], step)])
    case Begin(r, t) => AfterBegin(s, r, t)
    case Call(r) => AfterCall(s, r)
    case Take(r) => AfterTake(s, r)
    case Decide(r) => AfterDecide(s, r)
    case UseLock(r) => AfterUseLock(s, r)
    case HoldLock(r) => AfterHoldLock(s, r)
    case Recheck(r) =>
      var pc := s.requests[r].pc;
      Moved(s, r, Checking(Lookup(s.held, s.requests[r].tenant), [], Some(pc.l)))
    case Store(r) => AfterStore(s, r)
    case Unlock(r) =>
      var pc := s.requests[r].pc;
      Moved(s, r, Leaving(pc.l, pc.served, pc.via)).(table := Unhold(s.table, pc.l))
    case UnuseLock(r) =>
      var pc := s.requests[r].pc;
      Moved(s, r, Served(pc.served, pc.via)).(table := Unuse(s.table, s.requests[r].tenant, pc.l))
    case Evict(t) => s.(held := s.held - {t})
  }

  function Moved(s: Sys, r: nat, pc: Pc): Sys
    requires r in s.requests
  {
    s.(requests := s.requests[r := s.requests[r].(pc := pc)])
  }

  /** Without sources every request is served the plain graph. */
  function AfterBegin(s: Sys, r: nat, t: Tenant): Sys {
    var floors := seq(|s.sources|, k requires 0 <= k < |s.sources| => s.sources[k].Floor(t));
    var pc := if s.sources == [] then Served(PLAIN, Some(0)) else Checking(Lookup(s.held, t), [], None);
    s.(requests := s.requests[r := Request(t, floors, pc)])
  }

  function AfterCall(s: Sys, r: nat): Sys
    requires CanCall(s, r)
  {
    var pc := s.requests[r].pc;
    var k := |pc.got|;
    var who := C.GraphCall(r, Round(pc.under));
    s.(sources := s.sources[k := C.Apply(s.sources[k], C.Begin(who, s.requests[r].tenant))])
  }

  /** A check that ends with a graph to serve; the second one still holds the lock. */
  function Ended(under: Option<nat>, served: Graph, via: Option<nat>): Pc {
    if under.None? then Served(served, via) else Unlocking(under.value, served, via)
  }

  /** A source that fails the check leaves the request the entry found, or else the plain graph. */
  function AfterTake(s: Sys, r: nat): Sys
    requires CanTake(s, r)
  {
    var pc := s.requests[r].pc;
    var phase := s.sources[|pc.got|].callers[C.GraphCall(r, Round(pc.under))].phase;
    if phase.Answered? && phase.answer.Found? then
      Moved(s, r, Checking(pc.cached, pc.got + [phase.answer.view], pc.under))
    else
      Moved(s, r, Ended(pc.under, if pc.cached.Some? then pc.cached.value.served else PLAIN, None))
  }

  function AfterDecide(s: Sys, r: nat): Sys
    requires CanDecide(s, r)
  {
    var pc := s.requests[r].pc;
    if pc.cached.Some? && Stamps(pc.got) == pc.cached.value.stamps then
      Moved(s, r, Ended(pc.under, pc.cached.value.served, Some(Round(pc.under))))
    else
      Moved(s, r, if pc.under.None? then WantingLock else Building(pc.under.value, pc.got))
  }

  function AfterUseLock(s: Sys, r: nat): Sys
    requires s.table.WellFormed() && CanUseLock(s, r)
  {
    var (table, l) := Use(s.table, s.requests[r].tenant);
    Moved(s, r, Awaiting(l)).(table := table)
  }

  function AfterHoldLock(s: Sys, r: nat): Sys
    requires CanHoldLock(s, r)
  {
    var l := s.requests[r].pc.l;
    Moved(s, r, Holding(l)).(table := Hold(s.table, l, r))
  }

  function AfterStore(s: Sys, r: nat): Sys
    requires CanStore(s, r)
  {
    var pc := s.requests[r].pc;
    var served := GroupOf(s.types, AllFields(pc.got));
    Moved(s, r, Unlocking(pc.l, served, Some(1))).(
      held := s.held[s.requests[r].tenant := Entry(Stamps(pc.got), served)])
  }
}
