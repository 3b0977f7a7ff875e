/** Build locks count their users exactly and let one request at a time build for a tenant. */
module GraphsLocks {
  import opened Wrappers
  import opened FieldTypes
  import opened GraphsProtocol

  function LockOf(pc: Pc): Option<nat> {
    match pc
    case Checking(_, _, under) => under
    case Awaiting(l) => Some(l)
    case Holding(l) => Some(l)
    case Building(l, _) => Some(l)
    case Unlocking(l, _, _) => Some(l)
    case Leaving(l, _, _) => Some(l)
    case _ => None
  }

  /** A request between taking its lock and giving it back. */
  predicate Holds(pc: Pc) {
    LockOf(pc).Some? && !pc.Awaiting? && !pc.Leaving?
  }

  function Users(requests: map<nat, Request>, l: nat): set<nat> {
    set r | r in requests && LockOf(requests[r].pc) == Some(l)
  }

  /** A lock counts every request holding or awaiting it, and is held by the one that took it. */
  predicate LockSound(table: Table, requests: map<nat, Request>, l: nat)
    requires l < |table.locks|
  {
    var lock := table.locks[l];
    && lock.users == |Users(requests, l)|
    && (lock.users > 0 <==> lock.tenant in table.byTenant && table.byTenant[lock.tenant] == l)
    && (forall r :: r in requests && LockOf(requests[r].pc) == Some(l) ==>
          requests[r].tenant == lock.tenant && (Holds(requests[r].pc) <==> lock.holder == Some(r)))
    && (lock.holder.Some? ==> lock.holder.value in Users(requests, l))
  }

  predicate LocksSound(table: Table, requests: map<nat, Request>) {
    && (forall t :: t in table.byTenant ==> table.byTenant[t] < |table.locks| && table.locks[table.byTenant[t]].tenant == t)
    && (forall l: nat :: l < |table.locks| ==> LockSound(table, requests, l))
    && (forall r :: r in requests && LockOf(requests[r].pc).Some? ==> LockOf(requests[r].pc).value < |table.locks|)
  }

  /** A request that moves while keeping its lock leaves the locks sound. */
  lemma MoveKeepsLocks(table: Table, requests: map<nat, Request>, r: nat, request: Request)
    requires LocksSound(table, requests)
    requires if r in requests
             then request.tenant == requests[r].tenant && LockOf(request.pc) == LockOf(requests[r].pc)
                  && Holds(request.pc) == Holds(requests[r].pc)
             else LockOf(request.pc) == None
    ensures LocksSound(table, requests[r := request])
  {
    var requests' := requests[r := request];
    forall l: nat | l < |table.locks| ensures LockSound(table, requests', l) {
      assert LockSound(table, requests, l);
      assert Users(requests', l) == Users(requests, l);
    }
  }

  lemma UseMakesLock(table: Table, requests: map<nat, Request>, r: nat)
    requires LocksSound(table, requests) && r in requests && LockOf(requests[r].pc) == None
    requires |table.locks| < |Use(table, requests[r].tenant).0.locks|
    ensures var (table', l') := Use(table, requests[r].tenant);
      LockSound(table', requests[r := requests[r].(pc := Awaiting(l'))], |table.locks|)
  {
    var (table', l') := Use(table, requests[r].tenant);
    assert Users(requests[r := requests[r].(pc := Awaiting(l'))], l') == {r};
  }

  lemma UseKeepsLock(table: Table, requests: map<nat, Request>, r: nat, l: nat)
    requires LocksSound(table, requests) && r in requests && LockOf(requests[r].pc) == None
    requires l < |table.locks| <= |Use(table, requests[r].tenant).0.locks|
    ensures var (table', l') := Use(table, requests[r].tenant);
      LockSound(table', requests[r := requests[r].(pc := Awaiting(l'))], l)
  {
    var (table', l') := Use(table, requests[r].tenant);
    assert LockSound(table, requests, l);
    hide LocksSound;
    UsersAfterUse(requests, r, l, l');
  }

  lemma UsersAfterUse(requests: map<nat, Request>, r: nat, l: nat, l': nat)
    requires r in requests && LockOf(requests[r].pc) == None
    ensures Users(requests[r := requests[r].(pc := Awaiting(l'))], l) ==
      if l == l' then Users(requests, l) + {r} else Users(requests, l)
    ensures r !in Users(requests, l)
  {
  }

  lemma UseKeepsLocks(table: Table, requests: map<nat, Request>, r: nat)
    requires LocksSound(table, requests) && r in requests && LockOf(requests[r].pc) == None
    ensures var (table', l') := Use(table, requests[r].tenant);
      LocksSound(table', requests[r := requests[r].(pc := Awaiting(l'))])
  {
    var (table', l') := Use(table, requests[r].tenant);
    var requests' := requests[r := requests[r].(pc := Awaiting(l'))];
    forall l: nat | l < |table'.locks| ensures LockSound(table', requests', l) {
      if l < |table.locks| { UseKeepsLock(table, requests, r, l); } else { UseMakesLock(table, requests, r); }
    }
  }

  lemma HoldKeepsLocks(table: Table, requests: map<nat, Request>, r: nat)
    requires LocksSound(table, requests) && r in requests && requests[r].pc.Awaiting?
    requires requests[r].pc.l < |table.locks| && table.locks[requests[r].pc.l].holder.None?
    ensures var l' := requests[r].pc.l;
      LocksSound(Hold(table, l', r), requests[r := requests[r].(pc := Holding(l'))])
  {
    var l' := requests[r].pc.l;
    var table', requests' := Hold(table, l', r), requests[r := requests[r].(pc := Holding(l'))];
    forall l: nat | l < |table'.locks| ensures LockSound(table', requests', l) {
      assert LockSound(table, requests, l);
      assert Users(requests', l) == Users(requests, l);
    }
  }

  lemma UnholdKeepsLocks(table: Table, requests: map<nat, Request>, r: nat, pc: Pc)
    requires LocksSound(table, requests) && r in requests && Holds(requests[r].pc) && pc.Leaving?
    requires LockOf(requests[r].pc) == Some(pc.l) && pc.l < |table.locks|
    ensures LocksSound(Unhold(table, pc.l), requests[r := requests[r].(pc := pc)])
  {
    var table', requests' := Unhold(table, pc.l), requests[r := requests[r].(pc := pc)];
    forall l: nat | l < |table'.locks| ensures LockSound(table', requests', l) {
      assert LockSound(table, requests, l);
      assert Users(requests', l) == Users(requests, l);
    }
  }

  lemma UnuseKeepsLocks(table: Table, requests: map<nat, Request>, r: nat, pc: Pc)
    requires LocksSound(table, requests) && r in requests && requests[r].pc.Leaving? && LockOf(pc) == None
    requires requests[r].pc.l < |table.locks|
    ensures LocksSound(Unuse(table, requests[r].tenant, requests[r].pc.l), requests[r := requests[r].(pc := pc)])
  {
    var t, l' := requests[r].tenant, requests[r].pc.l;
    var table', requests' := Unuse(table, t, l'), requests[r := requests[r].(pc := pc)];
    assert LockSound(table, requests, l') && r in Users(requests, l');
    forall l: nat | l < |table'.locks| ensures LockSound(table', requests', l) {
      assert LockSound(table, requests, l);
      assert Users(requests', l) == if l == l' then Users(requests, l) - {r} else Users(requests, l);
    }
  }
}
