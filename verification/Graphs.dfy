/** The graph cache object: each locking section and each touch of the held cache does what the protocol's step does. */
module Graphs {
  import opened Wrappers
  import opened FieldTypes
  import opened Widen
  import P = GraphsProtocol
  import C = CatalogProtocol

  /** A lock one request of a tenant holds at a time, and the number of requests using it. */
  class BuildLock {
    ghost const place: nat
    ghost const tenant: Tenant
    var users: int
    var holder: Option<nat>

    constructor (ghost place: nat, ghost tenant: Tenant)
      ensures this.place == place && Value() == P.Lock(tenant, 0, None)
    {
      this.place, this.tenant := place, tenant;
      users, holder := 0, None;
    }

    ghost function Value(): P.Lock
      reads this
    {
      P.Lock(tenant, users, holder)
    }
  }

  class Graphs {
    const types: Types
    var held: map<Tenant, P.Entry>
    var locks: map<Tenant, BuildLock>
    ghost var made: seq<BuildLock>

    constructor (types: Types)
      ensures Valid() && this.types == types && held == map[] && Table() == P.Table([], map[])
    {
      this.types := types;
      held, locks, made := map[], map[], [];
    }

    /** Every lock ever made has its own place, and the mapped ones are among them. */
    ghost predicate Valid()
      reads this, made
    {
      && (forall i :: 0 <= i < |made| ==> made[i].place == i)
      && (forall t :: t in locks ==> Made(locks[t]))
    }

    ghost predicate Made(lock: BuildLock)
      reads this
    {
      lock.place < |made| && made[lock.place] == lock
    }

    static ghost function ValuesOf(made: seq<BuildLock>): (values: seq<P.Lock>)
      reads made
      ensures |values| == |made|
      ensures forall i :: 0 <= i < |made| ==> values[i] == made[i].Value()
    {
      seq(|made|, i requires 0 <= i < |made| reads made => made[i].Value())
    }

    static ghost function PlacesOf(locks: map<Tenant, BuildLock>): map<Tenant, nat> {
      map t | t in locks :: locks[t].place
    }

    ghost function Table(): P.Table
      reads this, made
    {
      P.Table(ValuesOf(made), PlacesOf(locks))
    }

    /** Counts one more user of the tenant's lock, making the lock when the map holds none. */
    method UseLock(t: Tenant) returns (lock: BuildLock)
      requires Valid()
      modifies this`locks, this`made, made
      ensures Valid() && old(made) <= made && fresh(made[|old(made)|..])
      ensures old(Table()).WellFormed() && Made(lock) && (Table(), lock.place) == P.Use(old(Table()), t)
    {
      if t in locks {
        lock := locks[t];
      } else {
        lock := new BuildLock(|made|, t);
        locks := locks[t := lock];
        made := made + [lock];
        assert PlacesOf(locks) == old(PlacesOf(locks))[t := lock.place];
      }
      lock.users := lock.users + 1;
      assert lock.place == |old(made)| ==> ValuesOf(made) == old(ValuesOf(made)) + [lock.Value()];
      assert lock.place < |old(made)| ==> ValuesOf(made) == old(ValuesOf(made))[lock.place := lock.Value()];
    }

    method Hold(lock: BuildLock, r: nat)
      requires Valid() && Made(lock) && lock.holder.None?
      modifies lock`holder
      ensures Valid() && Table() == P.Hold(old(Table()), lock.place, r)
    {
      lock.holder := Some(r);
      assert ValuesOf(made) == old(ValuesOf(made))[lock.place := lock.Value()];
    }

    /** Lets the lock's holder go and then counts one user fewer, dropping the lock with its last. */
    method Unhold(lock: BuildLock)
      requires Valid() && Made(lock)
      modifies lock`holder
      ensures Valid() && Table() == P.Unhold(old(Table()), lock.place)
    {
      lock.holder := None;
      assert ValuesOf(made) == old(ValuesOf(made))[lock.place := lock.Value()];
    }

    method UnuseLock(t: Tenant, lock: BuildLock)
      requires Valid() && Made(lock)
      modifies this`locks, lock`users
      ensures Valid() && Table() == P.Unuse(old(Table()), t, lock.place)
    {
      lock.users := lock.users - 1;
      if lock.users == 0 {
        locks := locks - {t};
        assert PlacesOf(locks) == old(PlacesOf(locks)) - {t};
      }
      assert ValuesOf(made) == old(ValuesOf(made))[lock.place := lock.Value()];
    }

    /** Gathers every source's stamp and fields, unless one of them failed. */
    method Collect(answers: seq<C.Answer>) returns (stamps: seq<nat>, fields: seq<GraphField>, failed: bool)
      ensures failed <==> exists k :: 0 <= k < |answers| && answers[k].Failed?
      ensures !failed ==> exists got :: Found(answers, got) && stamps == P.Stamps(got) && fields == P.AllFields(got)
    {
      stamps, fields, failed := [], [], false;
      ghost var got: seq<View> := [];
      for k := 0 to |answers|
        invariant !failed && Found(answers[..k], got) && stamps == P.Stamps(got) && fields == P.AllFields(got)
        invariant forall j :: 0 <= j < k ==> answers[j].Found?
      {
        if answers[k].Failed? {
          return [], [], true;
        }
        stamps := stamps + [answers[k].view.stamp];
        fields := fields + answers[k].view.fields;
        assert (got + [answers[k].view])[..k] == got;
        got := got + [answers[k].view];
      }
      assert answers[..|answers|] == answers;
    }

    /** Either a graph to serve at once or what the sources answered, to build from. */
    method Check(t: Tenant, answers: seq<C.Answer>)
      returns (served: Option<P.Graph>, stamps: seq<nat>, fields: seq<GraphField>)
      ensures (exists k :: 0 <= k < |answers| && answers[k].Failed?) ==>
        served == Some(if t in held then held[t].served else P.PLAIN)
      ensures (forall k :: 0 <= k < |answers| ==> answers[k].Found?) ==>
        && (exists got :: Found(answers, got) && stamps == P.Stamps(got) && fields == P.AllFields(got))
        && served == if t in held && held[t].stamps == stamps then Some(held[t].served) else None
    {
      var cached := P.Lookup(held, t);
      var failed;
      stamps, fields, failed := Collect(answers);
      if failed {
        served := Some(if cached.Some? then cached.value.served else P.PLAIN);
      } else if cached.Some? && stamps == cached.value.stamps {
        served := Some(cached.value.served);
      } else {
        served := None;
      }
    }

    /** Builds the graph of the fields and holds it under their stamps. */
    method Build(t: Tenant, stamps: seq<nat>, fields: seq<GraphField>) returns (served: P.Graph)
      modifies this`held
      ensures served == GroupOf(types, fields) && held == old(held)[t := P.Entry(stamps, served)]
    {
      served := GroupByEntity(types, fields);
      held := held[t := P.Entry(stamps, served)];
    }
  }

  /** The views of answers none of which failed. */
  predicate Found(answers: seq<C.Answer>, got: seq<View>) {
    |got| == |answers| && forall k :: 0 <= k < |answers| ==> answers[k] == C.Found(got[k])
  }
}
