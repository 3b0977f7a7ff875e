/** The catalogue object: each mutex section changes its fields exactly as the protocol's step does. */
module Catalog {
  import opened Wrappers
  import opened FieldTypes
  import P = CatalogProtocol

  /** One read of a tenant's catalogue, updated in place by its callers and by the read itself. */
  class Flight {
    ghost const place: nat
    var waiting: int
    var stopped: bool
    var overtaken: bool
    var outcome: Option<P.Answer>

    constructor (ghost place: nat)
      ensures this.place == place && Value() == P.FlightState(0, false, false, None)
    {
      this.place := place;
      waiting, stopped, overtaken, outcome := 0, false, false, None;
    }

    ghost function Value(): P.FlightState
      reads this
    {
      P.FlightState(waiting, stopped, overtaken, outcome)
    }
  }

  class Catalog {
    const refresh: int
    var views: map<Tenant, View>
    var flights: map<Tenant, Flight>
    var stamped: nat
    ghost var flown: seq<Flight>

    constructor (refresh: int)
      ensures Valid() && fresh(this)
      ensures State() == P.Cat(refresh, map[], map[], [], 0)
    {
      this.refresh := refresh;
      views, flights, stamped, flown := map[], map[], 0, [];
    }

    /** Every flight ever started has its own place, and the mapped ones are among them. */
    ghost predicate Valid()
      reads this, flown
    {
      && (forall i :: 0 <= i < |flown| ==> flown[i].place == i)
      && (forall t :: t in flights ==> Flown(flights[t]))
    }

    ghost predicate Flown(f: Flight)
      reads this
    {
      f.place < |flown| && flown[f.place] == f
    }

    static ghost function ValuesOf(flown: seq<Flight>): (values: seq<P.FlightState>)
      reads flown
      ensures |values| == |flown|
      ensures forall i :: 0 <= i < |flown| ==> values[i] == flown[i].Value()
    {
      seq(|flown|, i requires 0 <= i < |flown| reads flown => flown[i].Value())
    }

    static ghost function PlacesOf(flights: map<Tenant, Flight>): map<Tenant, nat> {
      map t | t in flights :: flights[t].place
    }

    ghost function State(): P.Cat
      reads this, flown
    {
      P.Cat(refresh, views, PlacesOf(flights), ValuesOf(flown), stamped)
    }

    /** The read under way, started when none is, which one more caller waits on. */
    method Share(t: Tenant) returns (shared: Flight)
      requires Valid()
      modifies this`flights, this`flown, flown
      ensures Valid() && old(flown) <= flown && fresh(flown[|old(flown)|..])
      ensures old(State()).WellFormed() && State() == P.Share(old(State()), t)
      ensures Flown(shared) && t in flights && flights[t] == shared && (t in old(flights) ==> shared == old(flights)[t])
    {
      if t in flights {
        shared := flights[t];
      } else {
        shared := new Flight(|flown|);
        flights := flights[t := shared];
        flown := flown + [shared];
        assert PlacesOf(flights) == old(PlacesOf(flights))[t := shared.place];
      }
      shared.waiting := shared.waiting + 1;
      assert shared.place == |old(flown)| ==> ValuesOf(flown) == old(ValuesOf(flown)) + [shared.Value()];
      assert shared.place < |old(flown)| ==> ValuesOf(flown) == old(ValuesOf(flown))[shared.place := shared.Value()];
    }

    /** The fresh view held, or else a read to share. */
    method Join(t: Tenant, now: int) returns (held: Option<View>, shared: Flight?)
      requires Valid()
      modifies this`flights, this`flown, flown
      ensures Valid() && old(State()).WellFormed() && State() == P.Join(old(State()), t, now)
      ensures P.Fresh(old(State()), t, now) ==> held == Some(old(views)[t]) && shared == null
      ensures !P.Fresh(old(State()), t, now) ==>
        held == None && shared != null && Flown(shared) && t in flights && flights[t] == shared
    {
      if t in views && now - views[t].read < refresh {
        return Some(views[t]), null;
      }
      shared := Share(t);
      held := None;
    }

    /** After this the tenant has another flight mapped or none; true when this one was mapped. */
    method Detach(t: Tenant, shared: Flight) returns (current: bool)
      requires Valid() && Flown(shared)
      modifies this`flights
      ensures Valid() && (PlacesOf(flights), current) == P.Detach(old(PlacesOf(flights)), t, shared.place)
    {
      if t !in flights || flights[t] != shared {
        return false;
      }
      flights := flights - {t};
      assert PlacesOf(flights) == old(PlacesOf(flights)) - {t};
      return true;
    }

    /** One waiter fewer; with the last one gone the flight is stopped and unmapped. */
    method Leave(t: Tenant, shared: Flight)
      requires Valid() && Flown(shared)
      modifies this`flights, shared
      ensures Valid() && State() == P.Leave(old(State()), t, shared.place)
    {
      ghost var left := old(State().flying)[shared.place].(waiting := shared.waiting - 1);
      shared.waiting := shared.waiting - 1;
      if shared.waiting == 0 {
        shared.stopped := true;
        assert ValuesOf(flown) == old(State().flying)[shared.place := left.(stopped := true)];
        var _ := Detach(t, shared);
      } else {
        assert ValuesOf(flown) == old(State().flying)[shared.place := left];
      }
    }

    /** No stamp is spent on fields that are held already. */
    method StampFor(t: Tenant, fields: seq<GraphField>) returns (stamp: nat)
      modifies this`stamped
      ensures (stamped, stamp) == P.StampFor(views, old(stamped), t, fields)
    {
      if t in views && views[t].fields == fields {
        return views[t].stamp;
      }
      stamped := stamped + 1;
      return stamped;
    }

    /** Hands what was read to every caller sharing the flight, and to the cache while the flight is current. */
    method Land(t: Tenant, shared: Flight, read: P.Answer)
      requires Valid() && Flown(shared)
      modifies this, shared
      ensures Valid() && flown == old(flown)
      ensures State() == P.Land(old(State()), t, shared.place, read)
    {
      shared.stopped := true;
      var current := Detach(t, shared);
      var handed := read;
      if read.Found? {
        var stamp := StampFor(t, read.view.fields);
        handed := P.Found(read.view.(stamp := stamp));
        if current {
          views := views[t := handed.view];
        }
      }
      shared.outcome := Some(handed);
      assert ValuesOf(flown) == old(ValuesOf(flown))[shared.place := shared.Value()];
    }

    /** Neither a view nor a flight of the tenant is left, and whoever waits on the flight will find it overtaken. */
    method Forget(t: Tenant)
      requires Valid()
      modifies this, flown
      ensures Valid() && flown == old(flown) && old(State()).WellFormed()
      ensures State() == P.Drop(old(State()), t)
    {
      ghost var before := State();
      if t in flights {
        var shared := flights[t];
        shared.overtaken := true;
        shared.stopped := true;
        flights := flights - {t};
        ghost var left := before.flying[shared.place].(overtaken := true, stopped := true);
        assert ValuesOf(flown) == before.flying[shared.place := left];
        assert PlacesOf(flights) == before.flights - {t};
      }
      views := views - {t};
    }
  }
}
