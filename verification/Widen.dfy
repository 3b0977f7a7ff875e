/** Grouping runtime fields by the entity they hang on, and the schema widened by them. */
module Widen {
  import opened FieldTypes

  /** The name of the one field that answers for runtime fields, and of the argument that says which. */
  const CARRIER := "field"
  const CARRIER_ARG := "name"

  datatype FieldDef = FieldDef(name: string, typeName: string)

  type Types = map<string, seq<FieldDef>>

  type ByEntity = map<string, map<string, GraphField>>

  predicate HasField(fields: seq<FieldDef>, name: string) {
    exists i :: 0 <= i < |fields| && fields[i].name == name
  }

  predicate Declares(types: Types, typeName: string, name: string) {
    typeName in types && HasField(types[typeName], name)
  }

  /** A field is served on a type that compiles the carrier, under a name the type does not compile itself. */
  predicate Servable(types: Types, field: GraphField) {
    Declares(types, field.entity, CARRIER) && !Declares(types, field.entity, field.name)
  }

  function Filed(held: ByEntity, field: GraphField): ByEntity {
    var ofEntity := if field.entity in held then held[field.entity] else map[];
    held[field.entity := ofEntity[field.name := field]]
  }

  function GroupOf(types: Types, fields: seq<GraphField>): ByEntity {
    if fields == [] then map[]
    else
      var held, last := GroupOf(types, fields[..|fields| - 1]), fields[|fields| - 1];
      if Servable(types, last) then Filed(held, last) else held
  }

  predicate Serves(byEntity: ByEntity, typeName: string, name: string) {
    typeName in byEntity && name in byEntity[typeName]
  }

  /** The last servable field of an entity and name is the one served. */
  ghost predicate LastOf(types: Types, fields: seq<GraphField>, entity: string, name: string, i: nat) {
    && i < |fields| && Servable(types, fields[i]) && fields[i].entity == entity && fields[i].name == name
    && forall j :: i < j < |fields| && fields[j].entity == entity && fields[j].name == name ==> !Servable(types, fields[j])
  }

  /** Every entity and name is served its last servable field, and nothing else is served. */
  lemma {:induction false} GroupServesLast(types: Types, fields: seq<GraphField>, entity: string, name: string)
    ensures Serves(GroupOf(types, fields), entity, name) <==> exists i: nat :: LastOf(types, fields, entity, name, i)
    ensures forall i: nat :: LastOf(types, fields, entity, name, i) ==>
      Serves(GroupOf(types, fields), entity, name) && GroupOf(types, fields)[entity][name] == fields[i]
  {
    if fields != [] {
      var n := |fields| - 1;
      var front, last := fields[..n], fields[n];
      GroupServesLast(types, front, entity, name);
      if Servable(types, last) && last.entity == entity && last.name == name {
        assert LastOf(types, fields, entity, name, n);
      } else {
        assert forall i: nat :: LastOf(types, fields, entity, name, i) <==> LastOf(types, front, entity, name, i);
      }
    }
  }

  method GroupByEntity(types: Types, fields: seq<GraphField>) returns (byEntity: ByEntity)
    ensures byEntity == GroupOf(types, fields)
  {
    byEntity := map[];
    for at := 0 to |fields|
      invariant byEntity == GroupOf(types, fields[..at])
    {
      var field := fields[at];
      assert fields[..at + 1][..at] == fields[..at];
      if field.entity !in types || !HasField(types[field.entity], CARRIER) {
        continue;
      }
      if HasField(types[field.entity], field.name) {
        continue;
      }
      if field.entity !in byEntity {
        byEntity := byEntity[field.entity := map[]];
      }
      byEntity := byEntity[field.entity := byEntity[field.entity][field.name := field]];
    }
    assert fields[..|fields|] == fields;
  }

  /** Only servable fields are grouped, each under its own entity and name. */
  ghost predicate Grouped(types: Types, byEntity: ByEntity) {
    forall entity, name :: Serves(byEntity, entity, name) ==>
      && byEntity[entity][name].entity == entity && byEntity[entity][name].name == name
      && Servable(types, byEntity[entity][name])
  }

  lemma {:induction false} GroupIsGrouped(types: Types, fields: seq<GraphField>)
    ensures Grouped(types, GroupOf(types, fields))
  {
    if fields != [] {
      GroupIsGrouped(types, fields[..|fields| - 1]);
    }
  }

  // The schema as the objects the service shares between requests.

  class Definition {
    var fields: seq<FieldDef>

    constructor (fields: seq<FieldDef>)
      ensures this.fields == fields
    {
      this.fields := fields;
    }
  }

  class Schema {
    var types: map<string, Definition>
    var query: Definition?
    var mutation: Definition?
    var subscription: Definition?

    constructor (types: map<string, Definition>)
      ensures this.types == types
      ensures query == Named(types, "Query") && mutation == Named(types, "Mutation")
      ensures subscription == Named(types, "Subscription")
    {
      this.types := types;
      query, mutation := Named(types, "Query"), Named(types, "Mutation");
      subscription := Named(types, "Subscription");
    }
  }

  function Named(types: map<string, Definition>, name: string): Definition? {
    if name in types then types[name] else null
  }

  /** An order lists every key of a set once. */
  ghost predicate Lists(order: seq<string>, keys: set<string>) {
    && (forall name :: name in order <==> name in keys)
    && (forall i, j :: 0 <= i < j < |order| ==> order[i] != order[j])
  }

  ghost function ServedIn(order: seq<string>, served: map<string, GraphField>): seq<FieldDef>
    requires forall name :: name in order ==> name in served
  {
    seq(|order|, i requires 0 <= i < |order| => FieldDef(order[i], served[order[i]].scalar))
  }

  /** `fields` is the compiled ones followed by each served one once, in some order. */
  ghost predicate Extends(compiled: seq<FieldDef>, served: map<string, GraphField>, fields: seq<FieldDef>) {
    exists order :: Lists(order, served.Keys) && fields == compiled + ServedIn(order, served)
  }

  /** An extended definition declares the compiled fields as they were and the served ones under their scalars, and no other name. */
  lemma ExtendsDeclares(compiled: seq<FieldDef>, served: map<string, GraphField>, fields: seq<FieldDef>, name: string)
    requires Extends(compiled, served, fields)
    ensures HasField(fields, name) <==> HasField(compiled, name) || name in served
    ensures compiled <= fields && (name in served ==> FieldDef(name, served[name].scalar) in fields)
  {
    var order :| Lists(order, served.Keys) && fields == compiled + ServedIn(order, served);
    if HasField(compiled, name) {
      var i :| 0 <= i < |compiled| && compiled[i].name == name;
      assert fields[i].name == name;
    }
    if name in served {
      assert name in order;
      var i :| 0 <= i < |order| && order[i] == name;
      assert fields[|compiled| + i] == FieldDef(name, served[name].scalar);
    }
  }

  /** A copy of one entity extended by its served fields, the compiled definition left as it is. */
  method Copied(source: Definition, served: map<string, GraphField>) returns (copied: Definition)
    requires forall name :: name in served ==> served[name].name == name
    ensures fresh(copied) && Extends(source.fields, served, copied.fields)
  {
    var fields := source.fields;
    var left := served.Keys;
    ghost var order: seq<string> := [];
    while left != {}
      invariant left <= served.Keys && Lists(order, served.Keys - left)
      invariant fields == source.fields + ServedIn(order, served)
      decreases |left|
    {
      var name :| name in left;
      fields := fields + [FieldDef(served[name].name, served[name].scalar)];
      assert ServedIn(order + [name], served) == ServedIn(order, served) + [FieldDef(name, served[name].scalar)];
      order := order + [name];
      left := left - {name};
    }
    assert served.Keys - left == served.Keys;
    copied := new Definition(fields);
  }

  /** The widened schema: entities are copied and extended, every other type is shared, and base is left as it is. */
  method Widened(base: Schema, byEntity: ByEntity) returns (widened: Schema)
    requires byEntity.Keys <= base.types.Keys
    requires forall e, name :: Serves(byEntity, e, name) ==> byEntity[e][name].name == name
    ensures fresh(widened) && widened.types.Keys == base.types.Keys
    ensures forall name :: name in base.types && name !in byEntity ==> widened.types[name] == base.types[name]
    ensures forall e :: e in byEntity ==>
      fresh(widened.types[e]) && Extends(base.types[e].fields, byEntity[e], widened.types[e].fields)
    ensures widened.query == Named(widened.types, "Query") && widened.mutation == Named(widened.types, "Mutation")
    ensures widened.subscription == Named(widened.types, "Subscription")
  {
    var types := base.types;
    var left := byEntity.Keys;
    while left != {}
      invariant left <= byEntity.Keys && types.Keys == base.types.Keys
      invariant forall name :: name in base.types && (name !in byEntity || name in left) ==> types[name] == base.types[name]
      invariant forall e :: e in byEntity && e !in left ==>
        fresh(types[e]) && Extends(base.types[e].fields, byEntity[e], types[e].fields)
      decreases |left|
    {
      var entity :| entity in left;
      assert forall name :: name in byEntity[entity] ==> Serves(byEntity, entity, name);
      var copied := Copied(base.types[entity], byEntity[entity]);
      types := types[entity := copied];
      left := left - {entity};
    }
    widened := new Schema(types);
  }
}
