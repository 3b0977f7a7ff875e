/**
 Executing an operation (GraphQL, October 2021, sections 5.3 and 6.3), and why
 the rewritten operation answers from the compiled resolvers alone what the
 original answers over the widened schema.
 */
module Execution {
  import opened Wrappers
  import opened FieldTypes
  import opened Widen
  import opened Rewriting

  datatype Resolved = Nothing | Leaf(text: string) | Object(typeName: string, ref: nat) | Many(items: seq<Resolved>)

  datatype Response = Null | Plain(text: string) | Record(entries: seq<(string, Response)>) | List(items: seq<Response>)

  type Resolver = (string, string, seq<Arg>, nat) -> Resolved

  /**
   The compiled service: its types, the object types each interface or union may
   be, the types with selections, what each reserved field answers with, and what
   its resolvers answer for a field of an object.
   */
  datatype Service = Service(
    types: Types,
    possible: map<string, set<string>>,
    composite: set<string>,
    reserved: map<string, string>,
    resolve: Resolver)

  /** Whether a condition on P applies to an object of type T (section 6.3.2). */
  predicate Applies(service: Service, T: string, P: string) {
    T == P || (P in service.possible && T in service.possible[P])
  }

  /** The type a field of P answers with in the widened schema, if P has that field. */
  function TypeOf(service: Service, byEntity: ByEntity, P: string, name: string): Option<string> {
    if Reserved(name) then
      if name in service.reserved then Some(service.reserved[name]) else None
    else if Declares(service.types, P, name) then
      Some(ForName(service.types[P], name).value.typeName)
    else if Serves(byEntity, P, name) then
      Some(byEntity[P][name].scalar)
    else None
  }

  /** What an object answers a field: a runtime field n answers what the carrier answers for n. */
  function AnswerTo(
    types: Types, resolve: Resolver, byEntity: ByEntity, T: string, name: string, args: seq<Arg>, ref: nat): Resolved
  {
    if Reserved(name) || Declares(types, T, name) then resolve(T, name, args, ref)
    else if Serves(byEntity, T, name) then resolve(T, CARRIER, [Arg(CARRIER_ARG, Str(name))], ref)
    else Nothing
  }

  // Collecting the fields of a selection set (section 6.3.2).

  datatype Picked = Picked(node: Node, children: seq<Selection<Node>>)

  datatype Collected = Collected(items: seq<Picked>, visited: set<string>)

  /** The fields an object of type T is asked for, in document order; a fragment is spread once. */
  function Collect(
    service: Service, fragments: Fragments, T: string, selections: seq<Selection<Node>>, visited: set<string>)
    : (collected: Collected)
    ensures visited <= collected.visited
    decreases fragments.Keys - visited, selections, 1
  {
    if selections == [] then Collected([], visited)
    else
      var first := CollectOne(service, fragments, T, selections[0], visited);
      var rest := Collect(service, fragments, T, selections[1..], first.visited);
      Collected(first.items + rest.items, rest.visited)
  }

  function CollectOne(
    service: Service, fragments: Fragments, T: string, selection: Selection<Node>, visited: set<string>)
    : (collected: Collected)
    ensures visited <= collected.visited
    decreases fragments.Keys - visited, selection, 0
  {
    match selection
    case Field(node, children) =>
      Collected(if node.included then [Picked(node, children)] else [], visited)
    case Inline(condition, included, children) =>
      if included && (condition.None? || Applies(service, T, condition.value))
      then Collect(service, fragments, T, children, visited)
      else Collected([], visited)
    case Spread(name, included) =>
      if !included || name in visited || name !in fragments then Collected([], visited)
      else
        var entered := visited + {name};
        if Applies(service, T, fragments[name].condition)
        then Collect(service, fragments, T, fragments[name].body, entered)
        else Collected([], entered)
  }

  /** The response keys asked for, each where it first occurs. */
  function Keys(items: seq<Picked>): (keys: seq<string>)
    ensures forall key :: key in keys <==> exists i :: 0 <= i < |items| && items[i].node.alias == key
  {
    if items == [] then []
    else
      var front, last := Keys(items[..|items| - 1]), items[|items| - 1].node.alias;
      assert forall i :: 0 <= i < |items| - 1 ==> items[..|items| - 1][i] == items[i];
      if last in front then front else front + [last]
  }

  function With(items: seq<Picked>, key: string): (group: seq<Picked>)
    ensures forall item :: item in group <==> item in items && item.node.alias == key
  {
    if items == [] then []
    else (if items[0].node.alias == key then [items[0]] else []) + With(items[1..], key)
  }

  function Merged(group: seq<Picked>): seq<Selection<Node>> {
    if group == [] then [] else group[0].children + Merged(group[1..])
  }

  /** Executes a selection set against one object, down to `depth` levels (sections 6.3 and 6.4). */
  function Execute(
    service: Service, byEntity: ByEntity, fragments: Fragments,
    T: string, ref: nat, selections: seq<Selection<Node>>, depth: nat): seq<(string, Response)>
    decreases depth, 0
  {
    if depth == 0 then []
    else
      var items := Collect(service, fragments, T, selections, {}).items;
      var keys := Keys(items);
      seq(|keys|, k requires 0 <= k < |keys| =>
        (keys[k], Answer(service, byEntity, fragments, T, ref, With(items, keys[k]), depth - 1)))
  }

  /** The fields under one response key are answered as the first of them, with the selections of all. */
  function Answer(
    service: Service, byEntity: ByEntity, fragments: Fragments, T: string, ref: nat, group: seq<Picked>, depth: nat): Response
    decreases depth, 2
  {
    if group == [] then Null
    else
      var first := group[0].node;
      var resolved := AnswerTo(service.types, service.resolve, byEntity, T, first.name, first.args, ref);
      Complete(service, byEntity, fragments, resolved, Merged(group), depth)
  }

  function Complete(
    service: Service, byEntity: ByEntity, fragments: Fragments,
    resolved: Resolved, selections: seq<Selection<Node>>, depth: nat): Response
    decreases depth, 1, resolved
  {
    match resolved
    case Nothing => Null
    case Leaf(text) => Plain(text)
    case Object(T, ref) => Record(Execute(service, byEntity, fragments, T, ref, selections, depth))
    case Many(items) =>
      List(seq(|items|, i requires 0 <= i < |items| =>
        Complete(service, byEntity, fragments, items[i], selections, depth)))
  }
}
