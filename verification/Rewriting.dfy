/** Pointing every runtime field of an operation at the carrier. */
module Rewriting {
  import opened Wrappers
  import opened FieldTypes
  import opened Widen

  datatype ArgValue = Str(raw: string) | Literal(text: string)

  datatype Arg = Arg(name: string, value: ArgValue)

  /** One selected field: its response key, what it selects, the type it was validated on, its @skip and @include verdict. */
  datatype Node = Node(
    alias: string,
    name: string,
    args: seq<Arg>,
    definition: Option<FieldDef>,
    owner: Option<string>,
    included: bool)

  datatype Selection<N> =
    | Field(node: N, children: seq<Selection<N>>)
    | Inline(condition: Option<string>, included: bool, children: seq<Selection<N>>)
    | Spread(fragment: string, included: bool)

  datatype Fragment<N> = Fragment(condition: string, body: seq<Selection<N>>)

  type Fragments = map<string, Fragment<Node>>

  predicate Reserved(name: string) { "__" <= name }

  function ForName(fields: seq<FieldDef>, name: string): (found: Option<FieldDef>)
    ensures found.Some? <==> HasField(fields, name)
    ensures found.Some? ==> found.value in fields && found.value.name == name
  {
    if fields == [] then None
    else if fields[0].name == name then Some(fields[0])
    else
      assert forall i :: 0 < i < |fields| ==> fields[i] == fields[1..][i - 1];
      assert HasField(fields[1..], name) ==>
        exists i :: 0 <= i < |fields| - 1 && fields[1..][i].name == name && fields[i + 1].name == name;
      ForName(fields[1..], name)
  }

  /** A field the compiled type lacks, on a type that compiles the carrier. */
  predicate Rewrites(types: Types, node: Node) {
    && node.owner.Some? && !Reserved(node.name)
    && !Declares(types, node.owner.value, node.name) && Declares(types, node.owner.value, CARRIER)
  }

  function Pointed(types: Types, node: Node): Node
    requires Rewrites(types, node)
  {
    node.(
      name := CARRIER,
      args := [Arg(CARRIER_ARG, Str(node.name))],
      definition := ForName(types[node.owner.value], CARRIER))
  }

  function RewriteOne(types: Types, selection: Selection<Node>): Selection<Node>
    decreases selection, 0
  {
    match selection
    case Field(node, children) =>
      if Rewrites(types, node) then Field(Pointed(types, node), children)
      else Field(node, RewriteAll(types, children))
    case Inline(condition, included, children) => Inline(condition, included, RewriteAll(types, children))
    case Spread(_, _) => selection
  }

  function RewriteAll(types: Types, selections: seq<Selection<Node>>): (rewritten: seq<Selection<Node>>)
    ensures |rewritten| == |selections|
    decreases selections, 1
  {
    seq(|selections|, i requires 0 <= i < |selections| => RewriteOne(types, selections[i]))
  }

  function RewriteFragments(types: Types, fragments: Fragments): Fragments {
    map name | name in fragments :: fragments[name].(body := RewriteAll(types, fragments[name].body))
  }

  /**
   A field widening adds is pointed at the carrier exactly when its name is not a reserved
   one, which the name of a definition never is: it begins with a lower-case letter.
   */
  lemma AddedIsRewritable(types: Types, byEntity: ByEntity, node: Node)
    requires Grouped(types, byEntity)
    requires node.owner.Some? && Serves(byEntity, node.owner.value, node.name)
    ensures Rewrites(types, node) <==> !Reserved(node.name)
  {
    assert Servable(types, byEntity[node.owner.value][node.name]);
  }

  /** The last of the fields an entity is given under a name. */
  ghost predicate LastNamed(fields: seq<GraphField>, entity: string, name: string, i: nat) {
    && i < |fields| && fields[i].entity == entity && fields[i].name == name
    && forall j :: i < j < |fields| ==> !(fields[j].entity == entity && fields[j].name == name)
  }

  /**
   Widening adds just what can be rewritten, which is every field its type does not compile
   on a type that compiles the carrier: a selected field whose name is not reserved is
   served exactly when it is rewritten and some runtime field has its entity and name, and
   then as the last such field is.
   */
  lemma ServedExactly(types: Types, fields: seq<GraphField>, node: Node)
    requires node.owner.Some? && !Reserved(node.name)
    ensures Rewrites(types, node) <==>
      Declares(types, node.owner.value, CARRIER) && !Declares(types, node.owner.value, node.name)
    ensures var served, entity := GroupOf(types, fields), node.owner.value;
      && (Serves(served, entity, node.name) <==>
            Rewrites(types, node) && exists i: nat :: LastNamed(fields, entity, node.name, i))
      && (forall i: nat :: Rewrites(types, node) && LastNamed(fields, entity, node.name, i) ==>
            Serves(served, entity, node.name) && served[entity][node.name] == fields[i])
  {
    var entity := node.owner.value;
    GroupServesLast(types, fields, entity, node.name);
    if Rewrites(types, node) {
      forall i: nat | LastNamed(fields, entity, node.name, i) ensures LastOf(types, fields, entity, node.name, i) {
      }
    }
    forall i: nat | LastOf(types, fields, entity, node.name, i)
      ensures Rewrites(types, node) && LastNamed(fields, entity, node.name, i)
    {
      forall j | i < j < |fields| ensures !(fields[j].entity == entity && fields[j].name == node.name) {
        assert Servable(types, fields[i]);
      }
    }
  }

  // Rewriting again.

  /** Nothing under a field pointed at the carrier is still to be pointed there. */
  predicate Settled(types: Types, selections: seq<Selection<Node>>)
    decreases selections, 1
  {
    forall i :: 0 <= i < |selections| ==> SettledOne(types, selections[i])
  }

  predicate SettledOne(types: Types, selection: Selection<Node>)
    decreases selection, 0
  {
    match selection
    case Field(node, children) =>
      if Rewrites(types, node) then RewriteAll(types, children) == children else Settled(types, children)
    case Inline(_, _, children) => Settled(types, children)
    case Spread(_, _) => true
  }

  /** Rewriting twice is rewriting once, exactly when no field pointed at the carrier holds a field to point there. */
  lemma {:induction false} RewriteTwice(types: Types, selections: seq<Selection<Node>>)
    ensures RewriteAll(types, RewriteAll(types, selections)) == RewriteAll(types, selections) <==> Settled(types, selections)
    decreases selections, 1
  {
    var once := RewriteAll(types, selections);
    var twice := RewriteAll(types, once);
    forall i | 0 <= i < |selections|
      ensures twice[i] == once[i] <==> SettledOne(types, selections[i])
    {
      RewriteOneTwice(types, selections[i]);
    }
    if twice == once {
      assert forall i :: 0 <= i < |selections| ==> twice[i] == once[i];
    }
  }

  lemma {:induction false} RewriteOneTwice(types: Types, selection: Selection<Node>)
    ensures RewriteOne(types, RewriteOne(types, selection)) == RewriteOne(types, selection) <==> SettledOne(types, selection)
    decreases selection, 0
  {
    match selection
    case Field(node, children) => RewriteTwice(types, children);
    case Inline(_, _, children) => RewriteTwice(types, children);
    case Spread(_, _) =>
  }

  // Rewriting in place.

  /** A selected field as the request's parsed document holds it. */
  class FieldNode {
    const alias: string
    var name: string
    var args: seq<Arg>
    var definition: Option<FieldDef>
    const owner: Option<string>
    const included: bool

    constructor (value: Node)
      ensures Value() == value
    {
      alias, name, args, definition := value.alias, value.name, value.args, value.definition;
      owner, included := value.owner, value.included;
    }

    function Value(): Node
      reads this
    {
      Node(alias, name, args, definition, owner, included)
    }
  }

  type Parsed = Selection<FieldNode>

  function NodesOf(selection: Parsed): set<FieldNode>
    decreases selection, 0
  {
    match selection
    case Field(node, children) => {node} + NodesIn(children)
    case Inline(_, _, children) => NodesIn(children)
    case Spread(_, _) => {}
  }

  function NodesIn(selections: seq<Parsed>): set<FieldNode>
    decreases selections, 1
  {
    set i, node | 0 <= i < |selections| && node in NodesOf(selections[i]) :: node
  }

  /** The parser makes one node for each selected field. */
  predicate OneNodeEach(selections: seq<Parsed>)
    decreases selections, 1
  {
    && (forall i :: 0 <= i < |selections| ==> OneNodeEachOf(selections[i]))
    && forall i, j :: 0 <= i < j < |selections| ==> NodesOf(selections[i]) !! NodesOf(selections[j])
  }

  predicate OneNodeEachOf(selection: Parsed)
    decreases selection, 0
  {
    match selection
    case Field(node, children) => node !in NodesIn(children) && OneNodeEach(children)
    case Inline(_, _, children) => OneNodeEach(children)
    case Spread(_, _) => true
  }

  ghost function ValueOf(selection: Parsed): Selection<Node>
    reads NodesOf(selection)
    decreases selection, 0
  {
    match selection
    case Field(node, children) => Field(node.Value(), ValuesOf(children))
    case Inline(condition, included, children) => Inline(condition, included, ValuesOf(children))
    case Spread(fragment, included) => Spread(fragment, included)
  }

  ghost function ValuesOf(selections: seq<Parsed>): (values: seq<Selection<Node>>)
    reads NodesIn(selections)
    ensures |values| == |selections|
    decreases selections, 1
  {
    seq(|selections|, i requires 0 <= i < |selections| reads NodesIn(selections) =>
      assert NodesOf(selections[i]) <= NodesIn(selections);
      ValueOf(selections[i]))
  }

  /** A field node as the rewriting function makes it; true when that is another field than it was. */
  method RewriteField(types: Types, field: FieldNode) returns (rewrote: bool)
    modifies field
    ensures rewrote <==> Rewrites(types, old(field.Value()))
    ensures field.Value() == if rewrote then Pointed(types, old(field.Value())) else old(field.Value())
  {
    if field.owner.None? || Reserved(field.name) {
      return false;
    }
    if field.owner.value !in types || HasField(types[field.owner.value], field.name) {
      return false;
    }
    var carrier := ForName(types[field.owner.value], CARRIER);
    if carrier.None? {
      return false;
    }
    field.args := [Arg(CARRIER_ARG, Str(field.name))];
    field.name := CARRIER;
    field.definition := carrier;
    return true;
  }

  /** The whole tree of selections as the rewriting function makes it. */
  method Rewrite(types: Types, selections: seq<Parsed>)
    requires OneNodeEach(selections)
    modifies NodesIn(selections)
    ensures ValuesOf(selections) == RewriteAll(types, old(ValuesOf(selections)))
    decreases selections, 1
  {
    ghost var before := ValuesOf(selections);
    assert forall i :: 0 <= i < |selections| ==> allocated(NodesOf(selections[i]));
    for at := 0 to |selections|
      invariant forall i :: 0 <= i < at ==> ValueOf(selections[i]) == RewriteOne(types, before[i])
      invariant forall i :: at <= i < |selections| ==> ValueOf(selections[i]) == before[i]
    {
      assert NodesOf(selections[at]) <= NodesIn(selections);
      assert forall i :: 0 <= i < |selections| && i != at ==> NodesOf(selections[i]) !! NodesOf(selections[at]);
      label Before:
      RewriteSelection(types, selections[at]);
      forall i | 0 <= i < |selections| && i != at ensures ValueOf(selections[i]) == old@Before(ValueOf(selections[i])) {
        assert allocated(NodesOf(selections[i]));
      }
    }
  }

  method RewriteSelection(types: Types, selection: Parsed)
    requires OneNodeEachOf(selection)
    modifies NodesOf(selection)
    ensures ValueOf(selection) == RewriteOne(types, old(ValueOf(selection)))
    decreases selection, 0
  {
    match selection
    case Field(node, children) =>
      ghost var under := ValuesOf(children);
      assert node !in NodesIn(children);
      var rewrote := RewriteField(types, node);
      assert old(allocated(NodesIn(children)));
      assert ValuesOf(children) == under;
      if !rewrote {
        ghost var kept := node.Value();
        Rewrite(types, children);
        assert node.Value() == kept;
      }
    case Inline(_, _, children) =>
      Rewrite(types, children);
    case Spread(_, _) =>
  }
}
