/** The rewritten operation is valid over the compiled schema and answers what the original answers. */
module Preservation {
  import opened Wrappers
  import opened FieldTypes
  import opened Widen
  import opened Rewriting
  import opened Execution

  // What a service and a validated operation promise.

  /** A type declares every field of each interface it implements, answering with a type at least as narrow. */
  ghost predicate Implements(service: Service, T: string, P: string, name: string) {
    Declares(service.types, P, name) ==>
      && Declares(service.types, T, name)
      && forall R :: Applies(service, R, ForName(service.types[T], name).value.typeName) ==>
                       Applies(service, R, ForName(service.types[P], name).value.typeName)
  }

  /** Every object within the value is of a type the named one may be. */
  predicate Typed(service: Service, resolved: Resolved, typeName: string) {
    match resolved
    case Object(T, _) => Applies(service, T, typeName)
    case Many(items) => forall i :: 0 <= i < |items| ==> Typed(service, items[i], typeName)
    case _ => true
  }

  /** A resolver answers with values of its field's type. */
  ghost predicate Resolves(service: Service, T: string, name: string) {
    TypeOf(service, map[], T, name).Some? ==>
      forall args, ref ::
        Typed(service, service.resolve(T, name, args, ref), TypeOf(service, map[], T, name).value)
  }

  /**
   The compiled schema is sound, only object types compile the carrier, and the
   carrier answers with a scalar.
   */
  ghost predicate Compiled(service: Service) {
    && (forall T, P, name :: Applies(service, T, P) ==> Implements(service, T, P, name))
    && (forall T, name :: Resolves(service, T, name))
    && (forall P :: Declares(service.types, P, CARRIER) ==>
          P !in service.possible && ForName(service.types[P], CARRIER).value.typeName !in service.composite)
  }

  /** The runtime fields served answer with scalars too. */
  ghost predicate Sound(service: Service, byEntity: ByEntity) {
    && Compiled(service) && Grouped(service.types, byEntity)
    && (forall E, name :: Serves(byEntity, E, name) ==> byEntity[E][name].scalar !in service.composite)
  }

  lemma GroupIsSound(service: Service, fields: seq<GraphField>)
    requires Compiled(service) && forall field :: field in fields ==> field.scalar !in service.composite
    ensures Sound(service, GroupOf(service.types, fields))
  {
    hide Compiled;
    GroupIsGrouped(service.types, fields);
    var byEntity := GroupOf(service.types, fields);
    forall E, name | Serves(byEntity, E, name) ensures byEntity[E][name].scalar !in service.composite {
      GroupServesLast(service.types, fields, E, name);
      var i: nat :| LastOf(service.types, fields, E, name, i);
    }
  }

  /** A selection is valid on P (sections 5.3.1 and 5.3.3): its fields exist, and only composite ones select further. */
  predicate On(
    service: Service, byEntity: ByEntity, fragments: Fragments, P: string, selection: Selection<Node>)
    decreases selection, 0
  {
    match selection
    case Field(node, children) =>
      && node.owner == Some(P)
      && TypeOf(service, byEntity, P, node.name).Some?
      && var R := TypeOf(service, byEntity, P, node.name).value;
      if R in service.composite then AllOn(service, byEntity, fragments, R, children) else children == []
    case Inline(condition, _, children) =>
      AllOn(service, byEntity, fragments, if condition.Some? then condition.value else P, children)
    case Spread(name, _) => name in fragments
  }

  predicate AllOn(
    service: Service, byEntity: ByEntity, fragments: Fragments, P: string, selections: seq<Selection<Node>>)
    decreases selections, 1
  {
    forall i :: 0 <= i < |selections| ==> On(service, byEntity, fragments, P, selections[i])
  }

  predicate FragmentsOn(service: Service, byEntity: ByEntity, fragments: Fragments) {
    forall name :: name in fragments ==>
      AllOn(service, byEntity, fragments, fragments[name].condition, fragments[name].body)
  }

  lemma CarrierUnreserved()
    ensures !Reserved(CARRIER)
  {
    assert CARRIER[0] != "__"[0];
  }

  // The rewritten operation is valid over the compiled schema alone.

  lemma {:induction false} OneValid(
    service: Service, byEntity: ByEntity, fragments: Fragments, P: string, selection: Selection<Node>)
    requires Sound(service, byEntity) && On(service, byEntity, fragments, P, selection)
    ensures On(service, map[], RewriteFragments(service.types, fragments), P, RewriteOne(service.types, selection))
    decreases selection, 0
  {
    match selection
    case Field(node, children) =>
      hide Sound;
      FieldStays(service, byEntity, P, node);
      var R := TypeOf(service, byEntity, P, node.name).value;
      if !Rewrites(service.types, node) && R in service.composite {
        AllValid(service, byEntity, fragments, R, children);
      }
    case Inline(condition, _, children) =>
      AllValid(service, byEntity, fragments, if condition.Some? then condition.value else P, children);
    case Spread(_, _) =>
  }

  lemma {:induction false} AllValid(
    service: Service, byEntity: ByEntity, fragments: Fragments, P: string, selections: seq<Selection<Node>>)
    requires Sound(service, byEntity) && AllOn(service, byEntity, fragments, P, selections)
    ensures AllOn(service, map[], RewriteFragments(service.types, fragments), P, RewriteAll(service.types, selections))
    decreases selections, 1
  {
    hide Sound;
    forall i | 0 <= i < |selections|
      ensures On(service, map[], RewriteFragments(service.types, fragments), P, RewriteAll(service.types, selections)[i])
    {
      OneValid(service, byEntity, fragments, P, selections[i]);
    }
  }

  /** A valid field is pointed at the carrier, a scalar, or is one the compiled schema answers the same way. */
  lemma FieldStays(service: Service, byEntity: ByEntity, P: string, node: Node)
    requires Sound(service, byEntity) && node.owner == Some(P) && TypeOf(service, byEntity, P, node.name).Some?
    ensures Rewrites(service.types, node) ==>
      && TypeOf(service, byEntity, P, node.name).value !in service.composite
      && Serves(byEntity, P, node.name) && P !in service.possible
      && TypeOf(service, map[], P, CARRIER).Some?
      && TypeOf(service, map[], P, CARRIER).value !in service.composite
    ensures !Rewrites(service.types, node) ==>
      && TypeOf(service, map[], P, node.name) == TypeOf(service, byEntity, P, node.name)
      && (Reserved(node.name) || Declares(service.types, P, node.name))
  {
    CarrierUnreserved();
    if Serves(byEntity, P, node.name) {
      assert Servable(service.types, byEntity[P][node.name]);
    }
  }

  /** A valid operation, rewritten, selects only compiled fields, each as the compiled schema allows. */
  lemma RewrittenIsValid(
    service: Service, byEntity: ByEntity, fragments: Fragments, P: string, selections: seq<Selection<Node>>)
    requires Sound(service, byEntity) && AllOn(service, byEntity, fragments, P, selections)
    requires FragmentsOn(service, byEntity, fragments)
    ensures AllOn(service, map[], RewriteFragments(service.types, fragments), P, RewriteAll(service.types, selections))
    ensures FragmentsOn(service, map[], RewriteFragments(service.types, fragments))
  {
    AllValid(service, byEntity, fragments, P, selections);
    hide Sound;
    forall name | name in fragments
      ensures AllOn(service, map[], RewriteFragments(service.types, fragments), fragments[name].condition,
                    RewriteAll(service.types, fragments[name].body))
    {
      AllValid(service, byEntity, fragments, fragments[name].condition, fragments[name].body);
    }
  }

  // Collecting from the rewritten operation.

  function RewritePicked(types: Types, item: Picked): Picked {
    if Rewrites(types, item.node) then Picked(Pointed(types, item.node), item.children)
    else Picked(item.node, RewriteAll(types, item.children))
  }

  function RewriteItems(types: Types, items: seq<Picked>): seq<Picked> {
    seq(|items|, i requires 0 <= i < |items| => RewritePicked(types, items[i]))
  }

  lemma {:induction false} CollectRewritten(
    service: Service, fragments: Fragments, T: string, selections: seq<Selection<Node>>, visited: set<string>)
    ensures
      var was := Collect(service, fragments, T, selections, visited);
      Collect(service, RewriteFragments(service.types, fragments), T, RewriteAll(service.types, selections), visited)
      == Collected(RewriteItems(service.types, was.items), was.visited)
    decreases fragments.Keys - visited, selections, 1
  {
    hide RewriteOne, RewritePicked, CollectOne;
    if selections != [] {
      assert RewriteAll(service.types, selections)[1..] == RewriteAll(service.types, selections[1..]);
      CollectOneRewritten(service, fragments, T, selections[0], visited);
      CollectRewritten(service, fragments, T, selections[1..],
                       CollectOne(service, fragments, T, selections[0], visited).visited);
    }
  }

  lemma {:induction false} CollectOneRewritten(
    service: Service, fragments: Fragments, T: string, selection: Selection<Node>, visited: set<string>)
    ensures
      var was := CollectOne(service, fragments, T, selection, visited);
      CollectOne(service, RewriteFragments(service.types, fragments), T, RewriteOne(service.types, selection), visited)
      == Collected(RewriteItems(service.types, was.items), was.visited)
    decreases fragments.Keys - visited, selection, 0
  {
    match selection
    case Field(_, _) =>
    case Inline(_, _, children) => CollectRewritten(service, fragments, T, children, visited);
    case Spread(name, included) =>
      if included && name !in visited && name in fragments {
        CollectRewritten(service, fragments, T, fragments[name].body, visited + {name});
      }
  }

  lemma {:induction false} KeysRewritten(types: Types, items: seq<Picked>)
    ensures Keys(RewriteItems(types, items)) == Keys(items)
  {
    if items != [] {
      var front := items[..|items| - 1];
      assert RewriteItems(types, items)[..|items| - 1] == RewriteItems(types, front);
      KeysRewritten(types, front);
    }
  }

  lemma {:induction false} WithRewritten(types: Types, items: seq<Picked>, key: string)
    ensures With(RewriteItems(types, items), key) == RewriteItems(types, With(items, key))
  {
    hide RewriteAll, Rewrites;
    if items != [] {
      assert RewriteItems(types, items)[1..] == RewriteItems(types, items[1..]);
      WithRewritten(types, items[1..], key);
    }
  }

  lemma {:induction false} MergedRewritten(types: Types, group: seq<Picked>)
    requires forall item :: item in group && Rewrites(types, item.node) ==> item.children == []
    ensures Merged(RewriteItems(types, group)) == RewriteAll(types, Merged(group))
  {
    hide Rewrites, RewriteOne;
    if group != [] {
      assert group[0] in group && forall item :: item in group[1..] ==> item in group;
      assert RewriteItems(types, group)[1..] == RewriteItems(types, group[1..]);
      MergedRewritten(types, group[1..]);
      assert RewriteAll(types, Merged(group))
             == RewriteAll(types, group[0].children) + RewriteAll(types, Merged(group[1..]));
    }
  }

  // Fields that share a response key (section 5.3.2).

  /** Whether a field is selected among the selections, within at most `reach` nested spreads. */
  ghost predicate Selected(fragments: Fragments, selections: seq<Selection<Node>>, item: Picked, reach: nat)
    decreases reach, selections, 1
  {
    exists i :: 0 <= i < |selections| && SelectedBy(fragments, selections[i], item, reach)
  }

  ghost predicate SelectedBy(fragments: Fragments, selection: Selection<Node>, item: Picked, reach: nat)
    decreases reach, selection, 0
  {
    match selection
    case Field(node, children) => item == Picked(node, children)
    case Inline(_, _, children) => Selected(fragments, children, item, reach)
    case Spread(name, _) =>
      name in fragments && reach > 0 && Selected(fragments, fragments[name].body, item, reach - 1)
  }

  ghost predicate SelectsIn(fragments: Fragments, selection: Selection<Node>, item: Picked) {
    exists reach: nat :: SelectedBy(fragments, selection, item, reach)
  }

  ghost predicate Selects(fragments: Fragments, selections: seq<Selection<Node>>, item: Picked) {
    exists i :: 0 <= i < |selections| && SelectsIn(fragments, selections[i], item)
  }

  /** What a fragment or an inline one selects, the selection of it selects. */
  lemma SelectsThrough(
    fragments: Fragments, selection: Selection<Node>, within: seq<Selection<Node>>, item: Picked)
    requires Selects(fragments, within, item)
    requires match selection
             case Field(_, _) => false
             case Inline(_, _, children) => children == within
             case Spread(name, _) => name in fragments && fragments[name].body == within
    ensures SelectsIn(fragments, selection, item)
  {
    var i :| 0 <= i < |within| && SelectsIn(fragments, within[i], item);
    var reach: nat :| SelectedBy(fragments, within[i], item, reach);
    assert Selected(fragments, within, item, reach);
    assert SelectedBy(fragments, selection, item, if selection.Spread? then reach + 1 else reach);
  }

  /** Fields of one response key that may meet on one object select the same thing, and so on below, `depth` levels down. */
  ghost predicate CanMerge(service: Service, fragments: Fragments, selections: seq<Selection<Node>>, depth: nat)
    decreases depth
  {
    depth == 0 ||
    forall a, b ::
      Selects(fragments, selections, a) && Selects(fragments, selections, b) && MayMeet(service, a.node, b.node) ==>
        && a.node.name == b.node.name && a.node.args == b.node.args
        && CanMerge(service, fragments, a.children + b.children, depth - 1)
  }

  predicate MayMeet(service: Service, a: Node, b: Node) {
    && a.alias == b.alias && a.owner.Some? && b.owner.Some?
    && (a.owner == b.owner || a.owner.value in service.possible || b.owner.value in service.possible)
  }

  /** In a valid operation no field pointed at the carrier selects anything, so rewriting again changes nothing. */
  lemma RewritingSettles(
    service: Service, byEntity: ByEntity, fragments: Fragments, P: string, selections: seq<Selection<Node>>)
    requires Sound(service, byEntity) && AllOn(service, byEntity, fragments, P, selections)
    ensures
      RewriteAll(service.types, RewriteAll(service.types, selections)) == RewriteAll(service.types, selections)
  {
    hide Sound;
    AllSettled(service, byEntity, fragments, P, selections);
    RewriteTwice(service.types, selections);
  }

  lemma {:induction false} AllSettled(
    service: Service, byEntity: ByEntity, fragments: Fragments, P: string, selections: seq<Selection<Node>>)
    requires Sound(service, byEntity) && AllOn(service, byEntity, fragments, P, selections)
    ensures Settled(service.types, selections)
    decreases selections, 1
  {
    hide Sound;
    forall i | 0 <= i < |selections| ensures SettledOne(service.types, selections[i]) {
      OneSettled(service, byEntity, fragments, P, selections[i]);
    }
  }

  lemma {:induction false} OneSettled(
    service: Service, byEntity: ByEntity, fragments: Fragments, P: string, selection: Selection<Node>)
    requires Sound(service, byEntity) && On(service, byEntity, fragments, P, selection)
    ensures SettledOne(service.types, selection)
    decreases selection, 0
  {
    hide Sound;
    match selection
    case Field(node, children) =>
      FieldStays(service, byEntity, P, node);
      var R := TypeOf(service, byEntity, P, node.name).value;
      if !Rewrites(service.types, node) {
        if R in service.composite {
          AllSettled(service, byEntity, fragments, R, children);
        } else {
          assert children == [];
        }
      }
    case Inline(condition, _, children) =>
      AllSettled(service, byEntity, fragments, if condition.Some? then condition.value else P, children);
    case Spread(_, _) =>
  }

  // Where the carrier stands for a runtime field, and where it cannot.

  /** Over every set of resolvers, an object answers the carrier for n what it answers n itself. */
  ghost predicate CarrierStands(types: Types, byEntity: ByEntity, T: string, name: string) {
    forall resolve: Resolver, args: seq<Arg>, ref: nat ::
      AnswerTo(types, resolve, byEntity, T, name, args, ref)
      == AnswerTo(types, resolve, map[], T, CARRIER, [Arg(CARRIER_ARG, Str(name))], ref)
  }

  /**
   A runtime field selected on P is answered by the carrier on an object of type T
   exactly when T too is served that field and compiles none of its name.
   */
  lemma CarrierStandsExactly(types: Types, byEntity: ByEntity, P: string, T: string, name: string)
    requires Grouped(types, byEntity) && Serves(byEntity, P, name) && !Reserved(name)
    requires Declares(types, T, CARRIER)
    ensures CarrierStands(types, byEntity, T, name) <==> Serves(byEntity, T, name) && !Declares(types, T, name)
  {
    CarrierUnreserved();
    assert Servable(types, byEntity[P][name]);
    var byName: Resolver := (_, f, _, _) => if f == CARRIER then Leaf("carrier") else Leaf("other");
    if !(Serves(byEntity, T, name) && !Declares(types, T, name)) {
      assert AnswerTo(types, byName, byEntity, T, name, [], 0)
          != AnswerTo(types, byName, map[], T, CARRIER, [Arg(CARRIER_ARG, Str(name))], 0);
    }
  }

  /** An interface that compiles the carrier breaks the rule: its object type may compile the name itself. */
  lemma CarrierOnInterfaceFails()
    ensures
      var types := map["Entity" := [FieldDef(CARRIER, "JSON")],
                       "Contact" := [FieldDef(CARRIER, "JSON"), FieldDef("email", "String")]];
      var byEntity := GroupOf(types, [GraphField("Entity", "email", "String")]);
      Serves(byEntity, "Entity", "email") && !CarrierStands(types, byEntity, "Contact", "email")
  {
    var types := map["Entity" := [FieldDef(CARRIER, "JSON")],
                     "Contact" := [FieldDef(CARRIER, "JSON"), FieldDef("email", "String")]];
    var fields := [GraphField("Entity", "email", "String")];
    var byEntity := GroupOf(types, fields);
    assert types["Entity"][0].name == CARRIER && types["Contact"][0].name == CARRIER;
    assert types["Contact"][1].name == "email";
    assert fields[..0] == [] && CARRIER[0] != "email"[0];
    assert Servable(types, fields[0]) && GroupOf(types, fields) == Filed(map[], fields[0]);
    assert "email"[0] != "__"[0];
    GroupIsGrouped(types, fields);
    CarrierStandsExactly(types, byEntity, "Entity", "Contact", "email");
  }

  // What an object is asked for.

  /** A selection made on some type the object's own may stand for. */
  ghost predicate Fits(
    service: Service, byEntity: ByEntity, fragments: Fragments, T: string, selection: Selection<Node>)
  {
    exists P :: Applies(service, T, P) && On(service, byEntity, fragments, P, selection)
  }

  ghost predicate AllFit(
    service: Service, byEntity: ByEntity, fragments: Fragments, T: string, selections: seq<Selection<Node>>)
  {
    forall i :: 0 <= i < |selections| ==> Fits(service, byEntity, fragments, T, selections[i])
  }

  /** A collected field was validated on a type the object's own may stand for. */
  predicate ItemFits(service: Service, byEntity: ByEntity, fragments: Fragments, T: string, item: Picked) {
    && item.node.owner.Some? && Applies(service, T, item.node.owner.value)
    && On(service, byEntity, fragments, item.node.owner.value, Field(item.node, item.children))
  }

  lemma AllOnFit(
    service: Service, byEntity: ByEntity, fragments: Fragments, T: string, P: string, selections: seq<Selection<Node>>)
    requires Applies(service, T, P) && AllOn(service, byEntity, fragments, P, selections)
    ensures AllFit(service, byEntity, fragments, T, selections)
  {
  }

  lemma {:induction false} CollectFits(
    service: Service, byEntity: ByEntity, fragments: Fragments, T: string,
    selections: seq<Selection<Node>>, visited: set<string>)
    requires FragmentsOn(service, byEntity, fragments) && AllFit(service, byEntity, fragments, T, selections)
    ensures forall item :: item in Collect(service, fragments, T, selections, visited).items ==>
      ItemFits(service, byEntity, fragments, T, item) && Selects(fragments, selections, item)
    decreases fragments.Keys - visited, selections, 1
  {
    if selections != [] {
      var first := CollectOne(service, fragments, T, selections[0], visited);
      CollectOneFits(service, byEntity, fragments, T, selections[0], visited);
      CollectFits(service, byEntity, fragments, T, selections[1..], first.visited);
      hide ItemFits, SelectsIn;
      forall item | item in Collect(service, fragments, T, selections, visited).items
        ensures Selects(fragments, selections, item)
      {
        if item in first.items {
          assert SelectsIn(fragments, selections[0], item);
        } else {
          var i :| 0 <= i < |selections| - 1 && SelectsIn(fragments, selections[1..][i], item);
          assert selections[1..][i] == selections[i + 1];
        }
      }
    }
  }

  lemma {:induction false} CollectOneFits(
    service: Service, byEntity: ByEntity, fragments: Fragments, T: string,
    selection: Selection<Node>, visited: set<string>)
    requires FragmentsOn(service, byEntity, fragments) && Fits(service, byEntity, fragments, T, selection)
    ensures forall item :: item in CollectOne(service, fragments, T, selection, visited).items ==>
      ItemFits(service, byEntity, fragments, T, item) && SelectsIn(fragments, selection, item)
    decreases fragments.Keys - visited, selection, 0
  {
    var P :| Applies(service, T, P) && On(service, byEntity, fragments, P, selection);
    match selection
    case Field(node, children) =>
      var item := Picked(node, children);
      assert SelectedBy(fragments, selection, item, 0);
      assert forall other :: other in CollectOne(service, fragments, T, selection, visited).items ==> other == item;
    case Inline(condition, included, children) =>
      if included && (condition.None? || Applies(service, T, condition.value)) {
        AllOnFit(service, byEntity, fragments, T, if condition.Some? then condition.value else P, children);
        CollectFits(service, byEntity, fragments, T, children, visited);
        hide ItemFits, On;
        forall item | item in CollectOne(service, fragments, T, selection, visited).items
          ensures SelectsIn(fragments, selection, item)
        {
          SelectsThrough(fragments, selection, children, item);
        }
      }
    case Spread(name, included) =>
      if included && name !in visited && Applies(service, T, fragments[name].condition) {
        var body := fragments[name].body;
        AllOnFit(service, byEntity, fragments, T, fragments[name].condition, body);
        CollectFits(service, byEntity, fragments, T, body, visited + {name});
        hide ItemFits, On;
        forall item | item in CollectOne(service, fragments, T, selection, visited).items
          ensures SelectsIn(fragments, selection, item)
        {
          SelectsThrough(fragments, selection, body, item);
        }
      }
  }

  // One response key.

  lemma SelectsMore(fragments: Fragments, left: seq<Selection<Node>>, right: seq<Selection<Node>>, item: Picked)
    ensures Selects(fragments, left, item) || Selects(fragments, right, item) <==> Selects(fragments, left + right, item)
  {
    hide SelectsIn;
    var both := left + right;
    if Selects(fragments, left, item) {
      var i :| 0 <= i < |left| && SelectsIn(fragments, left[i], item);
      assert both[i] == left[i];
    }
    if Selects(fragments, right, item) {
      var i :| 0 <= i < |right| && SelectsIn(fragments, right[i], item);
      assert both[|left| + i] == right[i];
    }
    if Selects(fragments, both, item) {
      var i :| 0 <= i < |both| && SelectsIn(fragments, both[i], item);
      assert i >= |left| ==> right[i - |left|] == both[i];
    }
  }

  /** What the merged selections select, one of the fields selects. */
  lemma {:induction false} SelectsMerged(fragments: Fragments, group: seq<Picked>, item: Picked) returns (of: Picked)
    requires Selects(fragments, Merged(group), item)
    ensures of in group && Selects(fragments, of.children, item)
  {
    if group == [] {
      assert false;
    } else {
      SelectsMore(fragments, group[0].children, Merged(group[1..]), item);
      if Selects(fragments, group[0].children, item) {
        of := group[0];
      } else {
        of := SelectsMerged(fragments, group[1..], item);
      }
    }
  }

  /** The fields of one key one object is asked for, none of them selected outside `selections`. */
  ghost predicate GroupFits(
    service: Service, byEntity: ByEntity, fragments: Fragments, T: string,
    selections: seq<Selection<Node>>, key: string, group: seq<Picked>)
  {
    forall item :: item in group ==>
      && ItemFits(service, byEntity, fragments, T, item)
      && Selects(fragments, selections, item) && item.node.alias == key
  }

  lemma GroupAgrees(
    service: Service, byEntity: ByEntity, fragments: Fragments, T: string,
    selections: seq<Selection<Node>>, key: string, group: seq<Picked>, depth: nat)
    requires GroupFits(service, byEntity, fragments, T, selections, key, group)
    requires CanMerge(service, fragments, selections, depth + 1)
    ensures forall a, b :: a in group && b in group ==>
      a.node.name == b.node.name && CanMerge(service, fragments, a.children + b.children, depth)
    ensures CanMerge(service, fragments, Merged(group), depth)
  {
    forall a, b | a in group && b in group
      ensures a.node.name == b.node.name && CanMerge(service, fragments, a.children + b.children, depth)
    {
      PairAgrees(service, byEntity, fragments, T, selections, key, group, depth, a, b);
    }
    hide CanMerge, Selects, GroupFits;
    if depth > 0 {
      forall a, b |
        && Selects(fragments, Merged(group), a) && Selects(fragments, Merged(group), b)
        && MayMeet(service, a.node, b.node)
        ensures a.node.name == b.node.name && a.node.args == b.node.args
        ensures CanMerge(service, fragments, a.children + b.children, depth - 1)
      {
        MergedAgrees(service, fragments, group, depth, a, b);
      }
    }
    MergesWhen(service, fragments, Merged(group), depth);
  }

  lemma PairAgrees(
    service: Service, byEntity: ByEntity, fragments: Fragments, T: string,
    selections: seq<Selection<Node>>, key: string, group: seq<Picked>, depth: nat, a: Picked, b: Picked)
    requires GroupFits(service, byEntity, fragments, T, selections, key, group) && a in group && b in group
    requires CanMerge(service, fragments, selections, depth + 1)
    ensures a.node.name == b.node.name && CanMerge(service, fragments, a.children + b.children, depth)
  {
    hide Selects, On;
    assert MayMeet(service, a.node, b.node);
  }

  lemma MergedAgrees(service: Service, fragments: Fragments, group: seq<Picked>, depth: nat, a: Picked, b: Picked)
    requires depth > 0 && MayMeet(service, a.node, b.node)
    requires Selects(fragments, Merged(group), a) && Selects(fragments, Merged(group), b)
    requires forall p, q :: p in group && q in group ==> CanMerge(service, fragments, p.children + q.children, depth)
    ensures a.node.name == b.node.name && a.node.args == b.node.args
    ensures CanMerge(service, fragments, a.children + b.children, depth - 1)
  {
    hide Selects, MayMeet;
    var p := SelectsMerged(fragments, group, a);
    var q := SelectsMerged(fragments, group, b);
    SelectsMore(fragments, p.children, q.children, a);
    SelectsMore(fragments, p.children, q.children, b);
    assert CanMerge(service, fragments, p.children + q.children, depth);
  }

  lemma MergesWhen(service: Service, fragments: Fragments, selections: seq<Selection<Node>>, depth: nat)
    requires depth > 0 ==> forall a, b ::
      Selects(fragments, selections, a) && Selects(fragments, selections, b) && MayMeet(service, a.node, b.node) ==>
        && a.node.name == b.node.name && a.node.args == b.node.args
        && CanMerge(service, fragments, a.children + b.children, depth - 1)
    ensures CanMerge(service, fragments, selections, depth)
  {
    hide Selects, MayMeet;
  }

  /** A field of an object is answered alike by the widened schema and, pointed at the carrier, by the compiled one. */
  lemma AnswersAlike(
    service: Service, byEntity: ByEntity, fragments: Fragments, T: string, item: Picked, ref: nat)
    requires Sound(service, byEntity) && ItemFits(service, byEntity, fragments, T, item)
    ensures
      var to := RewritePicked(service.types, item).node;
      AnswerTo(service.types, service.resolve, byEntity, T, item.node.name, item.node.args, ref)
      == AnswerTo(service.types, service.resolve, map[], T, to.name, to.args, ref)
    ensures Rewrites(service.types, item.node) ==> item.children == []
  {
    var P := item.node.owner.value;
    FieldStays(service, byEntity, P, item.node);
    CarrierUnreserved();
    assert Implements(service, T, P, item.node.name);
  }

  /** Each object within the value may be asked for the selections. */
  ghost predicate ValueFits(
    service: Service, byEntity: ByEntity, fragments: Fragments, resolved: Resolved, selections: seq<Selection<Node>>)
  {
    match resolved
    case Object(T, _) => AllFit(service, byEntity, fragments, T, selections)
    case Many(items) =>
      forall i :: 0 <= i < |items| ==> ValueFits(service, byEntity, fragments, items[i], selections)
    case _ => true
  }

  lemma {:induction false} TypedFits(
    service: Service, byEntity: ByEntity, fragments: Fragments,
    resolved: Resolved, typeName: string, P: string, selections: seq<Selection<Node>>)
    requires Typed(service, resolved, typeName) && AllOn(service, byEntity, fragments, P, selections)
    requires forall T :: Applies(service, T, typeName) ==> Applies(service, T, P)
    ensures ValueFits(service, byEntity, fragments, resolved, selections)
  {
    hide On;
    match resolved
    case Object(T, _) => AllOnFit(service, byEntity, fragments, T, P, selections);
    case Many(items) =>
      forall i | 0 <= i < |items| ensures ValueFits(service, byEntity, fragments, items[i], selections) {
        TypedFits(service, byEntity, fragments, items[i], typeName, P, selections);
      }
    case _ =>
  }

  lemma {:induction false} ValueFitsBoth(
    service: Service, byEntity: ByEntity, fragments: Fragments,
    resolved: Resolved, left: seq<Selection<Node>>, right: seq<Selection<Node>>)
    requires ValueFits(service, byEntity, fragments, resolved, left)
    requires ValueFits(service, byEntity, fragments, resolved, right)
    ensures ValueFits(service, byEntity, fragments, resolved, left + right)
  {
    if resolved.Many? {
      forall i | 0 <= i < |resolved.items|
        ensures ValueFits(service, byEntity, fragments, resolved.items[i], left + right)
      {
        ValueFitsBoth(service, byEntity, fragments, resolved.items[i], left, right);
      }
    }
  }

  lemma {:induction false} ValueFitsNone(
    service: Service, byEntity: ByEntity, fragments: Fragments, resolved: Resolved)
    ensures ValueFits(service, byEntity, fragments, resolved, [])
  {
    if resolved.Many? {
      forall i | 0 <= i < |resolved.items| ensures ValueFits(service, byEntity, fragments, resolved.items[i], []) {
        ValueFitsNone(service, byEntity, fragments, resolved.items[i]);
      }
    }
  }

  /** The value answered for a field may be asked for what the field selects. */
  lemma ItemValueFits(
    service: Service, byEntity: ByEntity, fragments: Fragments, T: string, item: Picked, args: seq<Arg>, ref: nat)
    requires Sound(service, byEntity) && ItemFits(service, byEntity, fragments, T, item)
    ensures
      var resolved := AnswerTo(service.types, service.resolve, byEntity, T, item.node.name, args, ref);
      ValueFits(service, byEntity, fragments, resolved, item.children)
  {
    var P, name := item.node.owner.value, item.node.name;
    var resolved := AnswerTo(service.types, service.resolve, byEntity, T, name, args, ref);
    if item.children == [] {
      ValueFitsNone(service, byEntity, fragments, resolved);
    } else {
      FieldStays(service, byEntity, P, item.node);
      assert Implements(service, T, P, name) && Resolves(service, T, name);
      TypedFits(service, byEntity, fragments, resolved, TypeOf(service, map[], T, name).value,
                TypeOf(service, byEntity, P, name).value, item.children);
    }
  }

  lemma {:induction false} GroupValueFits(
    service: Service, byEntity: ByEntity, fragments: Fragments, T: string,
    group: seq<Picked>, name: string, args: seq<Arg>, ref: nat)
    requires Sound(service, byEntity)
    requires forall item :: item in group ==> ItemFits(service, byEntity, fragments, T, item) && item.node.name == name
    ensures
      var resolved := AnswerTo(service.types, service.resolve, byEntity, T, name, args, ref);
      ValueFits(service, byEntity, fragments, resolved, Merged(group))
  {
    hide Sound, ItemFits, AnswerTo, ValueFits;
    var resolved := AnswerTo(service.types, service.resolve, byEntity, T, name, args, ref);
    if group == [] {
      ValueFitsNone(service, byEntity, fragments, resolved);
    } else {
      assert group[0] in group && forall item :: item in group[1..] ==> item in group;
      ItemValueFits(service, byEntity, fragments, T, group[0], args, ref);
      GroupValueFits(service, byEntity, fragments, T, group[1..], name, args, ref);
      ValueFitsBoth(service, byEntity, fragments, resolved, group[0].children, Merged(group[1..]));
    }
  }

  // The whole operation.

  /**
   A valid operation, rewritten, answers over the compiled resolvers alone, key
   for key, what the original answers over the schema widened by the fields.
   */
  lemma RewritingKeepsMeaning(
    service: Service, fields: seq<GraphField>, fragments: Fragments,
    root: string, ref: nat, selections: seq<Selection<Node>>, depth: nat)
    requires Compiled(service) && forall field :: field in fields ==> field.scalar !in service.composite
    requires var byEntity := GroupOf(service.types, fields);
      && AllOn(service, byEntity, fragments, root, selections)
      && FragmentsOn(service, byEntity, fragments)
    requires CanMerge(service, fragments, selections, depth)
    ensures
      Execute(service, map[], RewriteFragments(service.types, fragments), root, ref,
              RewriteAll(service.types, selections), depth)
      == Execute(service, GroupOf(service.types, fields), fragments, root, ref, selections, depth)
  {
    var byEntity := GroupOf(service.types, fields);
    GroupIsSound(service, fields);
    hide Sound, Compiled, FragmentsOn, CanMerge, Execute;
    AllOnFit(service, byEntity, fragments, root, root, selections);
    SelectionsKept(service, byEntity, fragments, root, ref, selections, depth);
  }

  lemma {:induction false} SelectionsKept(
    service: Service, byEntity: ByEntity, fragments: Fragments,
    T: string, ref: nat, selections: seq<Selection<Node>>, depth: nat)
    requires Sound(service, byEntity) && FragmentsOn(service, byEntity, fragments)
    requires AllFit(service, byEntity, fragments, T, selections)
    requires CanMerge(service, fragments, selections, depth)
    ensures
      Execute(service, map[], RewriteFragments(service.types, fragments), T, ref,
              RewriteAll(service.types, selections), depth)
      == Execute(service, byEntity, fragments, T, ref, selections, depth)
    decreases depth, 0
  {
    hide Sound, FragmentsOn, AllFit, CanMerge, Collect, Answer, RewriteItems, RewriteAll, RewriteFragments, Keys, With;
    if depth > 0 {
      var rewritten := RewriteFragments(service.types, fragments);
      var items := Collect(service, fragments, T, selections, {}).items;
      CollectRewritten(service, fragments, T, selections, {});
      KeysRewritten(service.types, items);
      forall key: string
        ensures
          Answer(service, map[], rewritten, T, ref, With(RewriteItems(service.types, items), key), depth - 1)
          == Answer(service, byEntity, fragments, T, ref, With(items, key), depth - 1)
      {
        KeyKept(service, byEntity, fragments, T, ref, selections, key, depth - 1);
      }
      assert
        Execute(service, map[], rewritten, T, ref, RewriteAll(service.types, selections), depth)
        == Execute(service, byEntity, fragments, T, ref, selections, depth);
    }
  }

  lemma {:induction false} KeyKept(
    service: Service, byEntity: ByEntity, fragments: Fragments, T: string, ref: nat,
    selections: seq<Selection<Node>>, key: string, depth: nat)
    requires Sound(service, byEntity) && FragmentsOn(service, byEntity, fragments)
    requires AllFit(service, byEntity, fragments, T, selections)
    requires CanMerge(service, fragments, selections, depth + 1)
    ensures
      var items := Collect(service, fragments, T, selections, {}).items;
      Answer(service, map[], RewriteFragments(service.types, fragments), T, ref,
             With(RewriteItems(service.types, items), key), depth)
      == Answer(service, byEntity, fragments, T, ref, With(items, key), depth)
    decreases depth, 3
  {
    var items := Collect(service, fragments, T, selections, {}).items;
    CollectFits(service, byEntity, fragments, T, selections, {});
    WithRewritten(service.types, items, key);
    hide Sound, FragmentsOn, AllFit, CanMerge, ItemFits, Collect, Selects, Answer, RewriteItems;
    AnswerKept(service, byEntity, fragments, T, ref, selections, key, With(items, key), depth);
  }

  lemma {:induction false} AnswerKept(
    service: Service, byEntity: ByEntity, fragments: Fragments, T: string, ref: nat,
    selections: seq<Selection<Node>>, key: string, group: seq<Picked>, depth: nat)
    requires Sound(service, byEntity) && FragmentsOn(service, byEntity, fragments)
    requires GroupFits(service, byEntity, fragments, T, selections, key, group)
    requires CanMerge(service, fragments, selections, depth + 1)
    ensures
      Answer(service, map[], RewriteFragments(service.types, fragments), T, ref, RewriteItems(service.types, group), depth)
      == Answer(service, byEntity, fragments, T, ref, group, depth)
    decreases depth, 2
  {
    if group != [] {
      var types, first := service.types, group[0].node;
      var resolved := AnswerTo(types, service.resolve, byEntity, T, first.name, first.args, ref);
      GroupAgrees(service, byEntity, fragments, T, selections, key, group, depth);
      hide Sound, FragmentsOn, ItemFits, CanMerge, Selects, AnswerTo, ValueFits, RewritePicked;
      forall item | item in group && Rewrites(types, item.node) ensures item.children == [] {
        AnswersAlike(service, byEntity, fragments, T, item, ref);
      }
      AnswersAlike(service, byEntity, fragments, T, group[0], ref);
      MergedRewritten(types, group);
      GroupValueFits(service, byEntity, fragments, T, group, first.name, first.args, ref);
      CompleteKept(service, byEntity, fragments, resolved, Merged(group), depth);
    }
  }

  lemma {:induction false} CompleteKept(
    service: Service, byEntity: ByEntity, fragments: Fragments,
    resolved: Resolved, selections: seq<Selection<Node>>, depth: nat)
    requires Sound(service, byEntity) && FragmentsOn(service, byEntity, fragments)
    requires ValueFits(service, byEntity, fragments, resolved, selections)
    requires CanMerge(service, fragments, selections, depth)
    ensures
      Complete(service, map[], RewriteFragments(service.types, fragments), resolved,
               RewriteAll(service.types, selections), depth)
      == Complete(service, byEntity, fragments, resolved, selections, depth)
    decreases depth, 1, resolved
  {
    hide Sound, FragmentsOn, CanMerge, AllFit, Execute;
    match resolved
    case Object(T, ref) => SelectionsKept(service, byEntity, fragments, T, ref, selections, depth);
    case Many(items) =>
      forall i | 0 <= i < |items|
        ensures
          Complete(service, map[], RewriteFragments(service.types, fragments), items[i],
                   RewriteAll(service.types, selections), depth)
          == Complete(service, byEntity, fragments, items[i], selections, depth)
      {
        CompleteKept(service, byEntity, fragments, items[i], selections, depth);
      }
    case _ =>
  }
}
