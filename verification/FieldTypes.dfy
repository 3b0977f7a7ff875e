/** What the field catalogue holds: definitions, and the view one reading of them gives. */
module FieldTypes {

  type Tenant = nat

  datatype Kind = Text | LongText | Number | Boolean | Date | Select | Repeater

  datatype SubField = SubField(name: string, caption: string, kind: Kind)

  datatype Definition = Definition(id: nat, name: string, caption: string, kind: Kind, subFields: seq<SubField>)

  datatype GraphField = GraphField(entity: string, name: string, scalar: string)

  datatype View = View(
    stamp: nat,
    read: int,
    fields: seq<GraphField>,
    kinds: map<string, Kind>,
    columns: map<string, seq<SubField>>)

  const CONTACT := "Contact"

  function Scalar(kind: Kind): string {
    match kind
    case Text | LongText | Select => "String"
    case Number => "Int"
    case Boolean => "Boolean"
    case Date => "Date"
    case Repeater => "JSON"
  }

  function FieldsOf(definitions: seq<Definition>): seq<GraphField> {
    seq(|definitions|, i requires 0 <= i < |definitions| =>
      GraphField(CONTACT, definitions[i].name, Scalar(definitions[i].kind)))
  }

  function KindsOf(definitions: seq<Definition>): map<string, Kind> {
    if definitions == [] then map[]
    else
      var last := definitions[|definitions| - 1];
      KindsOf(definitions[..|definitions| - 1])[last.name := last.kind]
  }

  function ColumnsOf(definitions: seq<Definition>): map<string, seq<SubField>> {
    if definitions == [] then map[]
    else
      var last := definitions[|definitions| - 1];
      ColumnsOf(definitions[..|definitions| - 1])[last.name := last.subFields]
  }

  function ViewOf(definitions: seq<Definition>, now: int): View {
    View(0, now, FieldsOf(definitions), KindsOf(definitions), ColumnsOf(definitions))
  }

  predicate DistinctNames(definitions: seq<Definition>) {
    forall i, j :: 0 <= i < j < |definitions| ==> definitions[i].name != definitions[j].name
  }

  /** A view answers each definition's own shape under its name. */
  lemma {:induction false} ViewHoldsShape(definitions: seq<Definition>, i: nat)
    requires DistinctNames(definitions) && i < |definitions|
    ensures definitions[i].name in KindsOf(definitions) && definitions[i].name in ColumnsOf(definitions)
    ensures KindsOf(definitions)[definitions[i].name] == definitions[i].kind
    ensures ColumnsOf(definitions)[definitions[i].name] == definitions[i].subFields
  {
    var front := definitions[..|definitions| - 1];
    if i < |front| {
      assert front[i] == definitions[i];
      ViewHoldsShape(front, i);
    }
  }

  /** A view lists one field of a contact for each definition, in their order. */
  lemma ViewListsFields(definitions: seq<Definition>, now: int)
    ensures var fields := ViewOf(definitions, now).fields;
      && |fields| == |definitions|
      && forall i :: 0 <= i < |definitions| ==>
           fields[i].entity == "Contact" && fields[i].name == definitions[i].name
           && fields[i].scalar == Scalar(definitions[i].kind)
  {
  }

  /** A view holds no name but its definitions'. */
  lemma {:induction false} ViewHoldsOnly(definitions: seq<Definition>, name: string) returns (i: nat)
    requires name in KindsOf(definitions) || name in ColumnsOf(definitions)
    ensures i < |definitions| && definitions[i].name == name
  {
    var last := |definitions| - 1;
    if definitions[last].name == name {
      i := last;
    } else {
      i := ViewHoldsOnly(definitions[..last], name);
    }
  }

  /** Builds the view of the definitions one read answered, as yet without a stamp. */
  method Read(definitions: seq<Definition>, now: int) returns (next: View)
    ensures next == ViewOf(definitions, now)
  {
    next := View(0, now, [], map[], map[]);
    for at := 0 to |definitions|
      invariant next == ViewOf(definitions[..at], now)
    {
      var definition := definitions[at];
      next := next.(
        fields := next.fields + [GraphField(CONTACT, definition.name, Scalar(definition.kind))],
        kinds := next.kinds[definition.name := definition.kind],
        columns := next.columns[definition.name := definition.subFields]);
      assert definitions[..at + 1][..at] == definitions[..at];
    }
    assert definitions[..|definitions|] == definitions;
  }
}
