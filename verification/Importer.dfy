/** Assigning columns to fields, drafting contacts from rows, and an import as it is stored. */
module Importer {
  import opened Wrappers
  import opened Clocks
  import opened ImportProtocol

  datatype Assignment = Assignment(column: int, field: Field)

  datatype Error = NoColumn | NoField | ColumnTaken | FieldTaken | NameUnmapped | FieldsVanished(names: set<Field>)

  /** The decimal index a column is kept under. */
  function Index(column: nat): string { Padded(column, 1) }

  /** Columns of a sheet that do not share an index are the same column. */
  lemma IndexNamesColumn(a: nat, b: nat)
    requires Index(a) == Index(b)
    ensures a == b
  {
    PaddedReads(a, 1);
    PaddedReads(b, 1);
  }

  /** A column's index finds that column's cell. */
  lemma IndexFindsCell(cells: seq<string>, column: nat)
    requires column < |cells| && column <= MAX_INT64
    ensures CellAt(cells, Index(column)) == cells[column]
  {
    NumberReadsBack(column);
  }

  /** Assignments of columns the import carries to fields the registry holds, no column or field twice. */
  predicate Each(assignments: seq<Assignment>, width: nat, known: set<Field>) {
    && (forall i :: 0 <= i < |assignments| ==> 0 <= assignments[i].column < width && assignments[i].field in known)
    && (forall i, j :: 0 <= i < j < |assignments| ==>
          assignments[i].column != assignments[j].column && assignments[i].field != assignments[j].field)
  }

  function Claimed(assignments: seq<Assignment>): set<Field> {
    set i | 0 <= i < |assignments| :: assignments[i].field
  }

  /** What is wrong with an assignment, given the ones accepted before it; nothing for a good one. */
  function CheckAssignment(
    one: Assignment, width: nat, mapping: Mapping, claimed: set<Field>, known: set<Field>): Option<Error>
  {
    if one.column < 0 || one.column >= width then Some(NoColumn)
    else if one.field !in known then Some(NoField)
    else if Index(one.column) in mapping && mapping[Index(one.column)] != "" then Some(ColumnTaken)
    else if one.field in claimed then Some(FieldTaken)
    else None
  }

  function MappingOf(assignments: seq<Assignment>): Mapping {
    if assignments == [] then map[]
    else
      var last := assignments[|assignments| - 1];
      MappingOf(assignments[..|assignments| - 1])[if last.column >= 0 then Index(last.column) else "" := last.field]
  }

  lemma {:induction false} MappingHolds(assignments: seq<Assignment>, index: string)
    requires forall i :: 0 <= i < |assignments| ==> assignments[i].column >= 0
    ensures index in MappingOf(assignments) ==>
      exists i :: 0 <= i < |assignments| && Index(assignments[i].column) == index
                  && assignments[i].field == MappingOf(assignments)[index]
    ensures (exists i :: 0 <= i < |assignments| && Index(assignments[i].column) == index) ==> index in MappingOf(assignments)
  {
    if assignments != [] {
      var n := |assignments| - 1;
      MappingHolds(assignments[..n], index);
      assert forall i :: 0 <= i < n ==> assignments[..n][i] == assignments[i];
    }
  }

  /** An assignment joins exactly when the longer list is still one column to one field. */
  lemma JoinsExactly(assignments: seq<Assignment>, one: Assignment, width: nat, known: set<Field>)
    requires Each(assignments, width, known) && "" !in known
    ensures CheckAssignment(one, width, MappingOf(assignments), Claimed(assignments), known) == None
      <==> Each(assignments + [one], width, known)
  {
    var longer := assignments + [one];
    var n := |assignments|;
    assert forall i :: 0 <= i < n ==> longer[i] == assignments[i];
    assert longer[n] == one;
    if 0 <= one.column < width {
      MappingHolds(assignments, Index(one.column));
      forall i | 0 <= i < n ensures assignments[i].column == one.column <==> Index(assignments[i].column) == Index(one.column) {
        if Index(assignments[i].column) == Index(one.column) {
          IndexNamesColumn(assignments[i].column, one.column);
        }
      }
    }
  }

  /** What is wrong with one assignment, told in this order, given those before it. */
  ghost predicate WrongWith(error: Error, assignments: seq<Assignment>, i: int, width: nat, known: set<Field>) {
    && 0 <= i < |assignments|
    && var one, inside := assignments[i], 0 <= assignments[i].column < width;
    var sameColumn := exists k :: 0 <= k < i && assignments[k].column == one.column;
    var sameField := exists k :: 0 <= k < i && assignments[k].field == one.field;
    match error
    case NoColumn => !inside
    case NoField => inside && one.field !in known
    case ColumnTaken => inside && one.field in known && sameColumn
    case FieldTaken => inside && one.field in known && !sameColumn && sameField
    case _ => false
  }

  lemma RefusalSays(assignments: seq<Assignment>, i: nat, width: nat, known: set<Field>)
    requires i < |assignments| && Each(assignments[..i], width, known) && "" !in known
    ensures var refusal := CheckAssignment(
        assignments[i], width, MappingOf(assignments[..i]), Claimed(assignments[..i]), known);
      refusal.Some? ==> WrongWith(refusal.value, assignments, i, width, known)
  {
    var front, one := assignments[..i], assignments[i];
    assert forall k :: 0 <= k < i ==> front[k] == assignments[k];
    if 0 <= one.column < width {
      MappingHolds(front, Index(one.column));
      forall k | 0 <= k < i ensures front[k].column == one.column <==> Index(front[k].column) == Index(one.column) {
        if Index(front[k].column) == Index(one.column) {
          IndexNamesColumn(front[k].column, one.column);
        }
      }
    }
  }

  /** Each assigned column keeps its own field. */
  lemma {:induction false} MappingKeeps(assignments: seq<Assignment>, width: nat, known: set<Field>, i: nat)
    requires Each(assignments, width, known) && i < |assignments|
    ensures Index(assignments[i].column) in MappingOf(assignments)
    ensures MappingOf(assignments)[Index(assignments[i].column)] == assignments[i].field
  {
    var index := Index(assignments[i].column);
    MappingHolds(assignments, index);
    var k :| 0 <= k < |assignments| && Index(assignments[k].column) == index && assignments[k].field == MappingOf(assignments)[index];
    IndexNamesColumn(assignments[k].column, assignments[i].column);
  }

  lemma {:induction false} MappingInjective(assignments: seq<Assignment>, width: nat, known: set<Field>)
    requires Each(assignments, width, known)
    ensures Injective(MappingOf(assignments)) && MappingOf(assignments).Values == Claimed(assignments)
  {
    if assignments != [] {
      var n := |assignments| - 1;
      var front, last := assignments[..n], assignments[n];
      MappingInjective(front, width, known);
      MappingHolds(front, Index(last.column));
      assert Index(last.column) !in MappingOf(front) by {
        if i :| 0 <= i < n && Index(front[i].column) == Index(last.column) {
          IndexNamesColumn(front[i].column, last.column);
        }
      }
      assert last.field !in Claimed(front);
      assert Claimed(assignments) == Claimed(front) + {last.field};
      OneMoreField(MappingOf(front), Index(last.column), last.field);
    }
  }

  lemma OneMoreField(mapping: Mapping, index: string, field: Field)
    requires Injective(mapping) && index !in mapping && field !in mapping.Values
    ensures Injective(mapping[index := field]) && mapping[index := field].Values == mapping.Values + {field}
  {
    var longer := mapping[index := field];
    forall value | value in mapping.Values + {field} ensures value in longer.Values {
      if value in mapping.Values {
        var key :| key in mapping && mapping[key] == value;
        assert longer[key] == value;
      } else {
        assert longer[index] == value;
      }
    }
  }

  /** A mapping for good assignments, and the first thing wrong with any others. */
  method BuildMapping(assignments: seq<Assignment>, width: nat, known: set<Field>)
    returns (mapping: Mapping, refused: Option<Error>)
    requires "" !in known
    ensures refused == None <==> Each(assignments, width, known) && CONTACT_NAME in Claimed(assignments)
    ensures refused == None ==> mapping == MappingOf(assignments)
    ensures refused == None ==> Injective(mapping) && mapping.Values == Claimed(assignments)
    ensures refused == None ==> forall i :: 0 <= i < |assignments| ==>
      Assigned(mapping, assignments[i])
    ensures refused == Some(NameUnmapped) <==> Each(assignments, width, known) && CONTACT_NAME !in Claimed(assignments)
    ensures refused.Some? && refused.value != NameUnmapped ==>
      exists i :: WrongWith(refused.value, assignments, i, width, known) && Each(assignments[..i], width, known)
  {
    hide Each, MappingOf, CheckAssignment, Injective, WrongWith, Assigned;
    mapping := map[];
    var claimed: set<Field> := {};
    NoneYet(width, known);
    for i := 0 to |assignments|
      invariant mapping == MappingOf(assignments[..i]) && claimed == Claimed(assignments[..i])
      invariant Each(assignments[..i], width, known)
    {
      var one := assignments[i];
      assert assignments[..i + 1] == assignments[..i] + [one];
      JoinsExactly(assignments[..i], one, width, known);
      var refusal := CheckAssignment(one, width, mapping, claimed, known);
      if refusal.Some? {
        PrefixFails(assignments, i + 1, width, known);
        RefusalSays(assignments, i, width, known);
        NeverUnmapped(one, width, mapping, claimed, known);
        assert WrongWith(refusal.value, assignments, i, width, known);
        return map[], refusal;
      }
      OneMore(assignments[..i], one, width, known);
      mapping := mapping[Index(one.column) := one.field];
      claimed := claimed + {one.field};
    }
    assert assignments[..|assignments|] == assignments;
    if CONTACT_NAME !in claimed {
      return map[], Some(NameUnmapped);
    }
    MappingInjective(assignments, width, known);
    forall i | 0 <= i < |assignments| ensures Assigned(mapping, assignments[i]) {
      KeepsAssigned(assignments, width, known, i);
    }
    return mapping, None;
  }

  /** A mapping that feeds the field from the column. */
  predicate Assigned(mapping: Mapping, one: Assignment) {
    one.column >= 0 && Index(one.column) in mapping && mapping[Index(one.column)] == one.field
  }

  lemma KeepsAssigned(assignments: seq<Assignment>, width: nat, known: set<Field>, i: nat)
    requires Each(assignments, width, known) && i < |assignments|
    ensures Assigned(MappingOf(assignments), assignments[i])
  {
    MappingKeeps(assignments, width, known, i);
  }

  lemma NeverUnmapped(one: Assignment, width: nat, mapping: Mapping, claimed: set<Field>, known: set<Field>)
    ensures CheckAssignment(one, width, mapping, claimed, known) != Some(NameUnmapped)
  {
  }

  lemma NoneYet(width: nat, known: set<Field>)
    ensures Each([], width, known) && MappingOf([]) == map[]
  {
  }

  lemma PrefixFails(assignments: seq<Assignment>, n: nat, width: nat, known: set<Field>)
    requires n <= |assignments| && !Each(assignments[..n], width, known)
    ensures !Each(assignments, width, known)
  {
  }

  lemma OneMore(assignments: seq<Assignment>, one: Assignment, width: nat, known: set<Field>)
    requires Each(assignments + [one], width, known)
    ensures one.column >= 0
    ensures MappingOf(assignments + [one]) == MappingOf(assignments)[Index(one.column) := one.field]
    ensures Claimed(assignments + [one]) == Claimed(assignments) + {one.field}
  {
    var longer := assignments + [one];
    assert longer[..|assignments|] == assignments && longer[|assignments|] == one;
    assert forall i :: 0 <= i < |assignments| ==> longer[i] == assignments[i];
  }

  /** Each field is fed by one column. */
  predicate Injective(mapping: Mapping) {
    forall a, b :: a in mapping && b in mapping && mapping[a] == mapping[b] ==> a == b
  }

  /** Only an import that is ready is refused, and only for mapped fields that are gone. */
  method CheckEntry(state: State, mapping: Mapping, known: set<Field>) returns (refused: Option<Error>)
    ensures refused == None <==> state != Ready || mapping.Values <= known
    ensures refused.Some? ==> refused.value == FieldsVanished(mapping.Values - known)
  {
    if state != Ready {
      return None;
    }
    var vanished: set<Field> := {};
    var left := mapping.Keys;
    while left != {}
      invariant left <= mapping.Keys
      invariant forall field :: field in vanished <==>
        field !in known && exists index :: index in mapping && index !in left && mapping[index] == field
      decreases |left|
    {
      var index :| index in left;
      left := left - {index};
      if mapping[index] !in known {
        vanished := vanished + {mapping[index]};
      }
    }
    assert vanished == mapping.Values - known;
    if vanished == {} {
      assert forall field :: field in mapping.Values ==> field !in mapping.Values - known;
      return None;
    }
    return Some(FieldsVanished(vanished));
  }

  /** What a row says of a contact: a name, identities, and texts for other fields. */
  datatype Draft = Draft(name: string, identities: set<Identity>, texts: map<Field, string>)

  predicate DraftUsable(draft: Draft) { draft.name != "" && draft.identities != {} }

  /** The other fields the cells describe. */
  function TextFields(cells: seq<string>, mapping: Mapping): set<Field> {
    set index | index in mapping && !Core(mapping[index]) && CellAt(cells, index) != "" :: mapping[index]
  }

  /** A cell of some column that feeds the field. */
  predicate Fed(cells: seq<string>, mapping: Mapping, field: Field, value: string) {
    value != "" && exists index :: index in mapping && mapping[index] == field && CellAt(cells, index) == value
  }

  /** What each kind of field makes of the cells that feed it: identities, the name, or a text. */
  lemma FieldsExactly(cells: seq<string>, mapping: Mapping, field: Field, value: string)
    ensures Identity(field, value) in IdentitiesOf(cells, mapping) <==>
      (field == "email" || field == "phone") && Fed(cells, mapping, field, value)
    ensures Named(cells, mapping) <==> exists name :: Fed(cells, mapping, "name", name)
    ensures field in TextFields(cells, mapping) <==>
      field != "name" && field != "email" && field != "phone" && exists text :: Fed(cells, mapping, field, text)
  {
    hide CellAt;
    assert "name"[0] != "email"[0] && "name"[0] != "phone"[0] && "email"[0] != "phone"[0];
    if Named(cells, mapping) {
      var index :| index in mapping && mapping[index] == CONTACT_NAME && CellAt(cells, index) != "";
      assert Fed(cells, mapping, "name", CellAt(cells, index));
    }
    if field in TextFields(cells, mapping) {
      var index :| index in mapping && !Core(mapping[index]) && CellAt(cells, index) != "" && mapping[index] == field;
      assert Fed(cells, mapping, field, CellAt(cells, index));
    }
  }

  /** A name the cells give, and the text they give a field. */
  predicate Gives(cells: seq<string>, mapping: Mapping, field: Field, value: string) {
    exists index :: index in mapping && mapping[index] == field && CellAt(cells, index) == value != ""
  }

  lemma OneColumnIdentifies(cells: seq<string>, mapping: Mapping, index: string, field: Field)
    requires index !in mapping
    ensures IdentitiesOf(cells, mapping[index := field]) == IdentitiesOf(cells, mapping) +
      if CellAt(cells, index) != "" && Core(field) && field != CONTACT_NAME then {Identity(field, CellAt(cells, index))} else {}
  {
    hide CellAt;
    var longer := mapping[index := field];
    forall identity | identity in IdentitiesOf(cells, mapping) ensures identity in IdentitiesOf(cells, longer) {
      var column :| column in mapping && CellAt(cells, column) != "" && Core(mapping[column])
        && mapping[column] != CONTACT_NAME && identity == Identity(mapping[column], CellAt(cells, column));
      assert longer[column] == mapping[column];
    }
    assert longer[index] == field;
  }

  lemma OneColumnTexts(cells: seq<string>, mapping: Mapping, index: string, field: Field)
    requires index !in mapping
    ensures TextFields(cells, mapping[index := field]) ==
      TextFields(cells, mapping) + if CellAt(cells, index) != "" && !Core(field) then {field} else {}
  {
    hide CellAt;
    var longer := mapping[index := field];
    forall text | text in TextFields(cells, mapping) ensures text in TextFields(cells, longer) {
      var column :| column in mapping && !Core(mapping[column]) && CellAt(cells, column) != "" && mapping[column] == text;
      assert longer[column] == mapping[column];
    }
    assert longer[index] == field;
  }

  lemma OneColumnNames(cells: seq<string>, mapping: Mapping, index: string, field: Field)
    requires index !in mapping
    ensures Named(cells, mapping[index := field]) <==>
      Named(cells, mapping) || (CellAt(cells, index) != "" && field == CONTACT_NAME)
  {
    hide CellAt;
    var longer := mapping[index := field];
    if Named(cells, mapping) {
      var column :| column in mapping && mapping[column] == CONTACT_NAME && CellAt(cells, column) != "";
      assert longer[column] == CONTACT_NAME;
    }
    assert longer[index] == field;
  }

  lemma StillGives(cells: seq<string>, mapping: Mapping, index: string, field: Field, f: Field, value: string)
    requires index !in mapping && Gives(cells, mapping, f, value)
    ensures Gives(cells, mapping[index := field], f, value)
  {
    var longer := mapping[index := field];
    var i :| i in mapping && mapping[i] == f && CellAt(cells, i) == value != "";
    assert longer[i] == f;
  }

  lemma NowGives(cells: seq<string>, mapping: Mapping, index: string, field: Field)
    requires CellAt(cells, index) != ""
    ensures Gives(cells, mapping[index := field], field, CellAt(cells, index))
  {
    assert mapping[index := field][index] == field;
  }

  /** A draft of exactly what the columns read so far give. */
  predicate Drafted(cells: seq<string>, read: Mapping, draft: Draft) {
    && draft.identities == IdentitiesOf(cells, read) && draft.texts.Keys == TextFields(cells, read)
    && (draft.name != "" <==> Named(cells, read))
    && (draft.name != "" ==> Gives(cells, read, CONTACT_NAME, draft.name))
    && forall field :: field in draft.texts ==> Gives(cells, read, field, draft.texts[field])
  }

  function WithName(draft: Draft, value: string): Draft { draft.(name := value) }

  function WithIdentity(draft: Draft, identity: Identity): Draft { draft.(identities := draft.identities + {identity}) }

  function WithText(draft: Draft, field: Field, value: string): Draft { draft.(texts := draft.texts[field := value]) }

  lemma OneColumnDrafted(cells: seq<string>, read: Mapping, draft: Draft, index: string, field: Field)
    requires Drafted(cells, read, draft) && index !in read
    ensures var longer, value := read[index := field], CellAt(cells, index);
      && (value == "" ==> Drafted(cells, longer, draft))
      && (value != "" && field == CONTACT_NAME ==> Drafted(cells, longer, WithName(draft, value)))
      && (value != "" && field != CONTACT_NAME && Core(field) ==> Drafted(cells, longer, WithIdentity(draft, Identity(field, value))))
      && (value != "" && !Core(field) ==> Drafted(cells, longer, WithText(draft, field, value)))
  {
    hide IdentitiesOf, TextFields, Named, Gives, CellAt;
    var longer, value := read[index := field], CellAt(cells, index);
    OneColumnIdentifies(cells, read, index, field);
    OneColumnTexts(cells, read, index, field);
    OneColumnNames(cells, read, index, field);
    if draft.name != "" { StillGives(cells, read, index, field, CONTACT_NAME, draft.name); }
    forall f | f in draft.texts ensures Gives(cells, longer, f, draft.texts[f]) {
      StillGives(cells, read, index, field, f, draft.texts[f]);
    }
    if value != "" { NowGives(cells, read, index, field); }
  }

  /** Reads a row's cells under the mapping, column by column in any order. */
  method DraftOf(cells: seq<string>, mapping: Mapping) returns (draft: Draft)
    ensures draft.identities == IdentitiesOf(cells, mapping) && draft.texts.Keys == TextFields(cells, mapping)
    ensures draft.name != "" <==> Named(cells, mapping)
    ensures draft.name != "" ==> Gives(cells, mapping, CONTACT_NAME, draft.name)
    ensures forall field :: field in draft.texts ==> Gives(cells, mapping, field, draft.texts[field])
    ensures DraftUsable(draft) <==> Usable(cells, mapping)
  {
    draft := Draft("", {}, map[]);
    ghost var read: Mapping := map[];
    var left := mapping.Keys;
    hide IdentitiesOf, TextFields, Named, Gives, CellAt;
    NothingRead(cells);
    while left != {}
      invariant left <= mapping.Keys && read.Keys == mapping.Keys - left
      invariant forall index :: index in read ==> read[index] == mapping[index]
      invariant Drafted(cells, read, draft)
      decreases |left|
    {
      hide Drafted;
      var index :| index in left;
      var field, value := mapping[index], CellAt(cells, index);
      OneColumnDrafted(cells, read, draft, index, field);
      left := left - {index};
      read := read[index := field];
      if value == "" {
        continue;
      }
      if field == CONTACT_NAME {
        draft := WithName(draft, value);
      } else if Core(field) {
        draft := WithIdentity(draft, Identity(field, value));
      } else {
        draft := WithText(draft, field, value);
      }
    }
    assert read == mapping;
  }

  lemma NothingRead(cells: seq<string>)
    ensures Drafted(cells, map[], Draft("", {}, map[]))
  {
  }

  /** Asks for each identity in turn and ends at the first that has an owner. */
  method Claimant(identities: seq<Identity>, owners: map<Identity, nat>) returns (owner: Option<nat>)
    ensures owner == None <==> forall i :: 0 <= i < |identities| ==> identities[i] !in owners
    ensures owner.Some? ==> exists i :: FirstOwned(identities, owners, i) && owner.value == owners[identities[i]]
  {
    for i := 0 to |identities|
      invariant forall k :: 0 <= k < i ==> identities[k] !in owners
    {
      if identities[i] in owners {
        assert FirstOwned(identities, owners, i);
        return Some(owners[identities[i]]);
      }
    }
    return None;
  }

  predicate FirstOwned(identities: seq<Identity>, owners: map<Identity, nat>, i: int) {
    && 0 <= i < |identities| && identities[i] in owners
    && forall k :: 0 <= k < i ==> identities[k] !in owners
  }

  // The import as an object.

  class ImportStore {
    var state: State
    var mapping: Mapping
    var rows: seq<Row>
    var counts: Counts

    /** Stages an upload: nothing assigned, every row pending. */
    constructor (rows: seq<Row>)
      requires forall i :: 0 <= i < |rows| ==> rows[i].outcome.Pending?
      ensures Value() == Import(Ready, map[], |rows|, rows, Counts(0, 0, 0))
    {
      state, mapping, this.rows, counts := Ready, map[], rows, Counts(0, 0, 0);
    }

    ghost function Value(): Import
      reads this
    {
      Import(state, mapping, |rows|, rows, counts)
    }

    method ClaimForCommit() returns (claimed: Option<Mapping>)
      modifies this`state
      ensures (Value(), claimed) == Claim(old(Value()))
    {
      if state == Committed {
        return None;
      }
      if mapping == map[] {
        state := Ready;
        return None;
      }
      state := Committing;
      return Some(mapping);
    }

    method SetMapping(given: Mapping) returns (updated: bool)
      modifies this`mapping
      ensures (Value(), updated) == UpdateMapping(old(Value()), given)
    {
      updated := state == Ready;
      if updated {
        mapping := given;
      }
    }

    method Settle(row: nat, outcome: Outcome, contact: Option<nat>)
      requires row < |rows|
      modifies this`rows
      ensures Value() == SettleRow(old(Value()), row, outcome, contact)
    {
      rows := rows[row := rows[row].(outcome := outcome, contact := contact)];
    }

    /** From here on the import is committed, with one count for each outcome. */
    method FinishCommit()
      modifies this`state, this`counts
      ensures Value() == Finish(old(Value()))
    {
      var imported, skipped, failed := 0, 0, 0;
      for i := 0 to |rows|
        invariant imported == CountOf(rows[..i], Imported) && skipped == CountOf(rows[..i], Skipped)
        invariant failed == CountOf(rows[..i], Failed) && state == old(state) && counts == old(counts)
      {
        assert rows[..i + 1][..i] == rows[..i];
        match rows[i].outcome
        case Imported => imported := imported + 1;
        case Skipped => skipped := skipped + 1;
        case Failed => failed := failed + 1;
        case Pending =>
      }
      assert rows[..|rows|] == rows;
      state, counts := Committed, Counts(imported, skipped, failed);
    }
  }
}
