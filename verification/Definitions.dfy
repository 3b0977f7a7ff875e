/** The table of field definitions, one statement at a time, and the ordered list each tenant sees of it. */
module Definitions {
  import opened Wrappers
  import opened FieldTypes

  /** A definition's place in the table: one row for each tenant and name, for ever. */
  datatype Slot = Slot(tenant: Tenant, name: string)

  datatype Row = Row(id: nat, caption: string, kind: Kind, subFields: seq<SubField>, live: bool, position: nat)

  type Rows = map<Slot, Row>

  /** The rows, and the last value the position sequence gave. */
  datatype Table = Table(rows: Rows, last: nat)

  function Columns(subFields: seq<SubField>): seq<(string, Kind)> {
    seq(|subFields|, i requires 0 <= i < |subFields| => (subFields[i].name, subFields[i].kind))
  }

  /** The kind, and the sub fields' names and kinds in order. */
  predicate SameShape(kind: Kind, subFields: seq<SubField>, kind': Kind, subFields': seq<SubField>) {
    kind == kind' && Columns(subFields) == Columns(subFields')
  }

  datatype Outcome = Stored(id: nat) | NameTaken | KindLocked

  /** Stores a definition under a new name or revives the archived one of the same shape, at the end of the list either way. */
  function Define(table: Table, t: Tenant, definition: FieldTypes.Definition): (Table, Outcome) {
    var slot := Slot(t, definition.name);
    if slot !in table.rows then
      var row := Row(definition.id, definition.caption, definition.kind, definition.subFields, true, table.last + 1);
      (Table(table.rows[slot := row], table.last + 1), Stored(definition.id))
    else
      var held := table.rows[slot];
      if !held.live && SameShape(held.kind, held.subFields, definition.kind, definition.subFields) then
        var row := held.(
          live := true, caption := definition.caption, subFields := definition.subFields, position := table.last + 2);
        (Table(table.rows[slot := row], table.last + 2), Stored(held.id))
      else
        (table.(last := table.last + 1), if held.live then NameTaken else KindLocked)
  }

  predicate LiveRow(rows: Rows, t: Tenant, slot: Slot) {
    slot in rows && slot.tenant == t && rows[slot].live
  }

  predicate LiveId(rows: Rows, t: Tenant, id: nat) {
    exists slot :: slot in rows && LiveRow(rows, t, slot) && rows[slot].id == id
  }

  /** Archives the live definition of that id, reporting whether there was one. */
  function Archive(table: Table, t: Tenant, id: nat): (Table, bool) {
    (table.(rows := map slot | slot in table.rows ::
       if LiveRow(table.rows, t, slot) && table.rows[slot].id == id
       then table.rows[slot].(live := false) else table.rows[slot]),
     LiveId(table.rows, t, id))
  }

  function IndexOf(ids: seq<nat>, id: nat): (i: nat)
    requires id in ids
    ensures i < |ids| && ids[i] == id
  {
    if ids[0] == id then 0 else 1 + IndexOf(ids[1..], id)
  }

  /** The i-th of the ids gets position i + 1, and definitions not named keep theirs. */
  function Order(table: Table, t: Tenant, ids: seq<nat>): Table {
    table.(rows := map slot | slot in table.rows ::
      if slot.tenant == t && table.rows[slot].id in ids
      then table.rows[slot].(position := IndexOf(ids, table.rows[slot].id) + 1) else table.rows[slot])
  }

  predicate Distinct(ids: seq<nat>) {
    forall i, j :: 0 <= i < j < |ids| ==> ids[i] != ids[j]
  }

  /** True exactly when the given ids are the held ones in some order. */
  method NamesEachOnce(given: seq<nat>, held: seq<nat>) returns (each: bool)
    ensures each <==> Distinct(given) && forall id :: id in given <==> id in held
    ensures Distinct(held) ==> (each <==> multiset(given) == multiset(held))
  {
    var left: map<nat, bool> := map[];
    for i := 0 to |held|
      invariant forall id :: id in left <==> id in held[..i]
    {
      left := left[held[i] := true];
    }
    ghost var all := left.Keys;
    each := true;
    var i := 0;
    while i < |given|
      invariant 0 <= i <= |given|
      invariant Distinct(given[..i]) && (forall id :: id in given[..i] ==> id in held)
      invariant forall id :: id in left <==> id in held && id !in given[..i]
    {
      if given[i] !in left {
        each := false;
        break;
      }
      left := left - {given[i]};
      i := i + 1;
    }
    if each {
      each := |left| == 0;
      assert given[..i] == given;
    } else {
      assert given[i] in given;
      assert given[i] in given[..i] ==> !Distinct(given);
    }
    if each {
      assert left == map[];
      assert forall id :: id in held ==> id !in left;
    }
    if Distinct(held) {
      SameElements(given, held);
    }
  }

  lemma {:induction false} CountOne(ids: seq<nat>)
    requires Distinct(ids)
    ensures forall id :: multiset(ids)[id] == if id in ids then 1 else 0
  {
    if ids != [] {
      var n := |ids| - 1;
      CountOne(ids[..n]);
      assert ids == ids[..n] + [ids[n]];
    }
  }

  lemma {:induction false} CountsOnce(ids: seq<nat>, i: nat, j: nat)
    requires i < j < |ids| && ids[i] == ids[j]
    ensures multiset(ids)[ids[i]] >= 2
  {
    assert ids == ids[..j] + [ids[j]] + ids[j + 1..];
    assert ids[..j][i] == ids[i] && ids[i] in ids[..j];
    assert multiset(ids[..j])[ids[i]] >= 1;
  }

  /** Lists without repeats of the same ids are permutations of each other, and no other lists are. */
  lemma SameElements(given: seq<nat>, held: seq<nat>)
    requires Distinct(held)
    ensures (Distinct(given) && forall id :: id in given <==> id in held) <==> multiset(given) == multiset(held)
  {
    CountOne(held);
    if Distinct(given) {
      CountOne(given);
      if multiset(given) == multiset(held) {
        assert forall id :: id in given <==> id in multiset(given);
      }
    } else if multiset(given) == multiset(held) {
      var i, j :| 0 <= i < j < |given| && given[i] == given[j];
      CountsOnce(given, i, j);
    }
  }

  // The list a tenant sees.

  /** Lists sort by position, then by id. */
  predicate Before(a: Row, b: Row) {
    a.position < b.position || (a.position == b.position && a.id < b.id)
  }

  predicate InOrder(rows: Rows, list: seq<Slot>) {
    && (forall i :: 0 <= i < |list| ==> list[i] in rows)
    && (forall i, j :: 0 <= i < j < |list| ==> Before(rows[list[i]], rows[list[j]]))
  }

  /** The tenant's live definitions, each once, in order. */
  predicate Lists(rows: Rows, t: Tenant, list: seq<Slot>) {
    && (forall i :: 0 <= i < |list| ==> LiveRow(rows, t, list[i]))
    && (forall slot :: slot in rows && LiveRow(rows, t, slot) ==> slot in list)
    && InOrder(rows, list)
  }

  /** A table has one list for each tenant. */
  lemma {:induction false} ListIsUnique(rows: Rows, t: Tenant, list: seq<Slot>, list': seq<Slot>)
    requires Lists(rows, t, list) && Lists(rows, t, list')
    ensures list == list'
  {
    hide Lists;
    if list != [] { SomeLive(rows, t, list, list'); }
    if list' != [] {
      SomeLive(rows, t, list', list);
      SameLast(rows, t, list, list');
      AllButLast(rows, t, list);
      AllButLast(rows, t, list');
      var n := |list| - 1;
      ListIsUnique(rows[list[n] := rows[list[n]].(live := false)], t, list[..n], list'[..|list'| - 1]);
    }
  }

  lemma SameLast(rows: Rows, t: Tenant, list: seq<Slot>, list': seq<Slot>)
    requires Lists(rows, t, list) && Lists(rows, t, list') && list != [] && list' != []
    ensures list[|list| - 1] == list'[|list'| - 1]
  {
    SomeLive(rows, t, list, list');
    SomeLive(rows, t, list', list);
    var i :| 0 <= i < |list'| && list'[i] == list[|list| - 1];
    var j :| 0 <= j < |list| && list[j] == list'[|list'| - 1];
  }

  lemma SomeLive(rows: Rows, t: Tenant, list: seq<Slot>, list': seq<Slot>)
    requires Lists(rows, t, list) && Lists(rows, t, list') && list != []
    ensures list' != [] && list[0] in list' && list[|list| - 1] in list'
  {
    assert list[0] in list' && LiveRow(rows, t, list[|list| - 1]);
  }

  lemma AllButLast(rows: Rows, t: Tenant, list: seq<Slot>)
    requires list != [] && Lists(rows, t, list)
    ensures var last := list[|list| - 1];
      last in rows && Lists(rows[last := rows[last].(live := false)], t, list[..|list| - 1])
  {
    var n := |list| - 1;
    var rows' := rows[list[n] := rows[list[n]].(live := false)];
    forall slot | slot in rows' && LiveRow(rows', t, slot) ensures slot in list[..n] {
      var i :| 0 <= i < |list| && list[i] == slot;
    }
  }

  /** Ids name one row each, and no position has run past the sequence. */
  predicate Sound(table: Table) {
    && |table.rows| <= table.last
    && (forall slot :: slot in table.rows ==> 0 < table.rows[slot].position <= table.last)
    && (forall slot, slot' :: slot in table.rows && slot' in table.rows && slot != slot' ==>
          table.rows[slot].id != table.rows[slot'].id)
  }

  ghost predicate Unused(rows: Rows, id: nat) {
    forall slot :: slot in rows ==> rows[slot].id != id
  }

  lemma DefineKeepsSound(table: Table, t: Tenant, definition: FieldTypes.Definition)
    requires Sound(table) && Unused(table.rows, definition.id)
    ensures Sound(Define(table, t, definition).0)
  {
    var table' := Define(table, t, definition).0;
    var slot := Slot(t, definition.name);
    if slot !in table.rows {
      assert table'.rows.Keys == table.rows.Keys + {slot};
    } else {
      assert table'.rows.Keys == table.rows.Keys;
    }
  }

  /** Defining appends to the tenant's list, new or revived; refused, it leaves every row as it was. */
  lemma DefineAppends(table: Table, t: Tenant, definition: FieldTypes.Definition, list: seq<Slot>)
    requires Sound(table) && Lists(table.rows, t, list)
    ensures var (table', outcome) := Define(table, t, definition);
      if outcome.Stored? then Lists(table'.rows, t, list + [Slot(t, definition.name)]) else table'.rows == table.rows
  {
    var (table', outcome) := Define(table, t, definition);
    var slot := Slot(t, definition.name);
    if outcome.Stored? {
      var list' := list + [slot];
      assert slot !in list;
      assert forall i :: 0 <= i < |list| ==> list[i] in list && table'.rows[list[i]] == table.rows[list[i]];
    }
  }

  /** Shapes are the same exactly when kinds are, and sub fields are as many, each of the same name and kind. */
  lemma SameShapeExactly(kind: Kind, subFields: seq<SubField>, kind': Kind, subFields': seq<SubField>)
    ensures SameShape(kind, subFields, kind', subFields') <==>
      && kind == kind' && |subFields| == |subFields'|
      && forall i :: 0 <= i < |subFields| ==> subFields[i].name == subFields'[i].name && subFields[i].kind == subFields'[i].kind
  {
    var columns, columns' := Columns(subFields), Columns(subFields');
    if |columns| == |columns'| {
      assert forall i :: 0 <= i < |subFields| ==>
        (columns[i] == columns'[i] <==> subFields[i].name == subFields'[i].name && subFields[i].kind == subFields'[i].kind);
    }
  }

  /**
   A definition is stored exactly when its name is new or archived under the same shape,
   all of it as given but a revived row's own id, and no other row changes.
   */
  lemma DefineStores(table: Table, t: Tenant, definition: FieldTypes.Definition)
    ensures var (table', outcome), slot := Define(table, t, definition), Slot(t, definition.name);
      && (outcome.Stored? <==>
            (slot in table.rows ==>
               && !table.rows[slot].live
               && SameShape(table.rows[slot].kind, table.rows[slot].subFields, definition.kind, definition.subFields)))
      && (outcome.Stored? ==> slot in table'.rows && table'.rows[slot].live && table'.rows[slot].id == outcome.id
                              && table'.rows[slot].caption == definition.caption
                              && table'.rows[slot].kind == definition.kind
                              && table'.rows[slot].subFields == definition.subFields)
      && (outcome.Stored? ==> outcome.id == if slot in table.rows then table.rows[slot].id else definition.id)
      && (outcome == NameTaken <==> slot in table.rows && table.rows[slot].live)
      && (forall other :: other != slot ==>
            (other in table'.rows <==> other in table.rows) && (other in table.rows ==> table'.rows[other] == table.rows[other]))
  {
  }

  /** Statements on one tenant's definitions leave every other tenant's list alone. */
  lemma OthersKeep(table: Table, table': Table, t: Tenant, t': Tenant, list: seq<Slot>)
    requires t != t' && Lists(table.rows, t', list)
    requires forall slot: Slot :: slot.tenant == t' ==>
      (slot in table.rows <==> slot in table'.rows) && (slot in table.rows ==> table.rows[slot] == table'.rows[slot])
    ensures Lists(table'.rows, t', list)
  {
    assert forall i :: 0 <= i < |list| ==> list[i] in list;
  }

  lemma ArchiveKeepsSound(table: Table, t: Tenant, id: nat)
    requires Sound(table)
    ensures Sound(Archive(table, t, id).0)
  {
    assert Archive(table, t, id).0.rows.Keys == table.rows.Keys;
  }

  /** Archiving takes one definition off the list and keeps the rest in order. */
  lemma ArchiveRemoves(table: Table, t: Tenant, id: nat, list: seq<Slot>, at: nat)
    requires Sound(table) && Lists(table.rows, t, list) && at < |list|
    requires list[at] in table.rows && table.rows[list[at]].id == id
    ensures var (table', found) := Archive(table, t, id);
      found && Lists(table'.rows, t, list[..at] + list[at + 1..])
  {
    var rows' := Archive(table, t, id).0.rows;
    var list' := list[..at] + list[at + 1..];
    forall slot | slot in table.rows ensures LiveRow(rows', t, slot) <==> LiveRow(table.rows, t, slot) && slot != list[at] {
    }
    TakenOff(table.rows, rows', t, list, at);
  }

  /** A list with one definition taken off the table lists the rest in their order. */
  lemma TakenOff(rows: Rows, rows': Rows, t: Tenant, list: seq<Slot>, at: nat)
    requires Lists(rows, t, list) && at < |list| && rows.Keys == rows'.Keys
    requires forall slot :: slot in rows ==>
      && (LiveRow(rows', t, slot) <==> LiveRow(rows, t, slot) && slot != list[at])
      && rows'[slot].position == rows[slot].position && rows'[slot].id == rows[slot].id
    ensures Lists(rows', t, list[..at] + list[at + 1..])
  {
    var list' := list[..at] + list[at + 1..];
    assert forall i :: 0 <= i < |list'| ==> list'[i] == list[if i < at then i else i + 1];
    TakenOffInOrder(rows, rows', list, at);
    forall slot | slot in rows' && LiveRow(rows', t, slot) ensures slot in list' {
      var i :| 0 <= i < |list| && list[i] == slot;
      assert list'[if i < at then i else i - 1] == slot;
    }
  }

  lemma TakenOffInOrder(rows: Rows, rows': Rows, list: seq<Slot>, at: nat)
    requires InOrder(rows, list) && at < |list| && rows.Keys == rows'.Keys
    requires forall slot :: slot in rows ==> rows'[slot].position == rows[slot].position && rows'[slot].id == rows[slot].id
    ensures InOrder(rows', list[..at] + list[at + 1..])
    ensures forall i :: 0 <= i < |list| && i != at ==> list[i] != list[at]
  {
    var list' := list[..at] + list[at + 1..];
    assert forall i :: 0 <= i < |list'| ==> list'[i] == list[if i < at then i else i + 1];
  }

  lemma ArchiveMissing(table: Table, t: Tenant, id: nat)
    requires !LiveId(table.rows, t, id)
    ensures !Archive(table, t, id).1 && Archive(table, t, id).0 == table
  {
    assert Archive(table, t, id).0.rows == table.rows;
  }

  // Ordering.

  lemma {:induction false} IndexOfAt(ids: seq<nat>, i: nat)
    requires Distinct(ids) && i < |ids|
    ensures ids[i] in ids && IndexOf(ids, ids[i]) == i
  {
    if i > 0 {
      assert ids[1..][i - 1] == ids[i] && ids[0] != ids[i];
      IndexOfAt(ids[1..], i - 1);
    }
  }

  /** What holds of the ids an order was given from the moment it locked them: all live, every other live one behind them. */
  ghost predicate Locked(table: Table, t: Tenant, ids: seq<nat>) {
    && Distinct(ids) && (forall i :: 0 <= i < |ids| ==> LiveId(table.rows, t, ids[i]))
    && forall slot :: slot in table.rows && LiveRow(table.rows, t, slot) && table.rows[slot].id !in ids ==>
         table.rows[slot].position > |ids|
  }

  ghost function SlotOf(rows: Rows, t: Tenant, id: nat): (slot: Slot)
    requires LiveId(rows, t, id)
    ensures LiveRow(rows, t, slot) && rows[slot].id == id
  {
    var slot :| slot in rows && LiveRow(rows, t, slot) && rows[slot].id == id;
    slot
  }

  ghost function SlotsOf(rows: Rows, t: Tenant, ids: seq<nat>): (slots: seq<Slot>)
    requires forall i :: 0 <= i < |ids| ==> LiveId(rows, t, ids[i])
    ensures |slots| == |ids|
  {
    seq(|ids|, i requires 0 <= i < |ids| => SlotOf(rows, t, ids[i]))
  }

  /** The definitions of the list the ids do not name. */
  function Rest(rows: Rows, list: seq<Slot>, ids: seq<nat>): (rest: seq<Slot>)
    requires forall i :: 0 <= i < |list| ==> list[i] in rows
    ensures forall slot :: slot in rest <==> slot in list && rows[slot].id !in ids
  {
    if list == [] then []
    else
      var n := |list| - 1;
      var front := Rest(rows, list[..n], ids);
      assert list == list[..n] + [list[n]];
      if rows[list[n]].id in ids then front else front + [list[n]]
  }

  lemma {:induction false} RestInOrder(rows: Rows, list: seq<Slot>, ids: seq<nat>)
    requires InOrder(rows, list)
    ensures InOrder(rows, Rest(rows, list, ids))
  {
    if list != [] {
      var n := |list| - 1;
      RestInOrder(rows, list[..n], ids);
      var front := Rest(rows, list[..n], ids);
      forall i | 0 <= i < |front| ensures Before(rows[front[i]], rows[list[n]]) {
        assert front[i] in front && front[i] in list[..n];
      }
    }
  }

  lemma {:induction false} CountSlots(rows: Rows, t: Tenant, ids: seq<nat>)
    requires Distinct(ids) && forall i :: 0 <= i < |ids| ==> LiveId(rows, t, ids[i])
    ensures |ids| <= |rows|
  {
    var slots := SlotsOf(rows, t, ids);
    Injected(slots, rows.Keys);
  }

  lemma {:induction false} Injected(slots: seq<Slot>, keys: set<Slot>)
    requires forall i :: 0 <= i < |slots| ==> slots[i] in keys
    requires forall i, j :: 0 <= i < j < |slots| ==> slots[i] != slots[j]
    ensures |slots| <= |keys|
  {
    if slots != [] {
      var n := |slots| - 1;
      Injected(slots[..n], keys - {slots[n]});
    }
  }

  lemma OrderKeepsSound(table: Table, t: Tenant, ids: seq<nat>)
    requires Sound(table) && Locked(table, t, ids)
    ensures Sound(Order(table, t, ids))
  {
    CountSlots(table.rows, t, ids);
    assert Order(table, t, ids).rows.Keys == table.rows.Keys;
  }

  /** The named definitions take the places they are named at. */
  lemma NamedPlaced(table: Table, t: Tenant, ids: seq<nat>)
    requires Sound(table) && Locked(table, t, ids)
    ensures var rows', named := Order(table, t, ids).rows, SlotsOf(table.rows, t, ids);
      forall i :: 0 <= i < |ids| ==> LiveRow(rows', t, named[i]) && rows'[named[i]].position == i + 1
  {
    hide Before;
    forall i | 0 <= i < |ids|
      ensures LiveRow(Order(table, t, ids).rows, t, SlotsOf(table.rows, t, ids)[i])
              && Order(table, t, ids).rows[SlotsOf(table.rows, t, ids)[i]].position == i + 1
    {
      IndexOfAt(ids, i);
    }
  }

  /** The definitions not named stay as they were, behind the named ones. */
  lemma RestPlaced(table: Table, t: Tenant, ids: seq<nat>, list: seq<Slot>)
    requires Sound(table) && Locked(table, t, ids) && Lists(table.rows, t, list)
    ensures var rows', rest := Order(table, t, ids).rows, Rest(table.rows, list, ids);
      && (forall i :: 0 <= i < |rest| ==> LiveRow(rows', t, rest[i]) && rows'[rest[i]].position > |ids|)
      && InOrder(rows', rest)
  {
    hide Before;
    var rows, rows', rest := table.rows, Order(table, t, ids).rows, Rest(table.rows, list, ids);
    RestInOrder(rows, list, ids);
    forall i | 0 <= i < |rest| ensures LiveRow(rows, t, rest[i]) && rows'[rest[i]] == rows[rest[i]] && rows[rest[i]].id !in ids {
      assert rest[i] in rest;
    }
  }

  /** Every live definition is named or among the rest. */
  lemma NoneMissing(table: Table, t: Tenant, ids: seq<nat>, list: seq<Slot>)
    requires Sound(table) && Locked(table, t, ids) && Lists(table.rows, t, list)
    ensures var rows' := Order(table, t, ids).rows;
      forall slot :: slot in rows' && LiveRow(rows', t, slot) ==>
        slot in SlotsOf(table.rows, t, ids) + Rest(table.rows, list, ids)
  {
    hide Before, InOrder;
    var rows, rows' := table.rows, Order(table, t, ids).rows;
    var named, rest := SlotsOf(rows, t, ids), Rest(rows, list, ids);
    forall slot | slot in rows' && LiveRow(rows', t, slot) ensures slot in named + rest {
      if rows[slot].id in ids {
        var i :| 0 <= i < |ids| && ids[i] == rows[slot].id;
        assert named[i] == slot;
      } else {
        assert slot in list;
      }
    }
  }

  /** Ordering puts exactly the named definitions in the given order, before any defined since they were locked. */
  lemma OrderInstalls(table: Table, t: Tenant, ids: seq<nat>, list: seq<Slot>)
    requires Sound(table) && Locked(table, t, ids) && Lists(table.rows, t, list)
    ensures Lists(Order(table, t, ids).rows, t, SlotsOf(table.rows, t, ids) + Rest(table.rows, list, ids))
  {
    hide InOrder, Order, Rest, Sound, SlotsOf;
    NamedPlaced(table, t, ids);
    RestPlaced(table, t, ids, list);
    NoneMissing(table, t, ids, list);
    Joined(Order(table, t, ids).rows, t, SlotsOf(table.rows, t, ids), Rest(table.rows, list, ids), |ids|);
  }

  lemma Joined(rows: Rows, t: Tenant, named: seq<Slot>, rest: seq<Slot>, n: nat)
    requires |named| == n
    requires forall i :: 0 <= i < n ==> LiveRow(rows, t, named[i]) && rows[named[i]].position == i + 1
    requires forall i :: 0 <= i < |rest| ==> LiveRow(rows, t, rest[i]) && rows[rest[i]].position > n
    requires InOrder(rows, rest)
    ensures forall i :: 0 <= i < |named + rest| ==> LiveRow(rows, t, (named + rest)[i])
    ensures InOrder(rows, named + rest)
  {
  }

  /** Given each live id exactly once, ordering installs exactly that order. */
  lemma OrderIsPermutation(table: Table, t: Tenant, ids: seq<nat>, list: seq<Slot>)
    requires Sound(table) && Distinct(ids) && Lists(table.rows, t, list)
    requires forall id :: id in ids <==> LiveId(table.rows, t, id)
    ensures Locked(table, t, ids) && Lists(Order(table, t, ids).rows, t, SlotsOf(table.rows, t, ids))
  {
    OrderInstalls(table, t, ids, list);
    var rest := Rest(table.rows, list, ids);
    if rest != [] {
      assert rest[0] in rest && LiveRow(table.rows, t, rest[0]);
      assert LiveId(table.rows, t, table.rows[rest[0]].id);
    }
    assert SlotsOf(table.rows, t, ids) + [] == SlotsOf(table.rows, t, ids);
  }
}
