/** The field store as an object: its tables change in place, one statement at a time. */
module FieldStore {
  import opened Wrappers
  import opened FieldTypes
  import D = Definitions
  import opened Values
  import opened Entries
  import R = FieldRuns

  datatype EntryError = EntriesFull | NoEntry

  class FieldStore {
    var rows: D.Rows
    var last: nat
    var values: map<R.Contact, map<string, R.Held>>

    constructor ()
      ensures Table() == D.Table(map[], 0) && values == map[]
    {
      rows, last, values := map[], 0, map[];
    }

    function Table(): D.Table
      reads this
    {
      D.Table(rows, last)
    }

    function Held(contact: R.Contact): map<string, R.Held>
      reads this
    {
      if contact in values then values[contact] else map[]
    }

    /** A new row, an archived one live again, or a refusal; a name the table never had starts without values. */
    method Define(t: Tenant, definition: FieldTypes.Definition) returns (outcome: D.Outcome)
      modifies this
      ensures (Table(), outcome) == D.Define(old(Table()), t, definition)
      ensures values == if D.Slot(t, definition.name) in old(rows) then old(values)
                        else R.Swept(old(values), t, definition.name)
    {
      var slot := D.Slot(t, definition.name);
      last := last + 1;
      if slot !in rows {
        rows := rows[slot := D.Row(definition.id, definition.caption, definition.kind, definition.subFields, true, last)];
        values := map contact | contact in values ::
          if contact.0 == t then values[contact] - {definition.name} else values[contact];
        return D.Stored(definition.id);
      }
      var held := rows[slot];
      if held.live {
        return D.NameTaken;
      }
      if held.kind != definition.kind || D.Columns(held.subFields) != D.Columns(definition.subFields) {
        return D.KindLocked;
      }
      last := last + 1;
      rows := rows[slot := held.(
        live := true, caption := definition.caption, subFields := definition.subFields, position := last)];
      return D.Stored(held.id);
    }

    method Archive(t: Tenant, id: nat) returns (found: bool)
      modifies this`rows
      ensures (Table(), found) == D.Archive(old(Table()), t, id)
    {
      found := exists slot :: slot in rows && D.LiveRow(rows, t, slot) && rows[slot].id == id;
      rows := map slot | slot in rows ::
        if D.LiveRow(rows, t, slot) && rows[slot].id == id then rows[slot].(live := false) else rows[slot];
    }

    /** The ids of the tenant's live definitions. */
    method LiveIds(t: Tenant) returns (ids: seq<nat>)
      ensures forall id :: id in ids <==> D.LiveId(rows, t, id)
    {
      ids := [];
      var left := rows.Keys;
      while left != {}
        invariant left <= rows.Keys
        invariant forall id :: id in ids <==> exists slot :: slot in rows && slot !in left && D.LiveRow(rows, t, slot) && rows[slot].id == id
        decreases |left|
      {
        var slot :| slot in left;
        left := left - {slot};
        if rows[slot].live && slot.tenant == t {
          ids := ids + [rows[slot].id];
        }
      }
    }

    /** Reorders the tenant's list when the ids are a permutation of it, and changes nothing otherwise. */
    method Order(t: Tenant, ids: seq<nat>) returns (ordered: bool)
      modifies this`rows
      ensures ordered <==> D.Distinct(ids) && forall id :: id in ids <==> D.LiveId(old(rows), t, id)
      ensures Table() == if ordered then D.Order(old(Table()), t, ids) else old(Table())
    {
      var held := LiveIds(t);
      ordered := D.NamesEachOnce(ids, held);
      if ordered {
        rows := D.Order(Table(), t, ids).rows;
      }
    }

    /**
     Lays the given values over a contact's and then takes out the nulls: a name given a
     value reads that value, one given null is gone, every other reads as before.
     */
    method WriteValues(contact: R.Contact, checked: map<string, Option<Cell>>)
      modifies this`values
      ensures contact in values && values.Keys == old(values).Keys + {contact}
      ensures forall other :: other in values && other != contact ==> values[other] == old(values)[other]
      ensures forall name :: name in checked && checked[name].Some? ==>
        name in values[contact] && values[contact][name] == R.One(checked[name].value)
      ensures forall name :: name in checked && checked[name].None? ==> name !in values[contact]
      ensures forall name :: name !in checked ==>
        (name in values[contact] <==> name in old(Held(contact)))
        && (name in values[contact] ==> values[contact][name] == old(Held(contact))[name])
      ensures values[contact] == R.Merged(old(Held(contact)), checked)
    {
      var held := Held(contact);
      var kept := R.WithoutNulls(R.LaidOver(held, checked));
      R.LaidOverMerges(held, checked);
      R.WritesCompose(held, checked, map[]);
      hide R.Merged, R.WithoutNulls, R.LaidOver;
      values := values[contact := kept];
    }

    /** Puts entries on top of a contact's list, the last given first, unless there is no room. */
    method AddEntry(contact: R.Contact, name: string, entries: seq<map<string, Cell>>, ids: seq<nat>, limit: nat)
      returns (refused: Option<EntryError>, stored: array<Entry>)
      requires |ids| == |entries|
      modifies this`values
      ensures fresh(stored) && stored[..] == NewestFirst(entries, ids)
      ensures var added := Added(R.EntriesUnder(old(Held(contact)), name), stored[..], limit);
        && (refused == None <==> added.Some?)
        && values == if added.Some? then old(values)[contact := old(Held(contact))[name := R.Listed(added.value)]]
                     else old(values)
    {
      stored := StoreNewestFirst(entries, ids);
      var held := Held(contact);
      var list := R.EntriesUnder(held, name);
      if stored.Length > limit || |list| + stored.Length > limit {
        return Some(EntriesFull), stored;
      }
      values := values[contact := held[name := R.Listed(stored[..] + list)]];
      return None, stored;
    }

    /** Other cells under one entry id, or a refusal when the contact has no such entry. */
    method UpdateEntry(contact: R.Contact, name: string, id: nat, cells: map<string, Cell>)
      returns (refused: Option<EntryError>)
      modifies this`values
      ensures var updated := Updated(R.EntriesUnder(old(Held(contact)), name), id, cells);
        && (refused == None <==> updated.Some?)
        && values == if updated.Some? then old(values)[contact := old(Held(contact))[name := R.Listed(updated.value)]]
                     else old(values)
    {
      var held := Held(contact);
      var list := R.EntriesUnder(held, name);
      var found := false;
      var updated: seq<Entry> := [];
      for at := 0 to |list|
        invariant |updated| == at && (found <==> exists i :: 0 <= i < at && list[i].id == id)
        invariant forall i :: 0 <= i < at ==> updated[i] == if list[i].id == id then Entry(id, cells) else list[i]
      {
        if list[at].id == id {
          found := true;
          updated := updated + [Entry(id, cells)];
        } else {
          updated := updated + [list[at]];
        }
      }
      if !found {
        return Some(NoEntry);
      }
      assert updated == Updated(list, id, cells).value;
      values := values[contact := held[name := R.Listed(updated)]];
      return None;
    }

    /** One entry fewer, and no empty list left behind. */
    method DeleteEntry(contact: R.Contact, name: string, id: nat) returns (refused: Option<EntryError>)
      modifies this`values
      ensures var deleted := Deleted(R.EntriesUnder(old(Held(contact)), name), id);
        && (refused == None <==> deleted.Some?)
        && values ==
           if deleted.None? then old(values)
           else if deleted.value == [] then old(values)[contact := old(Held(contact)) - {name}]
           else old(values)[contact := old(Held(contact))[name := R.Listed(deleted.value)]]
    {
      var held := Held(contact);
      var list := R.EntriesUnder(held, name);
      if !Holds(list, id) {
        return Some(NoEntry);
      }
      var kept := Without(list, id);
      values := values[contact := if kept == [] then held - {name} else held[name := R.Listed(kept)]];
      return None;
    }
  }
}
