/** What every step of the field store keeps, and what follows for whole runs. */
module FieldSafety {
  import opened Wrappers
  import opened FieldTypes
  import opened Definitions
  import opened Values
  import opened Entries
  import opened FieldRuns

  // Shapes.

  lemma SameShapesOn(before: Rows, now: Rows, after: Rows)
    requires SameShapes(before, now) && SameShapes(now, after)
    ensures SameShapes(before, after)
  {
  }

  lemma VersionsKept(s: Sys, s': Sys)
    requires VersionsSound(s) && SameShapes(s.table.rows, s'.table.rows) && RowsGood(s'.table.rows)
    requires s'.versions == s.versions + [s'.table.rows]
    ensures VersionsSound(s')
  {
    hide RowsGood;
    forall v | 0 <= v < |s'.versions| ensures SameShapes(s'.versions[v], s'.table.rows) && RowsGood(s'.versions[v]) {
      if v < |s.versions| {
        SameShapesOn(s.versions[v], s.table.rows, s'.table.rows);
      }
    }
  }

  /** Columns of the same names and kinds map each name to the same kind. */
  lemma {:induction false} SameColumnKinds(subFields: seq<SubField>, subFields': seq<SubField>)
    requires Columns(subFields) == Columns(subFields')
    ensures ColumnKinds(subFields) == ColumnKinds(subFields')
  {
    assert |Columns(subFields)| == |Columns(subFields')|;
    if subFields != [] {
      var n := |subFields| - 1;
      assert Columns(subFields)[n] == Columns(subFields')[n];
      assert Columns(subFields[..n]) == Columns(subFields)[..n] && Columns(subFields'[..n]) == Columns(subFields')[..n];
      SameColumnKinds(subFields[..n], subFields'[..n]);
    }
  }

  /** Values fit rows of the same shapes, where names new to the table are held by nobody. */
  lemma ContactStillFits(rows: Rows, rows': Rows, t: Tenant, held: map<string, Held>, limit: nat)
    requires ContactFits(rows, t, held, limit) && SameShapes(rows, rows')
    requires forall slot :: slot in rows' && slot !in rows && slot.tenant == t ==> slot.name !in held
    ensures ContactFits(rows', t, held, limit)
  {
    hide FitsShape;
    forall name | name in held && Slot(t, name) in rows' ensures FitsRow(rows'[Slot(t, name)], held[name], limit) {
      var slot := Slot(t, name);
      assert slot in rows && FitsRow(rows[slot], held[name], limit);
      SameColumnKinds(rows[slot].subFields, rows'[slot].subFields);
    }
  }

  // Defining.

  lemma DefineShapes(s: Sys, t: Tenant, definition: FieldTypes.Definition)
    requires RowsGood(s.table.rows) && GoodSubFields(definition.kind, definition.subFields)
    ensures var s' := AfterDefine(s, t, definition); SameShapes(s.table.rows, s'.table.rows) && RowsGood(s'.table.rows)
  {
    hide GoodSubFields, ListsTrue;
  }

  lemma DefineLists(s: Sys, t: Tenant, definition: FieldTypes.Definition)
    requires Sound(s.table) && ListsTrue(s)
    ensures ListsTrue(AfterDefine(s, t, definition))
  {
    var s' := AfterDefine(s, t, definition);
    forall t': Tenant ensures Lists(s'.table.rows, t', s'.ListOf(t')) {
      assert Lists(s.table.rows, t', s.ListOf(t'));
      if t' == t {
        DefineAppends(s.table, t, definition, s.ListOf(t));
      } else {
        OthersKeep(s.table, s'.table, t, t', s.ListOf(t'));
      }
    }
  }

  /** Rows defined or revived meanwhile stand behind every locked one. */
  lemma DefineLocked(table: Table, t: Tenant, definition: FieldTypes.Definition, t': Tenant, ids: seq<nat>)
    requires Sound(table) && Locked(table, t', ids)
    ensures Locked(Definitions.Define(table, t, definition).0, t', ids)
  {
    var table' := Definitions.Define(table, t, definition).0;
    CountSlots(table.rows, t', ids);
    forall i | 0 <= i < |ids| ensures LiveId(table'.rows, t', ids[i]) {
      var slot := SlotOf(table.rows, t', ids[i]);
      assert slot in table'.rows && LiveRow(table'.rows, t', slot) && table'.rows[slot].id == ids[i];
    }
  }

  lemma DefineValues(s: Sys, t: Tenant, definition: FieldTypes.Definition)
    requires ValuesFit(s) && AllIssued(s) && RowsGood(s.table.rows)
    requires GoodSubFields(definition.kind, definition.subFields)
    ensures ValuesFit(AfterDefine(s, t, definition)) && AllIssued(AfterDefine(s, t, definition))
  {
    var s' := AfterDefine(s, t, definition);
    DefineShapes(s, t, definition);
    forall contact | contact in s'.values
      ensures ContactFits(s'.table.rows, contact.0, s'.values[contact], s'.limit) && IdsIssued(s'.values[contact], s'.issued)
    {
      assert ContactFits(s.table.rows, contact.0, s.values[contact], s.limit) && IdsIssued(s.values[contact], s.issued);
      hide FitsRow, SameShapes, GoodSubFields;
      ContactStillFits(s.table.rows, s'.table.rows, contact.0, s'.values[contact], s.limit);
    }
  }

  lemma DefineHolds(s: Sys, t: Tenant, definition: FieldTypes.Definition)
    requires Inv(s) && Enabled(s, Define(t, definition))
    ensures Inv(AfterDefine(s, t, definition))
  {
    hide Sound, ListsTrue, ValuesFit, AllIssued, VersionsSound, Locked, GoodSubFields, RowsGood, Unused;
    var s' := AfterDefine(s, t, definition);
    DefineKeepsSound(s.table, t, definition);
    DefineShapes(s, t, definition);
    VersionsKept(s, s');
    DefineLists(s, t, definition);
    DefineValues(s, t, definition);
    forall o | o in s'.orders ensures Locked(s'.table, s'.orders[o].tenant, s'.orders[o].ids) {
      DefineLocked(s.table, t, definition, s.orders[o].tenant, s.orders[o].ids);
    }
  }

  // Archiving.

  lemma ArchiveRows(table: Table, t: Tenant, id: nat)
    ensures var rows' := Definitions.Archive(table, t, id).0.rows;
      && rows'.Keys == table.rows.Keys
      && forall slot :: slot in table.rows ==>
           rows'[slot] == table.rows[slot].(live := table.rows[slot].live && !(slot.tenant == t && table.rows[slot].id == id))
  {
  }

  lemma ArchiveLists(s: Sys, t: Tenant, id: nat)
    requires Sound(s.table) && ListsTrue(s)
    ensures ListsTrue(AfterArchive(s, t, id))
  {
    var s' := AfterArchive(s, t, id);
    ArchiveRows(s.table, t, id);
    forall t': Tenant ensures Lists(s'.table.rows, t', s'.ListOf(t')) {
      assert Lists(s.table.rows, t', s.ListOf(t'));
      if t' == t {
        ArchiveRest(s.table, t, id, s.ListOf(t));
      } else {
        OthersKeep(s.table, s'.table, t, t', s.ListOf(t'));
      }
    }
  }

  lemma ArchiveRest(table: Table, t: Tenant, id: nat, list: seq<Slot>)
    requires Lists(table.rows, t, list)
    ensures Lists(Definitions.Archive(table, t, id).0.rows, t, Rest(table.rows, list, [id]))
  {
    var rows' := Definitions.Archive(table, t, id).0.rows;
    var rest := Rest(table.rows, list, [id]);
    ArchiveRows(table, t, id);
    RestInOrder(table.rows, list, [id]);
    forall i | 0 <= i < |rest| ensures LiveRow(rows', t, rest[i]) {
      assert rest[i] in rest;
    }
  }

  lemma ArchiveLocked(table: Table, t: Tenant, id: nat, t': Tenant, ids: seq<nat>)
    requires Locked(table, t', ids) && (t' == t ==> id !in ids)
    ensures Locked(Definitions.Archive(table, t, id).0, t', ids)
  {
    var rows' := Definitions.Archive(table, t, id).0.rows;
    ArchiveRows(table, t, id);
    forall i | 0 <= i < |ids| ensures LiveId(rows', t', ids[i]) {
      var slot := SlotOf(table.rows, t', ids[i]);
      assert slot in rows' && LiveRow(rows', t', slot) && rows'[slot].id == ids[i];
    }
  }

  lemma SameRowsValues(s: Sys, s': Sys)
    requires ValuesFit(s) && SameShapes(s.table.rows, s'.table.rows) && s'.table.rows.Keys == s.table.rows.Keys
    requires s'.values == s.values && s'.limit == s.limit
    ensures ValuesFit(s')
  {
    hide FitsRow, SameShapes;
    forall contact | contact in s'.values ensures ContactFits(s'.table.rows, contact.0, s'.values[contact], s'.limit) {
      assert ContactFits(s.table.rows, contact.0, s.values[contact], s.limit);
      ContactStillFits(s.table.rows, s'.table.rows, contact.0, s.values[contact], s.limit);
    }
  }

  lemma ArchiveHolds(s: Sys, t: Tenant, id: nat)
    requires Inv(s) && Enabled(s, Archive(t, id))
    ensures ListsTrue(s) && Lists(s.table.rows, t, s.ListOf(t)) && Inv(AfterArchive(s, t, id))
  {
    assert Lists(s.table.rows, t, s.ListOf(t));
    hide Sound, ListsTrue, ValuesFit, AllIssued, VersionsSound, Locked, GoodSubFields, Lists, Definitions.Archive;
    var s' := AfterArchive(s, t, id);
    ArchiveKeepsSound(s.table, t, id);
    ArchiveRows(s.table, t, id);
    VersionsKept(s, s');
    ArchiveLists(s, t, id);
    SameRowsValues(s, s');
    SameIssued(s, s');
    forall o | o in s'.orders ensures Locked(s'.table, s'.orders[o].tenant, s'.orders[o].ids) {
      ArchiveLocked(s.table, t, id, s.orders[o].tenant, s.orders[o].ids);
    }
  }

  lemma SameIssued(s: Sys, s': Sys)
    requires AllIssued(s) && s'.values == s.values && s'.issued == s.issued
    ensures AllIssued(s')
  {
  }

  // Ordering.

  lemma LockOrderHolds(s: Sys, o: nat, t: Tenant, ids: seq<nat>)
    requires Inv(s) && Enabled(s, LockOrder(o, t, ids))
    ensures Inv(s.(orders := s.orders[o := Pending(t, ids)]))
  {
    hide Sound, ValuesFit, AllIssued, VersionsSound, RowsGood, Lists;
    var s' := s.(orders := s.orders[o := Pending(t, ids)]);
    assert Locked(s.table, t, ids);
    assert VersionsSound(s') by { SameVersions(s, s'); }
    SameLists(s, s');
    SameValues(s, s');
  }

  lemma SameLists(s: Sys, s': Sys)
    requires ListsTrue(s) && s'.lists == s.lists && s'.table == s.table
    ensures ListsTrue(s')
  {
    forall t ensures Lists(s'.table.rows, t, s'.ListOf(t)) {
      assert Lists(s.table.rows, t, s.ListOf(t));
    }
  }

  lemma SameVersions(s: Sys, s': Sys)
    requires VersionsSound(s) && s'.versions == s.versions && s'.table == s.table
    ensures VersionsSound(s')
  {
  }

  lemma SameValues(s: Sys, s': Sys)
    requires ValuesFit(s) && AllIssued(s) && s' == s.(orders := s'.orders)
    ensures ValuesFit(s') && AllIssued(s')
  {
    hide ContactFits, IdsIssued;
  }

  lemma OrderRows(table: Table, t: Tenant, ids: seq<nat>)
    ensures var rows' := Order(table, t, ids).rows;
      && rows'.Keys == table.rows.Keys
      && forall slot :: slot in table.rows ==>
           && rows'[slot] == table.rows[slot].(position := rows'[slot].position)
           && (if slot.tenant == t && table.rows[slot].id in ids then rows'[slot].position > 0
               else rows'[slot] == table.rows[slot])
  {
  }

  lemma OrderLists(s: Sys, o: nat)
    requires Sound(s.table) && ListsTrue(s) && o in s.orders && Locked(s.table, s.orders[o].tenant, s.orders[o].ids)
    requires Lists(s.table.rows, s.orders[o].tenant, s.ListOf(s.orders[o].tenant))
    ensures ListsTrue(AfterOrder(s, o))
  {
    hide Locked, Sound;
    var s', t := AfterOrder(s, o), s.orders[o].tenant;
    OrderRows(s.table, t, s.orders[o].ids);
    forall t': Tenant ensures Lists(s'.table.rows, t', s'.ListOf(t')) {
      assert Lists(s.table.rows, t', s.ListOf(t'));
      if t' == t {
        OrderInstalls(s.table, t, s.orders[o].ids, s.ListOf(t));
      } else {
        OthersKeep(s.table, s'.table, t, t', s.ListOf(t'));
      }
    }
  }

  lemma OrderLocked(table: Table, t: Tenant, ids: seq<nat>, t': Tenant, ids': seq<nat>)
    requires Sound(table) && Locked(table, t', ids') && (t == t' ==> ids == [] || ids' == [])
    ensures Locked(Order(table, t, ids), t', ids')
  {
    var rows' := Order(table, t, ids).rows;
    OrderRows(table, t, ids);
    forall i | 0 <= i < |ids'| ensures LiveId(rows', t', ids'[i]) {
      var slot := SlotOf(table.rows, t', ids'[i]);
      assert slot in rows' && LiveRow(rows', t', slot) && rows'[slot].id == ids'[i];
    }
  }

  lemma SetOrderHolds(s: Sys, o: nat)
    requires Inv(s) && o in s.orders
    ensures Locked(s.table, s.orders[o].tenant, s.orders[o].ids)
    ensures Lists(s.table.rows, s.orders[o].tenant, s.ListOf(s.orders[o].tenant))
    ensures Inv(AfterOrder(s, o))
  {
    hide Sound, ValuesFit, AllIssued, VersionsSound, Locked, GoodSubFields, Lists, Order;
    var t, ids := s.orders[o].tenant, s.orders[o].ids;
    assert Locked(s.table, t, ids) && Lists(s.table.rows, t, s.ListOf(t));
    hide ListsTrue;
    var s' := AfterOrder(s, o);
    OrderKeepsSound(s.table, t, ids);
    OrderRows(s.table, t, ids);
    VersionsKept(s, s');
    OrderLists(s, o);
    SameRowsValues(s, s');
    SameIssued(s, s');
    forall o' | o' in s'.orders ensures Locked(s'.table, s'.orders[o'].tenant, s'.orders[o'].ids) {
      OrderLocked(s.table, t, ids, s.orders[o'].tenant, s.orders[o'].ids);
    }
  }

  // Values, checked against however old a view.

  lemma ListedNames(rows: Rows, t: Tenant, list: seq<Slot>)
    requires Lists(rows, t, list)
    ensures DistinctNames(DefinitionsAt(rows, list))
  {
    forall i, j | 0 <= i < j < |list| ensures list[i].name != list[j].name {
      assert Before(rows[list[i]], rows[list[j]]) && LiveRow(rows, t, list[i]) && LiveRow(rows, t, list[j]);
    }
  }

  /** A name a view holds is a definition's for ever, of the kind and columns the view says. */
  lemma ViewStaysTrue(s: Sys, t: Tenant, reading: Reading, name: string)
    requires VersionsSound(s) && ReadOf(s, t, reading)
    requires name in ViewRead(s, t, reading).kinds
    ensures var view, slot := ViewRead(s, t, reading), Slot(t, name);
      && slot in s.table.rows && s.table.rows[slot].kind == view.kinds[name]
      && name in view.columns && ColumnKinds(view.columns[name]) == ColumnKinds(s.table.rows[slot].subFields)
      && GoodSubFields(view.kinds[name], view.columns[name])
  {
    var rows := s.versions[reading.version];
    var definitions := DefinitionsAt(rows, reading.list);
    var i := ViewHoldsOnly(definitions, name);
    ListedNames(rows, t, reading.list);
    ViewHoldsShape(definitions, i);
    var slot := reading.list[i];
    assert LiveRow(rows, t, slot) && slot == Slot(t, name);
    assert SameShapes(rows, s.table.rows) && RowsGood(rows);
    SameColumnKinds(rows[slot].subFields, s.table.rows[slot].subFields);
  }

  /** Changing one contact's values keeps the invariant as long as they fit. */
  lemma ContactHolds(s: Sys, contact: Contact, held: map<string, Held>, issued: set<nat>)
    requires Inv(s) && s.issued <= issued
    requires ContactFits(s.table.rows, contact.0, held, s.limit) && IdsIssued(held, issued)
    ensures Inv(s.(values := s.values[contact := held], issued := issued))
  {
    hide Sound, RowsGood, Lists, Locked, FitsRow;
    var s' := s.(values := s.values[contact := held], issued := issued);
    assert VersionsSound(s') by { SameVersions(s, s'); }
    SameLists(s, s');
    forall other | other in s'.values ensures IdsIssued(s'.values[other], issued) {
      if other != contact { assert IdsIssued(s.values[other], s.issued); }
    }
  }

  lemma HeldFits(s: Sys, contact: Contact)
    requires Inv(s)
    ensures ContactFits(s.table.rows, contact.0, s.ValuesOf(contact), s.limit)
    ensures IdsIssued(s.ValuesOf(contact), s.issued)
  {
  }

  lemma WriteHolds(s: Sys, contact: Contact, reading: Reading, given: map<string, Json>)
    requires Inv(s) && ReadOf(s, contact.0, reading) && MayWrite(ViewRead(s, contact.0, reading).kinds, given)
    ensures var checked := Coerced(ViewRead(s, contact.0, reading).kinds, given);
      Inv(s.(values := s.values[contact := Merged(s.ValuesOf(contact), checked)]))
  {
    var kinds := ViewRead(s, contact.0, reading).kinds;
    var checked := Coerced(kinds, given);
    var held := Merged(s.ValuesOf(contact), checked);
    HeldFits(s, contact);
    hide Sound, RowsGood, ListsTrue, OrdersSound, Lists, ValuesFit, AllIssued, ViewOf, Coerce, FitsKind, SoundList, FitsColumns;
    forall name | name in held && Slot(contact.0, name) in s.table.rows
      ensures FitsRow(s.table.rows[Slot(contact.0, name)], held[name], s.limit)
    {
      if name in checked {
        ViewStaysTrue(s, contact.0, reading, name);
        CoerceFits(kinds[name], given[name], checked[name].value);
      }
    }
    ContactHolds(s, contact, held, s.issued);
  }

  /** A checked entry fits the columns of its name's definition now. */
  lemma EntryFits(s: Sys, t: Tenant, reading: Reading, name: string, given: map<string, Json>, own: string)
    requires VersionsSound(s) && ReadOf(s, t, reading)
    requires CheckedEntry(ViewRead(s, t, reading), name, given, own).Some?
    ensures var cells, slot := CheckedEntry(ViewRead(s, t, reading), name, given, own).value, Slot(t, name);
      && Cellful(cells) && slot in s.table.rows && s.table.rows[slot].kind == Repeater
      && FitsColumns(ColumnKinds(s.table.rows[slot].subFields), cells)
  {
    var view := ViewRead(s, t, reading);
    ViewStaysTrue(s, t, reading, name);
    CheckedEntryFits(ColumnKinds(view.columns[name]), WithoutOwnId(given, own));
  }

  /** A list under a repeater's name, and every entry of it of the definition's columns. */
  predicate FitsList(kindsOf: map<string, Kind>, entries: seq<Entry>, limit: nat) {
    && (entries == [] || SoundList(entries, limit))
    && forall i :: 0 <= i < |entries| ==> FitsColumns(kindsOf, entries[i].cells)
  }

  lemma HeldList(s: Sys, contact: Contact, name: string)
    requires Inv(s) && Slot(contact.0, name) in s.table.rows
    ensures var entries := EntriesUnder(s.ValuesOf(contact), name);
      && FitsList(ColumnKinds(s.table.rows[Slot(contact.0, name)].subFields), entries, s.limit)
      && forall i :: 0 <= i < |entries| ==> entries[i].id in s.issued
  {
    HeldFits(s, contact);
  }

  lemma ListHolds(s: Sys, contact: Contact, name: string, entries: seq<Entry>, issued: set<nat>)
    requires Inv(s) && s.issued <= issued && Slot(contact.0, name) in s.table.rows && entries != []
    requires s.table.rows[Slot(contact.0, name)].kind == Repeater
    requires FitsList(ColumnKinds(s.table.rows[Slot(contact.0, name)].subFields), entries, s.limit)
    requires forall i :: 0 <= i < |entries| ==> entries[i].id in issued
    ensures Inv(s.(values := s.values[contact := s.ValuesOf(contact)[name := Listed(entries)]], issued := issued))
  {
    HeldFits(s, contact);
    hide Inv, FitsColumns, SoundList;
    ContactHolds(s, contact, s.ValuesOf(contact)[name := Listed(entries)], issued);
  }

  lemma InvParts(s: Sys)
    requires Inv(s)
    ensures VersionsSound(s)
  {
  }

  lemma NotIssued(entries: seq<Entry>, id: nat, issued: set<nat>)
    requires id !in issued && forall i :: 0 <= i < |entries| ==> entries[i].id in issued
    ensures !Holds(entries, id)
  {
  }

  lemma AddHolds(s: Sys, contact: Contact, reading: Reading, name: string, given: map<string, Json>, id: nat)
    requires Inv(s) && ReadOf(s, contact.0, reading) && id !in s.issued
    requires CheckedEntry(ViewRead(s, contact.0, reading), name, given, "").Some?
    ensures var cells := CheckedEntry(ViewRead(s, contact.0, reading), name, given, "").value;
      Inv(AfterAdd(s, contact, name, Entry(id, cells)))
  {
    hide Inv, ReadOf, ViewRead, CheckedEntry, Cellful, EntriesUnder, SoundList, FitsColumns, VersionsSound, Holds;
    var cells := CheckedEntry(ViewRead(s, contact.0, reading), name, given, "").value;
    InvParts(s);
    EntryFits(s, contact.0, reading, name, given, "");
    HeldList(s, contact, name);
    var entries := EntriesUnder(s.ValuesOf(contact), name);
    NotIssued(entries, id, s.issued);
    assert NewestFirst([cells][..0], [id][..0]) == [];
    assert NewestFirst([cells], [id]) == [Entry(id, cells)];
    AddKeepsSound(entries, [cells], [id], s.limit);
    var added := Added(entries, NewestFirst([cells], [id]), s.limit);
    if added.Some? {
      ListHolds(s, contact, name, added.value, s.issued + {id});
    }
  }

  lemma UpdateHolds(s: Sys, contact: Contact, reading: Reading, name: string, given: map<string, Json>, id: nat, own: string)
    requires Inv(s) && ReadOf(s, contact.0, reading)
    requires CheckedEntry(ViewRead(s, contact.0, reading), name, given, own).Some?
    ensures var cells := CheckedEntry(ViewRead(s, contact.0, reading), name, given, own).value;
      var updated := Updated(EntriesUnder(s.ValuesOf(contact), name), id, cells);
      updated.Some? ==> Inv(s.(values := s.values[contact := s.ValuesOf(contact)[name := Listed(updated.value)]]))
  {
    hide Inv, ReadOf, ViewRead, CheckedEntry, Cellful, EntriesUnder, SoundList, FitsColumns, VersionsSound;
    var cells := CheckedEntry(ViewRead(s, contact.0, reading), name, given, own).value;
    InvParts(s);
    EntryFits(s, contact.0, reading, name, given, own);
    HeldList(s, contact, name);
    var entries := EntriesUnder(s.ValuesOf(contact), name);
    if Holds(entries, id) {
      UpdateKeepsSound(entries, id, cells, s.limit);
      ListHolds(s, contact, name, Updated(entries, id, cells).value, s.issued);
    }
  }

  lemma DroppedFits(rows: Rows, t: Tenant, held: map<string, Held>, name: string, limit: nat, issued: set<nat>)
    requires ContactFits(rows, t, held, limit) && IdsIssued(held, issued)
    ensures ContactFits(rows, t, held - {name}, limit) && IdsIssued(held - {name}, issued)
  {
    hide FitsRow;
  }

  /** Entries deleted under a name no definition holds are nobody's; under a repeater's, what is left stays sound. */
  lemma DeleteHolds(s: Sys, contact: Contact, name: string, id: nat)
    requires Inv(s)
    ensures Inv(AfterDelete(s, contact, name, id))
  {
    var held := s.ValuesOf(contact);
    var entries := EntriesUnder(held, name);
    HeldFits(s, contact);
    if Holds(entries, id) {
      hide Inv;
      var kept := Without(entries, id);
      WithoutFrom(entries, id);
      if kept == [] {
        DroppedFits(s.table.rows, contact.0, held, name, s.limit, s.issued);
        ContactHolds(s, contact, held - {name}, s.issued);
      } else {
        DeletedFits(s, contact, name, id);
        ContactHolds(s, contact, held[name := Listed(kept)], s.issued);
      }
    }
  }

  lemma {:induction false} WithoutFrom(entries: seq<Entry>, id: nat)
    ensures forall i :: 0 <= i < |Without(entries, id)| ==> Without(entries, id)[i] in entries
  {
    if entries != [] { WithoutFrom(entries[1..], id); }
  }

  lemma DeletedFits(s: Sys, contact: Contact, name: string, id: nat)
    requires Inv(s)
    requires var entries := EntriesUnder(s.ValuesOf(contact), name); Holds(entries, id) && Without(entries, id) != []
    ensures var held := s.ValuesOf(contact);
      var left := held[name := Listed(Without(EntriesUnder(held, name), id))];
      ContactFits(s.table.rows, contact.0, left, s.limit) && IdsIssued(left, s.issued)
  {
    hide Inv, FitsColumns, Without, SoundList, FitsKind;
    var held := s.ValuesOf(contact);
    var entries := EntriesUnder(held, name);
    var kept := Without(entries, id);
    HeldFits(s, contact);
    WithoutFrom(entries, id);
    if Slot(contact.0, name) in s.table.rows {
      assert FitsRow(s.table.rows[Slot(contact.0, name)], held[name], s.limit);
      KeptSound(entries, id, s.limit);
    }
  }

  lemma KeptSound(entries: seq<Entry>, id: nat, limit: nat)
    requires SoundList(entries, limit) && Holds(entries, id)
    ensures Without(entries, id) == [] || SoundList(Without(entries, id), limit)
  {
    hide Without, SoundList;
    var at :| 0 <= at < |entries| && entries[at].id == id;
    DeleteKeepsSound(entries, at, limit);
  }

  /** Every step keeps the invariant. */
  lemma StepHolds(s: Sys, a: Action)
    requires Ready(s) && Inv(s) && Enabled(s, a)
    ensures Inv(Apply(s, a))
  {
    hide Inv, Ready, AfterDefine, AfterArchive, AfterOrder, AfterAdd, AfterDelete, MayWrite, CheckedEntry, ReadOf, ViewRead, Merged;
    match a
    case Define(t, definition) => DefineHolds(s, t, definition);
    case Archive(t, id) => ArchiveHolds(s, t, id);
    case LockOrder(o, t, ids) => LockOrderHolds(s, o, t, ids);
    case SetOrder(o) => SetOrderHolds(s, o);
    case Write(contact, reading, given) => WriteHolds(s, contact, reading, given);
    case Add(contact, reading, name, given, id) => AddHolds(s, contact, reading, name, given, id);
    case Update(contact, reading, name, given, id, own) => UpdateHolds(s, contact, reading, name, given, id, own);
    case Delete(contact, name, id) => DeleteHolds(s, contact, name, id);
  }

  // Runs.

  ghost predicate Steps(s: Sys, a: Action, s': Sys) {
    Ready(s) && Enabled(s, a) && s' == Apply(s, a)
  }

  ghost predicate IsRun(states: seq<Sys>, actions: seq<Action>) {
    && |states| == |actions| + 1
    && Start(states[0])
    && forall i :: 0 <= i < |actions| ==> Steps(states[i], actions[i], states[i + 1])
  }

  lemma {:induction false} RunHolds(states: seq<Sys>, actions: seq<Action>, i: nat)
    requires IsRun(states, actions) && i < |states|
    ensures Inv(states[i])
  {
    hide Inv, Apply, Enabled;
    if i == 0 {
      StartHolds(states[0]);
    } else {
      RunHolds(states, actions, i - 1);
      assert Steps(states[i - 1], actions[i - 1], states[i]);
      StepHolds(states[i - 1], actions[i - 1]);
    }
  }

  /**
   Every stored value and repeater entry fits its definition in every reachable
   state, although each was checked against a view read at any earlier version.
   */
  lemma StaleViewsHarmless(states: seq<Sys>, actions: seq<Action>, i: nat, contact: Contact, name: string)
    requires IsRun(states, actions) && i < |states|
    requires name in states[i].ValuesOf(contact) && Slot(contact.0, name) in states[i].table.rows
    ensures FitsRow(states[i].table.rows[Slot(contact.0, name)], states[i].ValuesOf(contact)[name], states[i].limit)
  {
    hide Inv, FitsRow;
    RunHolds(states, actions, i);
    HeldFits(states[i], contact);
  }

  /** The kind and the sub fields' names and kinds of a tenant's name are written once for ever. */
  lemma ShapesWrittenOnce(states: seq<Sys>, actions: seq<Action>, i: nat, v: nat, slot: Slot)
    requires IsRun(states, actions) && i < |states| && v < |states[i].versions| && slot in states[i].versions[v]
    ensures slot in states[i].table.rows
    ensures var before, now := states[i].versions[v][slot], states[i].table.rows[slot];
      SameShape(before.kind, before.subFields, now.kind, now.subFields)
  {
    RunHolds(states, actions, i);
    assert SameShapes(states[i].versions[v], states[i].table.rows);
  }

  /** The table sorted by position and id is the list defining, archiving and ordering made of it. */
  lemma TableRefinesList(states: seq<Sys>, actions: seq<Action>, i: nat, t: Tenant, list: seq<Slot>)
    requires IsRun(states, actions) && i < |states|
    ensures Lists(states[i].table.rows, t, list) <==> list == states[i].ListOf(t)
  {
    RunHolds(states, actions, i);
    assert Lists(states[i].table.rows, t, states[i].ListOf(t));
    hide Inv, Lists;
    if Lists(states[i].table.rows, t, list) {
      ListIsUnique(states[i].table.rows, t, list, states[i].ListOf(t));
    }
  }
}
