/**
 The definitions and the values together: every statement one step, values
 checked against a view of the definitions however long ago it was read.
 */
module FieldRuns {
  import opened Wrappers
  import opened FieldTypes
  import opened Definitions
  import opened Values
  import opened Entries

  /** What a contact holds under a name: a scalar, or the entries of a repeater. */
  datatype Held = One(cell: Cell) | Listed(entries: seq<Entry>)

  type Contact = (Tenant, nat)

  datatype Pending = Pending(tenant: Tenant, ids: seq<nat>)

  /**
   `versions` is every state the definitions were ever in, `lists` the list each
   tenant is to see, and `issued` the entry ids given so far.
   */
  datatype Sys = Sys(
    table: Table, versions: seq<Rows>, lists: map<Tenant, seq<Slot>>, orders: map<nat, Pending>,
    values: map<Contact, map<string, Held>>, issued: set<nat>, limit: nat)
  {
    function ListOf(t: Tenant): seq<Slot> { if t in lists then lists[t] else [] }

    function ValuesOf(contact: Contact): map<string, Held> { if contact in values then values[contact] else map[] }
  }

  /** The definitions a read of the list answered. */
  function DefinitionsAt(rows: Rows, list: seq<Slot>): seq<FieldTypes.Definition>
    requires forall i :: 0 <= i < |list| ==> list[i] in rows
  {
    seq(|list|, i requires 0 <= i < |list| =>
      FieldTypes.Definition(rows[list[i]].id, list[i].name, rows[list[i]].caption, rows[list[i]].kind, rows[list[i]].subFields))
  }

  /** A reading of a tenant's live definitions at some version. */
  datatype Reading = Reading(version: nat, list: seq<Slot>)

  predicate ReadOf(s: Sys, t: Tenant, reading: Reading) {
    reading.version < |s.versions| && Lists(s.versions[reading.version], t, reading.list)
  }

  function ViewRead(s: Sys, t: Tenant, reading: Reading): View
    requires ReadOf(s, t, reading)
  {
    ViewOf(DefinitionsAt(s.versions[reading.version], reading.list), 0)
  }

  datatype Action =
    | Define(tenant: Tenant, definition: FieldTypes.Definition)
    | Archive(tenant: Tenant, id: nat)
    | LockOrder(order: nat, tenant: Tenant, ids: seq<nat>)
    | SetOrder(order: nat)
    | Write(contact: Contact, reading: Reading, given: map<string, Json>)
    | Add(contact: Contact, reading: Reading, name: string, given: map<string, Json>, id: nat)
    | Update(contact: Contact, reading: Reading, name: string, given: map<string, Json>, id: nat, own: string)
    | Delete(contact: Contact, name: string, id: nat)

  /** Whether checking lets the values through. */
  predicate MayWrite(kinds: map<string, Kind>, given: map<string, Json>) {
    && RepeatersIn(kinds, given) == {} && given.Keys <= kinds.Keys
    && forall name :: name in given ==> !WrongAt(kinds, given, name)
  }

  /** The cells an entry is stored with, if checking lets it through. */
  function CheckedEntry(view: View, name: string, given: map<string, Json>, own: string): Option<map<string, Cell>> {
    if name !in view.kinds || view.kinds[name] != Repeater || name !in view.columns then None
    else
      var kindsOf, cells := ColumnKinds(view.columns[name]), WithoutOwnId(given, own);
      if (exists key :: key in cells && WrongAt(kindsOf, cells, key)) || !(cells.Keys <= kindsOf.Keys) then None
      else
        var entry := NotBlank(Filled(kindsOf, cells));
        if entry == map[] then None else Some(entry)
  }

  ghost predicate Enabled(s: Sys, a: Action) {
    match a
    case Define(_, definition) =>
      GoodSubFields(definition.kind, definition.subFields) && Unused(s.table.rows, definition.id)
    case Archive(t, id) => forall o :: o in s.orders && s.orders[o].tenant == t ==> id !in s.orders[o].ids
    case LockOrder(o, t, ids) =>
      && o !in s.orders && Distinct(ids) && (forall id :: id in ids <==> LiveId(s.table.rows, t, id))
      && forall o' :: o' in s.orders && s.orders[o'].tenant == t ==> s.orders[o'].ids == []
    case SetOrder(o) => o in s.orders
    case Write(contact, reading, given) =>
      ReadOf(s, contact.0, reading) && MayWrite(ViewRead(s, contact.0, reading).kinds, given)
    case Add(contact, reading, name, given, id) =>
      && ReadOf(s, contact.0, reading) && id !in s.issued
      && CheckedEntry(ViewRead(s, contact.0, reading), name, given, "").Some?
    case Update(contact, reading, name, given, id, own) =>
      && ReadOf(s, contact.0, reading)
      && CheckedEntry(ViewRead(s, contact.0, reading), name, given, own).Some?
    case Delete(_, _, _) => true
  }

  /** Values under a name no definition has held yet go when one first does. */
  function Swept(values: map<Contact, map<string, Held>>, t: Tenant, name: string): map<Contact, map<string, Held>> {
    map contact | contact in values :: if contact.0 == t then values[contact] - {name} else values[contact]
  }

  /** Given values over the held ones, nulls taken out. */
  function Merged(held: map<string, Held>, checked: map<string, Option<Cell>>): map<string, Held> {
    map name | name in held.Keys + checked.Keys && (name in checked ==> checked[name].Some?) ::
      if name in checked then One(checked[name].value) else held[name]
  }

  /** The given values, nulls among them, over the held ones. */
  function LaidOver(held: map<string, Held>, checked: map<string, Option<Cell>>): map<string, Option<Held>> {
    (map name | name in held :: Some(held[name]))
    + (map name | name in checked :: if checked[name].Some? then Some(One(checked[name].value)) else None)
  }

  function WithoutNulls(over: map<string, Option<Held>>): map<string, Held> {
    map name | name in over && over[name].Some? :: over[name].value
  }

  lemma LaidOverMerges(held: map<string, Held>, checked: map<string, Option<Cell>>)
    ensures WithoutNulls(LaidOver(held, checked)) == Merged(held, checked)
  {
  }

  /** Writing twice is writing once, the second values over the first; a name left out keeps what it held. */
  lemma WritesCompose(held: map<string, Held>, first: map<string, Option<Cell>>, second: map<string, Option<Cell>>)
    ensures Merged(Merged(held, first), second) == Merged(held, first + second)
    ensures forall name :: name !in first ==>
      (name in Merged(held, first) <==> name in held) && (name in held ==> Merged(held, first)[name] == held[name])
    ensures forall name :: name in first ==>
      (name in Merged(held, first) <==> first[name].Some?)
      && (first[name].Some? ==> Merged(held, first)[name] == One(first[name].value))
  {
  }

  function EntriesUnder(held: map<string, Held>, name: string): seq<Entry> {
    if name in held && held[name].Listed? then held[name].entries else []
  }

  /** A list stored under a name is the list read there, and any other name has none. */
  lemma EntriesReadBack(held: map<string, Held>, name: string, other: string, list: seq<Entry>)
    ensures EntriesUnder(held[name := Listed(list)], name) == list
    ensures other != name ==> EntriesUnder(held[name := Listed(list)], other) == EntriesUnder(held, other)
    ensures EntriesUnder(held - {name}, name) == []
    ensures EntriesUnder(held, name) == if name in held && held[name].Listed? then held[name].entries else []
  {
  }

  ghost predicate Ready(s: Sys) { ListsTrue(s) && OrdersSound(s) }

  ghost function Apply(s: Sys, a: Action): Sys
    requires Ready(s) && Enabled(s, a)
  {
    match a
    case Define(t, definition) => AfterDefine(s, t, definition)
    case Archive(t, id) => AfterArchive(s, t, id)
    case LockOrder(o, t, ids) => s.(orders := s.orders[o := Pending(t, ids)])
    case SetOrder(o) => AfterOrder(s, o)
    case Write(contact, reading, given) =>
      var checked := Coerced(ViewRead(s, contact.0, reading).kinds, given);
      s.(values := s.values[contact := Merged(s.ValuesOf(contact), checked)])
    case Add(contact, reading, name, given, id) =>
      var cells := CheckedEntry(ViewRead(s, contact.0, reading), name, given, "").value;
      AfterAdd(s, contact, name, Entry(id, cells))
    case Update(contact, reading, name, given, id, own) =>
      var cells := CheckedEntry(ViewRead(s, contact.0, reading), name, given, own).value;
      var updated := Updated(EntriesUnder(s.ValuesOf(contact), name), id, cells);
      if updated.None? then s
      else s.(values := s.values[contact := s.ValuesOf(contact)[name := Listed(updated.value)]])
    case Delete(contact, name, id) => AfterDelete(s, contact, name, id)
  }

  function AfterDefine(s: Sys, t: Tenant, definition: FieldTypes.Definition): Sys {
    var (table, outcome) := Definitions.Define(s.table, t, definition);
    var slot := Slot(t, definition.name);
    s.(table := table,
       versions := s.versions + [table.rows],
       lists := if outcome.Stored? then s.lists[t := s.ListOf(t) + [slot]] else s.lists,
       values := if slot in s.table.rows then s.values else Swept(s.values, t, definition.name))
  }

  function AfterArchive(s: Sys, t: Tenant, id: nat): Sys
    requires Lists(s.table.rows, t, s.ListOf(t))
  {
    var table := Definitions.Archive(s.table, t, id).0;
    s.(table := table,
       versions := s.versions + [table.rows],
       lists := s.lists[t := Rest(s.table.rows, s.ListOf(t), [id])])
  }

  ghost function AfterOrder(s: Sys, o: nat): Sys
    requires o in s.orders && Locked(s.table, s.orders[o].tenant, s.orders[o].ids)
    requires Lists(s.table.rows, s.orders[o].tenant, s.ListOf(s.orders[o].tenant))
  {
    var t, ids := s.orders[o].tenant, s.orders[o].ids;
    var table := Order(s.table, t, ids);
    s.(table := table,
       versions := s.versions + [table.rows],
       orders := s.orders - {o},
       lists := s.lists[t := SlotsOf(s.table.rows, t, ids) + Rest(s.table.rows, s.ListOf(t), ids)])
  }

  function AfterAdd(s: Sys, contact: Contact, name: string, entry: Entry): Sys {
    var held := s.ValuesOf(contact);
    var added := Added(EntriesUnder(held, name), NewestFirst([entry.cells], [entry.id]), s.limit);
    if added.None? then s
    else s.(values := s.values[contact := held[name := Listed(added.value)]], issued := s.issued + {entry.id})
  }

  /** What a contact holds with one entry fewer; a name left with none is gone. */
  function AfterDelete(s: Sys, contact: Contact, name: string, id: nat): Sys {
    var held := s.ValuesOf(contact);
    var deleted := Deleted(EntriesUnder(held, name), id);
    if deleted.None? then s
    else
      var left := if deleted.value == [] then held - {name} else held[name := Listed(deleted.value)];
      s.(values := s.values[contact := left])
  }

  // What every reachable state keeps.

  predicate SameShapes(before: Rows, after: Rows) {
    forall slot :: slot in before ==>
      slot in after && SameShape(before[slot].kind, before[slot].subFields, after[slot].kind, after[slot].subFields)
  }

  predicate RowsGood(rows: Rows) {
    forall slot :: slot in rows ==> GoodSubFields(rows[slot].kind, rows[slot].subFields)
  }

  ghost predicate VersionsSound(s: Sys) {
    forall v :: 0 <= v < |s.versions| ==> SameShapes(s.versions[v], s.table.rows) && RowsGood(s.versions[v])
  }

  /** What a definition of one kind and columns lets a contact hold. */
  predicate FitsShape(kind: Kind, kindsOf: map<string, Kind>, held: Held, limit: nat) {
    match held
    case One(cell) => FitsKind(kind, cell)
    case Listed(entries) =>
      && kind == Repeater && SoundList(entries, limit)
      && forall i :: 0 <= i < |entries| ==> FitsColumns(kindsOf, entries[i].cells)
  }

  predicate FitsRow(row: Row, held: Held, limit: nat) {
    FitsShape(row.kind, ColumnKinds(row.subFields), held, limit)
  }

  predicate ContactFits(rows: Rows, t: Tenant, held: map<string, Held>, limit: nat) {
    forall name :: name in held && Slot(t, name) in rows ==> FitsRow(rows[Slot(t, name)], held[name], limit)
  }

  ghost predicate ValuesFit(s: Sys) {
    forall contact :: contact in s.values ==> ContactFits(s.table.rows, contact.0, s.values[contact], s.limit)
  }

  predicate IdsIssued(held: map<string, Held>, issued: set<nat>) {
    forall name :: name in held && held[name].Listed? ==>
      forall i :: 0 <= i < |held[name].entries| ==> held[name].entries[i].id in issued
  }

  ghost predicate AllIssued(s: Sys) {
    forall contact :: contact in s.values ==> IdsIssued(s.values[contact], s.issued)
  }

  ghost predicate ListsTrue(s: Sys) {
    forall t :: Lists(s.table.rows, t, s.ListOf(t))
  }

  ghost predicate OrdersSound(s: Sys) {
    && (forall o :: o in s.orders ==> Locked(s.table, s.orders[o].tenant, s.orders[o].ids))
    && (forall o, o' :: o in s.orders && o' in s.orders && o != o' && s.orders[o].tenant == s.orders[o'].tenant ==>
          s.orders[o].ids == [] || s.orders[o'].ids == [])
  }

  ghost predicate Inv(s: Sys) {
    && Sound(s.table) && RowsGood(s.table.rows) && VersionsSound(s)
    && ListsTrue(s) && OrdersSound(s) && ValuesFit(s) && AllIssued(s)
  }

  /** Values may stand from before any definition of their names. */
  predicate Start(s: Sys) {
    && s.table == Table(map[], 0) && s.versions == [map[]] && s.lists == map[] && s.orders == map[]
    && (forall contact :: contact in s.values ==> IdsIssued(s.values[contact], s.issued))
  }

  lemma StartHolds(s: Sys)
    requires Start(s)
    ensures Inv(s)
  {
  }
}
