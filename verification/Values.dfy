/** Checking the values a contact's fields are given against a view of the definitions. */
module Values {
  import opened Wrappers
  import opened Texts
  import opened Clocks
  import opened FieldTypes

  /** A decoded request value; a number literal reads as its value rounded to a double, if it reads. */
  datatype Json =
    | JNull
    | JText(text: string)
    | JReal(value: real)
    | JInt(n: int)
    | JNumber(read: Option<real>)
    | JBool(flag: bool)
    | JObject(cells: map<string, Json>)
    | JList

  /** A stored scalar. */
  datatype Cell = Word(text: string) | Whole(n: int) | Flag(flag: bool)

  datatype Error =
    | WrongKind(name: string)
    | NoField(names: set<string>)
    | RepeaterEntriesOnly(names: set<string>)
    | NotAnEntry
    | EntryEmpty

  datatype Checked<T> = Fine(value: T) | Refused(error: Error)

  const ENTRY_ID_KEY := "id"
  const MIN_INT32 := -0x8000_0000
  const MAX_INT32 := 0x7fff_ffff

  /** The number a value stands for: a double's when it came as one, a literal's text otherwise. */
  function DecimalOf(given: Json): Option<real> {
    match given
    case JReal(value) => Some(value)
    case JInt(n) => Some(n as real)
    case JNumber(read) => read
    case _ => None
  }

  function CoerceNumber(given: Json): Option<Cell> {
    var number := DecimalOf(given);
    if number.None? || number.value != number.value.Floor as real then None
    else if number.value < MIN_INT32 as real || number.value > MAX_INT32 as real then None
    else Some(Whole(number.value.Floor))
  }

  /** What is stored for a value of this kind: nothing for null, and no answer when the value is of another kind. */
  function Coerce(kind: Kind, given: Json): Option<Option<Cell>> {
    if given.JNull? then Some(None)
    else match kind
      case Text | LongText | Select => if given.JText? then Some(Some(Word(given.text))) else None
      case Number => var cell := CoerceNumber(given); if cell.Some? then Some(cell) else None
      case Boolean => if given.JBool? then Some(Some(Flag(given.flag))) else None
      case Date => if given.JText? && ParseDate(given.text).Some? then Some(Some(Word(given.text))) else None
      case Repeater => None
  }

  /** What a field of each kind may hold. */
  predicate FitsKind(kind: Kind, cell: Cell) {
    match kind
    case Text | LongText | Select => cell.Word?
    case Number => cell.Whole? && MIN_INT32 <= cell.n <= MAX_INT32
    case Boolean => cell.Flag?
    case Date => cell.Word? && ParseDate(cell.text).Some?
    case Repeater => false
  }

  function JsonOf(cell: Cell): Json {
    match cell
    case Word(text) => JText(text)
    case Whole(n) => JInt(n)
    case Flag(flag) => JBool(flag)
  }

  /** A value coerced fits the kind, and a value that fits is coerced to itself however often it is sent back. */
  lemma CoerceFits(kind: Kind, given: Json, cell: Cell)
    ensures Coerce(kind, given) == Some(Some(cell)) ==> FitsKind(kind, cell)
    ensures FitsKind(kind, cell) <==> Coerce(kind, JsonOf(cell)) == Some(Some(cell))
  {
    if cell.Whole? {
      assert (cell.n as real).Floor == cell.n;
    }
  }

  /** A number, in any of the three ways one arrives. */
  predicate StandsFor(given: Json, x: real) {
    given == JReal(x) || given == JNumber(Some(x)) || (given.JInt? && given.n as real == x)
  }

  /** A value that says just what the cell of that kind holds. */
  predicate Says(kind: Kind, given: Json, cell: Cell) {
    match cell
    case Word(text) => given == JText(text) && (kind in {Text, LongText, Select} || (kind.Date? && ParseDate(text).Some?))
    case Whole(n) => kind == Number && StandsFor(given, n as real) && MIN_INT32 <= n <= MAX_INT32
    case Flag(flag) => kind == Boolean && given == JBool(flag)
  }

  /**
   Null clears under every kind, a value is stored exactly as what it says, however a
   number was spelled, and any other is refused.
   */
  lemma CoerceExactly(kind: Kind, given: Json, cell: Cell)
    ensures Coerce(kind, given) == Some(None) <==> given == JNull
    ensures Coerce(kind, given) == Some(Some(cell)) <==> Says(kind, given, cell)
    ensures Coerce(kind, given) == None <==> given != JNull && forall c :: !Says(kind, given, c)
  {
    SaysWhole(given, cell);
    if Coerce(kind, given).Some? && Coerce(kind, given).value.Some? {
      SaysWhole(given, Coerce(kind, given).value.value);
      assert Says(kind, given, Coerce(kind, given).value.value);
    } else if given != JNull {
      forall c ensures !Says(kind, given, c) {
        SaysWhole(given, c);
      }
    }
  }

  lemma SaysWhole(given: Json, cell: Cell)
    ensures CoerceNumber(given) == Some(cell) <==> Says(Number, given, cell)
  {
    if cell.Whole? {
      assert (cell.n as real).Floor == cell.n;
    }
  }

  /** A cell telling one kind from those with another scalar. */
  ghost function Sample(kind: Kind): Cell {
    match kind
    case Text | LongText | Select | Repeater => Word("")
    case Number => Whole(0)
    case Boolean => Flag(true)
    case Date => Word(DateText(Clocks.Date(1, 1, 1)))
  }

  lemma SamplesFit(kind: Kind)
    ensures FitsKind(kind, Sample(kind)) <==> kind != Repeater
    ensures !FitsKind(Kind.Date, Word(""))
  {
    DateReadsBack(Clocks.Date(1, 1, 1));
    hide DateText;
  }

  /** Two kinds share a scalar exactly when they hold the same cells. */
  lemma ScalarTellsCells(kind: Kind, kind': Kind)
    ensures Scalar(kind) == Scalar(kind') <==> forall cell :: FitsKind(kind, cell) <==> FitsKind(kind', cell)
  {
    SamplesFit(kind);
    SamplesFit(kind');
    hide ParseDate, DateText;
    assert "String"[0] != "Int"[0] && "Date"[0] != "JSON"[0] && "Boolean"[0] != "String"[0];
    if Scalar(kind) != Scalar(kind') {
      assert !(FitsKind(kind, Sample(kind)) <==> FitsKind(kind', Sample(kind)))
        || !(FitsKind(kind, Sample(kind')) <==> FitsKind(kind', Sample(kind')));
    }
  }

  // Values of a contact.

  /** Those of the given names that are repeaters. */
  function RepeatersIn(kinds: map<string, Kind>, given: map<string, Json>): set<string> {
    set name | name in given && name in kinds && kinds[name] == Repeater
  }

  predicate WrongAt(kinds: map<string, Kind>, given: map<string, Json>, name: string) {
    name in given && name in kinds && Coerce(kinds[name], given[name]).None?
  }

  /** Every given name coerced to the kind the view holds for it. */
  function Coerced(kinds: map<string, Kind>, given: map<string, Json>): map<string, Option<Cell>> {
    map name | name in given && name in kinds && Coerce(kinds[name], given[name]).Some? ::
      Coerce(kinds[name], given[name]).value
  }

  /** The storable values the view allows, refusing repeaters, then the first wrong kind in name order, then unknown names. */
  method CheckValues(view: View, given: map<string, Json>) returns (checked: Checked<map<string, Option<Cell>>>)
    ensures checked.Fine? <==>
      && RepeatersIn(view.kinds, given) == {} && given.Keys <= view.kinds.Keys
      && forall name :: name in given ==> !WrongAt(view.kinds, given, name)
    ensures checked.Fine? ==> checked.value == Coerced(view.kinds, given) && checked.value.Keys == given.Keys
    ensures checked.Refused? ==>
      match checked.error
      case RepeaterEntriesOnly(names) => names == RepeatersIn(view.kinds, given) != {}
      case WrongKind(name) =>
        && RepeatersIn(view.kinds, given) == {} && WrongAt(view.kinds, given, name)
        && forall other :: other in given && Sooner(other, name) ==> !WrongAt(view.kinds, given, other)
      case NoField(names) =>
        && RepeatersIn(view.kinds, given) == {} && names == given.Keys - view.kinds.Keys != {}
        && forall name :: name in given ==> !WrongAt(view.kinds, given, name)
      case _ => false
  {
    hide Coerce;
    var repeaters := RepeatersIn(view.kinds, given);
    if repeaters != {} {
      return Refused(RepeaterEntriesOnly(repeaters));
    }
    var unknown: set<string> := {};
    var fine: map<string, Option<Cell>> := map[];
    var left := given.Keys;
    while left != {}
      invariant left <= given.Keys
      invariant forall name :: name in unknown <==> name in given && name !in left && name !in view.kinds
      invariant forall name :: name in given && name !in left ==> !WrongAt(view.kinds, given, name)
      invariant forall name :: name in fine <==> name in Coerced(view.kinds, given) && name !in left
      invariant forall name :: name in fine ==> fine[name] == Coerced(view.kinds, given)[name]
      decreases |left|
    {
      var name := FirstOf(left);
      ghost var ahead := left;
      left := left - {name};
      if name !in view.kinds {
        unknown := unknown + {name};
        continue;
      }
      var coerced := Coerce(view.kinds[name], given[name]);
      if coerced.None? {
        forall other | other in given && Sooner(other, name) ensures other !in ahead {
          SoonerIsTotalOrder(name, other, name);
        }
        return Refused(WrongKind(name));
      }
      fine := fine[name := coerced.value];
    }
    if unknown != {} {
      return Refused(NoField(unknown));
    }
    return Fine(fine);
  }

  // Entries of a repeater.

  function ColumnKinds(columns: seq<SubField>): map<string, Kind> {
    if columns == [] then map[]
    else ColumnKinds(columns[..|columns| - 1])[columns[|columns| - 1].name := columns[|columns| - 1].kind]
  }

  method KindsOfColumns(columns: seq<SubField>) returns (kindsOf: map<string, Kind>)
    ensures kindsOf == ColumnKinds(columns)
  {
    kindsOf := map[];
    for i := 0 to |columns|
      invariant kindsOf == ColumnKinds(columns[..i])
    {
      assert columns[..i + 1][..i] == columns[..i];
      kindsOf := kindsOf[columns[i].name := columns[i].kind];
    }
    assert columns[..|columns|] == columns;
  }

  function WithoutOwnId(cells: map<string, Json>, own: string): map<string, Json> {
    if own == "" || ENTRY_ID_KEY !in cells || cells[ENTRY_ID_KEY] != JText(own) then cells else cells - {ENTRY_ID_KEY}
  }

  /** Of an entry's cells only one naming the entry's own id is left out. */
  lemma WithoutOwnIdExactly(cells: map<string, Json>, own: string, name: string)
    ensures var kept := WithoutOwnId(cells, own);
      && (name in kept <==> name in cells && !(name == "id" && own != "" && cells[name] == JText(own)))
      && (name in kept ==> kept[name] == cells[name])
  {
  }

  /** Columns of distinct names hold each its own kind. */
  lemma {:induction false} ColumnKindsHold(columns: seq<SubField>, name: string)
    requires forall i, j :: 0 <= i < j < |columns| ==> columns[i].name != columns[j].name
    ensures name in ColumnKinds(columns) <==> exists i :: 0 <= i < |columns| && columns[i].name == name
    ensures forall i :: 0 <= i < |columns| && columns[i].name == name ==> ColumnKinds(columns)[name] == columns[i].kind
  {
    if columns != [] {
      var n := |columns| - 1;
      ColumnKindsHold(columns[..n], name);
      assert forall i :: 0 <= i < n ==> columns[..n][i] == columns[i];
    }
  }

  /** The cells some column holds, null ones left out. */
  function Filled(kindsOf: map<string, Kind>, cells: map<string, Json>): map<string, Cell> {
    map name | name in Coerced(kindsOf, cells) && Coerced(kindsOf, cells)[name].Some? :: Coerced(kindsOf, cells)[name].value
  }

  predicate BlankCell(cell: Cell) { cell.Word? && Trimmed(cell.text) == "" }

  function NotBlank(entry: map<string, Cell>): map<string, Cell> {
    map name | name in entry && !BlankCell(entry[name]) :: entry[name]
  }

  method DropBlankText(entry: map<string, Cell>) returns (kept: map<string, Cell>)
    ensures kept == NotBlank(entry)
  {
    kept := entry;
    var left := entry.Keys;
    while left != {}
      invariant left <= entry.Keys
      invariant kept == map name | name in entry && (name in left || !BlankCell(entry[name])) :: entry[name]
      decreases |left|
    {
      var name :| name in left;
      left := left - {name};
      if entry[name].Word? && Trimmed(entry[name].text) == "" {
        kept := kept - {name};
      }
    }
  }

  method CheckRow(kindsOf: map<string, Kind>, cells: map<string, Json>)
    returns (row: Checked<map<string, Cell>>, unknown: set<string>)
    ensures row.Fine? <==> forall name :: name in cells ==> !WrongAt(kindsOf, cells, name)
    ensures row.Fine? ==> row.value == Filled(kindsOf, cells) && unknown == cells.Keys - kindsOf.Keys
    ensures row.Refused? ==> row.error.WrongKind? && WrongAt(kindsOf, cells, row.error.name)
  {
    hide Coerce;
    unknown := {};
    var filled: map<string, Cell> := map[];
    var left := cells.Keys;
    while left != {}
      invariant left <= cells.Keys
      invariant forall name :: name in unknown <==> name in cells && name !in left && name !in kindsOf
      invariant forall name :: name in cells && name !in left ==> !WrongAt(kindsOf, cells, name)
      invariant forall name :: name in filled <==> name in Filled(kindsOf, cells) && name !in left
      invariant forall name :: name in filled ==> filled[name] == Filled(kindsOf, cells)[name]
      decreases |left|
    {
      var name :| name in left;
      left := left - {name};
      if name !in kindsOf {
        unknown := unknown + {name};
        continue;
      }
      var coerced := Coerce(kindsOf[name], cells[name]);
      if coerced.None? {
        return Refused(WrongKind(name)), {};
      }
      if coerced.value.Some? {
        filled := filled[name := coerced.value.value];
      }
    }
    row := Fine(filled);
  }

  /** The storable cells of one entry: known columns, of their kinds, none blank and at least one. */
  method CheckEntry(columns: seq<SubField>, given: Json, own: string) returns (entry: Checked<map<string, Cell>>)
    ensures !given.JObject? ==> entry == Refused(NotAnEntry)
    ensures given.JObject? ==>
      var kindsOf, cells := ColumnKinds(columns), WithoutOwnId(given.cells, own);
      && (entry.Fine? <==>
            && (forall name :: name in cells ==> !WrongAt(kindsOf, cells, name))
            && cells.Keys <= kindsOf.Keys && NotBlank(Filled(kindsOf, cells)) != map[])
      && (entry.Fine? ==> entry.value == NotBlank(Filled(kindsOf, cells)))
      && (entry.Refused? && entry.error.NoField? ==> entry.error.names == cells.Keys - kindsOf.Keys != {})
      && (entry.Refused? && entry.error.WrongKind? ==> WrongAt(kindsOf, cells, entry.error.name))
  {
    if !given.JObject? {
      return Refused(NotAnEntry);
    }
    var kindsOf := KindsOfColumns(columns);
    var cells := WithoutOwnId(given.cells, own);
    var row, unknown := CheckRow(kindsOf, cells);
    if row.Refused? {
      return Refused(row.error);
    }
    if unknown != {} {
      return Refused(NoField(unknown));
    }
    assert forall name :: name in cells ==> name !in cells.Keys - kindsOf.Keys;
    var kept := DropBlankText(row.value);
    if kept == map[] {
      return Refused(EntryEmpty);
    }
    return Fine(kept);
  }

  // What stored values hold.

  /** Every cell is under a column of its kind, none is blank, and there is one at least. */
  predicate FitsColumns(kindsOf: map<string, Kind>, cells: map<string, Cell>) {
    cells != map[] && forall name :: name in cells ==>
      name in kindsOf && FitsKind(kindsOf[name], cells[name]) && !BlankCell(cells[name])
  }

  /** A checked entry fits the columns it was checked against. */
  lemma CheckedEntryFits(kindsOf: map<string, Kind>, cells: map<string, Json>)
    requires NotBlank(Filled(kindsOf, cells)) != map[]
    ensures FitsColumns(kindsOf, NotBlank(Filled(kindsOf, cells)))
  {
    var entry := NotBlank(Filled(kindsOf, cells));
    forall name | name in entry ensures name in kindsOf && FitsKind(kindsOf[name], entry[name]) {
      CoerceFits(kindsOf[name], cells[name], entry[name]);
    }
  }

  // Sub fields a definition may hold.

  datatype SubFieldError = Required | Unexpected | Nested | NameInvalid | NameTaken | NameReserved

  predicate LowerOrUpperOrDigit(c: char) { 'a' <= c <= 'z' || 'A' <= c <= 'Z' || '0' <= c <= '9' }

  predicate NameMatches(name: string) {
    name != "" && 'a' <= name[0] <= 'z' && forall i :: 0 <= i < |name| ==> LowerOrUpperOrDigit(name[i])
  }

  predicate GoodSubField(column: SubField) {
    NameMatches(column.name) && column.name != ENTRY_ID_KEY && column.kind != Repeater
  }

  /** A repeater has columns of distinct good names, none nested or named as the entry id; no other kind has any. */
  predicate GoodSubFields(kind: Kind, subFields: seq<SubField>) {
    if kind != Repeater then subFields == []
    else
      && subFields != [] && (forall i :: 0 <= i < |subFields| ==> GoodSubField(subFields[i]))
      && forall i, j :: 0 <= i < j < |subFields| ==> subFields[i].name != subFields[j].name
  }

  /** A text is blank exactly when every character of it is. */
  lemma BlankExactly(text: string)
    ensures Trimmed(text) == "" <==> AllBlank(text)
  {
    var from, to := TrimmedWithin(text);
  }

  /** What a checked entry stores under a name is what was given there, when a column of the name takes it and it is no blank text. */
  lemma EntryStoresExactly(kindsOf: map<string, Kind>, cells: map<string, Json>, name: string, cell: Cell)
    ensures var entry := NotBlank(Filled(kindsOf, cells));
      name in entry && entry[name] == cell <==>
        && name in cells && name in kindsOf && Says(kindsOf[name], cells[name], cell)
        && !(cell.Word? && AllBlank(cell.text))
  {
    if name in cells && name in kindsOf {
      CoerceExactly(kindsOf[name], cells[name], cell);
    }
    if cell.Word? { BlankExactly(cell.text); }
    hide Coerce, Says, Trimmed, AllBlank;
  }

  /** What checked values store under a name is what was given there, nothing for null, when the view's kind takes it. */
  lemma ValueStoresExactly(kinds: map<string, Kind>, given: map<string, Json>, name: string, cell: Cell)
    ensures var checked := Coerced(kinds, given);
      && (name in checked && checked[name] == Some(cell) <==>
            name in given && name in kinds && Says(kinds[name], given[name], cell))
      && (name in checked && checked[name] == None <==> name in given && name in kinds && given[name] == JNull)
  {
    if name in given && name in kinds {
      CoerceExactly(kinds[name], given[name], cell);
    }
    hide Coerce, Says;
  }

  /** What is wrong with one column, told in this order, given those before it. */
  predicate WrongWith(error: SubFieldError, subFields: seq<SubField>, i: int) {
    && 0 <= i < |subFields|
    && var column, before := subFields[i], exists k :: 0 <= k < i && subFields[k].name == subFields[i].name;
    match error
    case NameInvalid => !NameMatches(column.name)
    case NameReserved => column.name == "id"
    case NameTaken => NameMatches(column.name) && column.name != "id" && before
    case Nested => NameMatches(column.name) && column.name != "id" && !before && column.kind == Repeater
    case _ => false
  }

  /** Nothing wrong with any column before this one. */
  predicate GoodBefore(subFields: seq<SubField>, i: int) {
    && 0 <= i <= |subFields| && (forall k :: 0 <= k < i ==> GoodSubField(subFields[k]))
    && forall j, k :: 0 <= j < k < i ==> subFields[j].name != subFields[k].name
  }

  method CheckSubFields(kind: Kind, subFields: seq<SubField>) returns (refused: Option<SubFieldError>)
    ensures refused == None <==> GoodSubFields(kind, subFields)
    ensures refused == Some(Unexpected) <==> kind != Repeater && subFields != []
    ensures refused == Some(Required) <==> kind == Repeater && subFields == []
    ensures refused.Some? && kind == Repeater && subFields != [] ==>
      exists i :: WrongWith(refused.value, subFields, i) && GoodBefore(subFields, i)
  {
    if kind != Repeater {
      return if |subFields| > 0 then Some(Unexpected) else None;
    }
    if |subFields| == 0 {
      return Some(Required);
    }
    var taken: set<string> := {};
    for i := 0 to |subFields|
      invariant taken == set k | 0 <= k < i :: subFields[k].name
      invariant forall k :: 0 <= k < i ==> GoodSubField(subFields[k])
      invariant forall j, k :: 0 <= j < k < i ==> subFields[j].name != subFields[k].name
    {
      var column := subFields[i];
      ghost var here := i;
      assert GoodBefore(subFields, here);
      if !NameMatches(column.name) {
        assert WrongWith(NameInvalid, subFields, here);
        return Some(NameInvalid);
      }
      if column.name == ENTRY_ID_KEY {
        assert WrongWith(NameReserved, subFields, here);
        return Some(NameReserved);
      }
      if column.name in taken {
        assert WrongWith(NameTaken, subFields, here);
        return Some(NameTaken);
      }
      if column.kind == Repeater {
        assert WrongWith(Nested, subFields, here);
        return Some(Nested);
      }
      taken := taken + {column.name};
    }
    return None;
  }
}
