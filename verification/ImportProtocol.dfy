/**
 Committing one import: any number of commits at once, each of which may stop
 anywhere, over rows, a mapping and the identities contacts own.
 */
module ImportProtocol {
  import opened Wrappers
  import opened Clocks

  type Field = string

  const CONTACT_NAME: Field := "name"
  const EMAIL: Field := "email"
  const PHONE: Field := "phone"

  predicate Core(field: Field) { field in {CONTACT_NAME, EMAIL, PHONE} }

  /** Which field each column feeds, by the column's decimal index. */
  type Mapping = map<string, Field>

  /** What a contact is reached under: a channel and an identifier, as they are stored. */
  datatype Identity = Identity(channel: Field, identifier: string)

  datatype Outcome = Pending | Imported | Skipped | Failed

  datatype Row = Row(cells: seq<string>, unreadable: bool, outcome: Outcome, contact: Option<nat>)

  datatype State = Ready | Committing | Committed

  datatype Counts = Counts(imported: nat, skipped: nat, failed: nat)

  datatype Import = Import(state: State, mapping: Mapping, rowCount: nat, rows: seq<Row>, counts: Counts)

  /** Empty unless the index reads as the place of a cell. */
  function CellAt(cells: seq<string>, column: string): string {
    var position := ParseInt64(column);
    if position.None? || position.value < 0 || position.value >= |cells| then "" else cells[position.value]
  }

  /** One identity for every filled cell whose column feeds a channel. */
  function IdentitiesOf(cells: seq<string>, mapping: Mapping): set<Identity> {
    set column | column in mapping && CellAt(cells, column) != ""
                 && Core(mapping[column]) && mapping[column] != CONTACT_NAME ::
      Identity(mapping[column], CellAt(cells, column))
  }

  predicate Named(cells: seq<string>, mapping: Mapping) {
    exists column :: column in mapping && mapping[column] == CONTACT_NAME && CellAt(cells, column) != ""
  }

  /** A row with a name and at least one identity. */
  predicate Usable(cells: seq<string>, mapping: Mapping) {
    Named(cells, mapping) && IdentitiesOf(cells, mapping) != {}
  }

  // The statements.

  /**
   Answers the mapping a commit is to work under; there is none without a mapping, nor
   once the import is committed.
   */
  function Claim(i: Import): (Import, Option<Mapping>) {
    if i.state.Committed? then (i, None)
    else if i.mapping == map[] then (i.(state := Ready), None)
    else (i.(state := Committing), Some(i.mapping))
  }

  function UpdateMapping(i: Import, mapping: Mapping): (Import, bool) {
    if i.state.Ready? then (i.(mapping := mapping), true) else (i, false)
  }

  /** Records an outcome, whatever the row held before. */
  function SettleRow(i: Import, row: nat, outcome: Outcome, contact: Option<nat>): Import
    requires row < |i.rows|
  {
    i.(rows := i.rows[row := i.rows[row].(outcome := outcome, contact := contact)])
  }

  function PendingRows(rows: seq<Row>): (pending: seq<nat>)
    ensures forall row: nat :: row in pending <==> row < |rows| && rows[row].outcome.Pending?
  {
    if rows == [] then []
    else
      var n := |rows| - 1;
      var front := PendingRows(rows[..n]);
      if rows[n].outcome.Pending? then front + [n] else front
  }

  function CountOf(rows: seq<Row>, outcome: Outcome): nat {
    if rows == [] then 0 else CountOf(rows[..|rows| - 1], outcome) + if rows[|rows| - 1].outcome == outcome then 1 else 0
  }

  function PlacesOf(rows: seq<Row>, outcome: Outcome): set<nat> {
    set i: nat | i < |rows| && rows[i].outcome == outcome
  }

  lemma PlacesOfMore(rows: seq<Row>, outcome: Outcome)
    requires rows != []
    ensures var n := |rows| - 1;
      && PlacesOf(rows, outcome) == PlacesOf(rows[..n], outcome) + (if rows[n].outcome == outcome then {n} else {})
      && n !in PlacesOf(rows[..n], outcome)
  {
  }

  /** A count is the number of places where rows have the outcome. */
  lemma {:induction false} CountOfIsSize(rows: seq<Row>, outcome: Outcome)
    ensures CountOf(rows, outcome) == |PlacesOf(rows, outcome)|
  {
    if rows != [] {
      PlacesOfMore(rows, outcome);
      hide PlacesOf;
      CountOfIsSize(rows[..|rows| - 1], outcome);
    } else {
      assert PlacesOf(rows, outcome) == {};
    }
  }

  /** Pending rows are read each once, in the order they stand. */
  lemma {:induction false} PendingInOrder(rows: seq<Row>)
    ensures forall i, j :: 0 <= i < j < |PendingRows(rows)| ==> PendingRows(rows)[i] < PendingRows(rows)[j]
  {
    if rows != [] {
      var front := PendingRows(rows[..|rows| - 1]);
      PendingInOrder(rows[..|rows| - 1]);
      assert forall i :: 0 <= i < |front| ==> front[i] in front;
    }
  }

  function Finish(i: Import): Import {
    i.(state := Committed, counts := Counts(CountOf(i.rows, Imported), CountOf(i.rows, Skipped), CountOf(i.rows, Failed)))
  }

  // The whole system.

  /** What a commit is at: reading the pending rows, one of them, or done with all. */
  datatype Step =
    | Reading
    | Next
    | Finding(row: nat, left: set<Identity>)
    | Creating(row: nat)
    | Writing(row: nat, created: nat)
    | Settling(row: nat, outcome: Outcome, contact: Option<nat>)
    | Finished

  datatype Commit = Commit(mapping: Mapping, left: seq<nat>, step: Step)

  /** `owners` is who owns each identity, `made` the contacts created for each row, `contacts` how many there are. */
  datatype Sys = Sys(
    job: Import, owners: map<Identity, nat>, contacts: nat, made: map<nat, set<nat>>, commits: map<nat, Commit>)
  {
    function MadeFor(row: nat): set<nat> { if row in made then made[row] else {} }
  }

  datatype Action =
    | SetMapping(mapping: Mapping)
    | Begin(c: nat)
    | Read(c: nat)
    | Take(c: nat)
    | Refuse(c: nat)
    | Find(c: nat, identity: Identity)
    | NoneFound(c: nat)
    | Create(c: nat, taken: Option<Identity>)
    | Wrote(c: nat)
    | Settle(c: nat)
    | End(c: nat)
    | Stop(c: nat)
    | Own(identity: Identity, contact: nat)

  predicate At(s: Sys, c: nat) { c in s.commits }

  /** Creating names an identity of the row already owned, or there is none. */
  predicate CanCreate(s: Sys, c: nat, taken: Option<Identity>)
    requires At(s, c) && s.commits[c].step.Creating?
  {
    && s.commits[c].step.row < |s.job.rows|
    && var identities := IdentitiesOf(s.job.rows[s.commits[c].step.row].cells, s.commits[c].mapping);
    if taken.Some? then taken.value in identities && taken.value in s.owners else identities !! s.owners.Keys
  }

  predicate Enabled(s: Sys, a: Action) {
    match a
    case SetMapping(mapping) => mapping != map[]
    case Begin(c) => c !in s.commits
    case Read(c) => At(s, c) && s.commits[c].step.Reading?
    case Take(c) => At(s, c) && s.commits[c].step.Next? && s.commits[c].left != [] && s.commits[c].left[0] < |s.job.rows|
    case Refuse(c) =>
      At(s, c) && (s.commits[c].step.Finding? || s.commits[c].step.Creating? || s.commits[c].step.Writing?)
    case Find(c, identity) => At(s, c) && s.commits[c].step.Finding? && identity in s.commits[c].step.left
    case NoneFound(c) => At(s, c) && s.commits[c].step.Finding? && s.commits[c].step.left == {}
    case Create(c, taken) => At(s, c) && s.commits[c].step.Creating? && CanCreate(s, c, taken)
    case Wrote(c) => At(s, c) && s.commits[c].step.Writing?
    case Settle(c) => At(s, c) && s.commits[c].step.Settling? && s.commits[c].step.row < |s.job.rows|
    case End(c) => At(s, c) && s.commits[c].step.Next? && s.commits[c].left == []
    case Stop(c) => At(s, c)
    case Own(identity, contact) => identity !in s.owners && contact < s.contacts
  }

  function Moved(s: Sys, c: nat, step: Step): Sys
    requires c in s.commits
  {
    s.(commits := s.commits[c := s.commits[c].(step := step)])
  }

  /** The first row left: failed at once when it does not read or is not usable, else looked up by its identities. */
  function AfterTake(s: Sys, c: nat): Sys
    requires Enabled(s, Take(c))
  {
    var commit := s.commits[c];
    var row := commit.left[0];
    var cells := s.job.rows[row].cells;
    var step :=
      if s.job.rows[row].unreadable || !Usable(cells, commit.mapping) then Settling(row, Failed, None)
      else Finding(row, IdentitiesOf(cells, commit.mapping));
    s.(commits := s.commits[c := Commit(commit.mapping, commit.left[1..], step)])
  }

  /** Stores a contact owning every identity of the row, or leaves everything as it was when one is owned. */
  function AfterCreate(s: Sys, c: nat, taken: Option<Identity>): Sys
    requires Enabled(s, Create(c, taken))
  {
    var commit := s.commits[c];
    var row := commit.step.row;
    if taken.Some? then Moved(s, c, Settling(row, Skipped, Some(s.owners[taken.value])))
    else
      var identities := IdentitiesOf(s.job.rows[row].cells, commit.mapping);
      Moved(s, c, Writing(row, s.contacts)).(
        owners := map identity | identity in s.owners.Keys + identities ::
          if identity in identities then s.contacts else s.owners[identity],
        contacts := s.contacts + 1,
        made := s.made[row := s.MadeFor(row) + {s.contacts}])
  }

  function AfterBegin(s: Sys, c: nat): Sys {
    var (job, mapping) := Claim(s.job);
    s.(job := job, commits := if mapping.Some? then s.commits[c := Commit(mapping.value, [], Reading)] else s.commits)
  }

  function AfterSettle(s: Sys, c: nat): Sys
    requires Enabled(s, Settle(c))
  {
    var step := s.commits[c].step;
    Moved(s, c, Next).(job := SettleRow(s.job, step.row, step.outcome, step.contact))
  }

  function Apply(s: Sys, a: Action): Sys
    requires Enabled(s, a)
  {
    match a
    case SetMapping(mapping) => s.(job := UpdateMapping(s.job, mapping).0)
    case Begin(c) => AfterBegin(s, c)
    case Read(c) => s.(commits := s.commits[c := Commit(s.commits[c].mapping, PendingRows(s.job.rows), Next)])
    case Take(c) => AfterTake(s, c)
    case Refuse(c) => Moved(s, c, Settling(s.commits[c].step.row, Failed, None))
    case Find(c, identity) =>
      var step := s.commits[c].step;
      Moved(s, c, if identity in s.owners then Settling(step.row, Skipped, Some(s.owners[identity]))
                  else Finding(step.row, step.left - {identity}))
    case NoneFound(c) => Moved(s, c, Creating(s.commits[c].step.row))
    case Create(c, taken) => AfterCreate(s, c, taken)
    case Wrote(c) => Moved(s, c, Settling(s.commits[c].step.row, Imported, Some(s.commits[c].step.created)))
    case Settle(c) => AfterSettle(s, c)
    case End(c) => Moved(s, c, Finished).(job := Finish(s.job))
    case Stop(c) => s.(commits := s.commits - {c})
    case Own(identity, contact) => s.(owners := s.owners[identity := contact])
  }

  /** An import just uploaded: nothing assigned, every row pending. */
  predicate Start(s: Sys) {
    && s.job.state.Ready? && s.job.mapping == map[] && s.job.rowCount == |s.job.rows|
    && (forall i :: 0 <= i < |s.job.rows| ==> s.job.rows[i].outcome.Pending? && s.job.rows[i].contact == None)
    && (forall identity :: identity in s.owners ==> s.owners[identity] < s.contacts)
    && s.made == map[] && s.commits == map[]
  }
}
