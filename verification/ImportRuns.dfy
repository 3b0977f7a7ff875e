/** Whole runs of an import: the mapping stays, outcomes stay, counts add up, and no row makes two contacts. */
module ImportRuns {
  import opened Wrappers
  import opened Clocks
  import opened ImportProtocol
  import opened ImportSafety

  ghost predicate IsRun(states: seq<Sys>, actions: seq<Action>) {
    && |states| == |actions| + 1
    && Start(states[0])
    && forall i :: 0 <= i < |actions| ==> Steps(states[i], actions[i], states[i + 1])
  }

  predicate Steps(s: Sys, a: Action, s': Sys) { Enabled(s, a) && s' == Apply(s, a) }

  lemma {:induction false} RunHolds(states: seq<Sys>, actions: seq<Action>, i: nat)
    requires IsRun(states, actions) && i < |states|
    ensures Inv(states[i])
  {
    hide Inv, Apply, Enabled;
    if i == 0 {
      StartHolds(states[0]);
    } else {
      RunHolds(states, actions, i - 1);
      assert Steps(states[i - 1], actions[i - 1], states[i]);
      StepHolds(states[i - 1], actions[i - 1]);
    }
  }

  /** An import past ready keeps its mapping, and a settled row stays settled. */
  predicate Grows(job: Import, job': Import) {
    && |job'.rows| == |job.rows| && job'.rowCount == job.rowCount
    && (!job.state.Ready? ==> !job'.state.Ready? && job'.mapping == job.mapping)
    && forall row :: 0 <= row < |job.rows| ==>
         && job'.rows[row].cells == job.rows[row].cells
         && (!job.rows[row].outcome.Pending? ==> !job'.rows[row].outcome.Pending?)
  }

  lemma StepGrows(s: Sys, a: Action)
    requires Inv(s) && Enabled(s, a)
    ensures Grows(s.job, Apply(s, a).job)
  {
    hide Usable, IdentitiesOf, MadeSound, RowSound, CountOf;
    if a.Settle? { assert CommitSound(s, s.commits[a.c]); }
  }

  lemma {:induction false} RunGrows(states: seq<Sys>, actions: seq<Action>, i: nat, j: nat)
    requires IsRun(states, actions) && i <= j < |states|
    ensures Grows(states[i].job, states[j].job)
  {
    hide Inv, Apply, Enabled;
    if i < j {
      RunGrows(states, actions, i, j - 1);
      RunHolds(states, actions, j - 1);
      assert Steps(states[j - 1], actions[j - 1], states[j]);
      StepGrows(states[j - 1], actions[j - 1]);
    }
  }

  /** From the moment an import is committing its mapping is fixed and names something. */
  lemma MappingFixed(states: seq<Sys>, actions: seq<Action>, i: nat, j: nat)
    requires IsRun(states, actions) && i <= j < |states| && !states[i].job.state.Ready?
    ensures !states[j].job.state.Ready? && states[j].job.mapping == states[i].job.mapping != map[]
  {
    RunGrows(states, actions, i, j);
    RunHolds(states, actions, i);
  }

  /** A mapping is taken exactly while the import is ready. */
  lemma MappingTakenExactly(states: seq<Sys>, actions: seq<Action>, i: nat, mapping: Mapping)
    requires IsRun(states, actions) && i < |actions| && actions[i] == SetMapping(mapping)
    ensures states[i + 1].job ==
      if states[i].job.state.Ready? then states[i].job.(mapping := mapping) else states[i].job
  {
    assert Steps(states[i], actions[i], states[i + 1]);
  }

  /** A commit gets under way exactly when the import has a mapping and is not committed, and works under that mapping. */
  lemma CommitBeginsExactly(states: seq<Sys>, actions: seq<Action>, i: nat, c: nat)
    requires IsRun(states, actions) && i < |actions| && actions[i] == Begin(c)
    ensures c in states[i + 1].commits <==> !states[i].job.state.Committed? && states[i].job.mapping != map[]
    ensures c in states[i + 1].commits ==>
      && states[i + 1].job == states[i].job.(state := Committing)
      && states[i + 1].commits[c] == Commit(states[i].job.mapping, [], Reading)
    ensures states[i + 1].job.rows == states[i].job.rows && states[i + 1].job.mapping == states[i].job.mapping
    ensures states[i].job.state.Committed? ==> states[i + 1].job == states[i].job
  {
    assert Steps(states[i], actions[i], states[i + 1]);
  }

  /** No settled row returns to pending. */
  lemma SettledStays(states: seq<Sys>, actions: seq<Action>, i: nat, j: nat, row: nat)
    requires IsRun(states, actions) && i <= j < |states| && row < |states[i].job.rows|
    requires !states[i].job.rows[row].outcome.Pending?
    ensures row < |states[j].job.rows| && !states[j].job.rows[row].outcome.Pending?
  {
    RunGrows(states, actions, i, j);
  }

  lemma {:induction false} CountsAddUp(rows: seq<Row>)
    ensures CountOf(rows, Imported) + CountOf(rows, Skipped) + CountOf(rows, Failed) + CountOf(rows, Pending) == |rows|
    ensures (forall i :: 0 <= i < |rows| ==> !rows[i].outcome.Pending?) ==> CountOf(rows, Pending) == 0
  {
    if rows != [] { CountsAddUp(rows[..|rows| - 1]); }
  }

  /** Whenever a commit finishes, the rows imported, skipped and failed are all there were. */
  lemma FinishConserves(states: seq<Sys>, actions: seq<Action>, i: nat)
    requires IsRun(states, actions) && i < |actions| && actions[i].End?
    ensures var job := states[i + 1].job;
      && job.state == Committed
      && job.counts.imported + job.counts.skipped + job.counts.failed == job.rowCount == |states[0].job.rows|
  {
    assert Steps(states[i], actions[i], states[i + 1]);
    RunHolds(states, actions, i);
    RunGrows(states, actions, 0, i);
    assert CommitSound(states[i], states[i].commits[actions[i].c]);
    CountsAddUp(states[i].job.rows);
  }

  /** No row ever has two contacts made for it, and imported rows carry contacts made for them alone. */
  lemma OneContactPerRow(states: seq<Sys>, actions: seq<Action>, i: nat, row: nat, row': nat)
    requires IsRun(states, actions) && i < |states| && row < |states[i].job.rows| && row' < |states[i].job.rows|
    ensures |states[i].MadeFor(row)| <= 1
    ensures states[i].job.rows[row].outcome.Imported? && states[i].job.rows[row'].outcome.Imported? && row != row' ==>
      states[i].job.rows[row].contact != states[i].job.rows[row'].contact
  {
    RunHolds(states, actions, i);
    var s := states[i];
    assert RowSound(s, row) && RowSound(s, row');
    assert row in s.made ==> MadeSound(s, row, s.made[row]);
  }

  // A commit that settles late.

  /** The counts an import keeps are those of its rows. */
  predicate Tallied(job: Import) {
    job.counts == Counts(CountOf(job.rows, Imported), CountOf(job.rows, Skipped), CountOf(job.rows, Failed))
  }

  lemma {:induction false} Recounted(rows: seq<Row>, at: nat, row: Row, outcome: Outcome)
    requires at < |rows|
    ensures CountOf(rows[at := row], outcome) ==
      CountOf(rows, outcome) - (if rows[at].outcome == outcome then 1 else 0) + (if row.outcome == outcome then 1 else 0)
  {
    var n := |rows| - 1;
    if at < n {
      assert rows[at := row][..n] == rows[..n][at := row];
      Recounted(rows[..n], at, row, outcome);
    } else {
      assert rows[at := row][..n] == rows[..n];
    }
  }

  /** Finishing tallies; settling a row again keeps the tally exactly when it repeats the outcome. */
  lemma LateSettle(job: Import, row: nat, outcome: Outcome, contact: Option<nat>)
    requires row < |job.rows| && outcome != Pending && job.rows[row].outcome != Pending
    ensures Tallied(Finish(job))
    ensures Tallied(job) ==> (Tallied(SettleRow(job, row, outcome, contact)) <==> outcome == job.rows[row].outcome)
  {
    var settled := job.rows[row].(outcome := outcome, contact := contact);
    Recounted(job.rows, row, settled, Imported);
    Recounted(job.rows, row, settled, Skipped);
    Recounted(job.rows, row, settled, Failed);
  }

  /** Not a settle that gives a row another outcome. */
  predicate Repeats(s: Sys, a: Action) {
    a.Settle? && Enabled(s, a) ==> s.commits[a.c].step.outcome == s.job.rows[s.commits[a.c].step.row].outcome
  }

  /** Committed, with no row left to settle. */
  predicate Closed(job: Import) {
    job.state.Committed? && forall row :: 0 <= row < |job.rows| ==> !job.rows[row].outcome.Pending?
  }

  lemma EndCloses(s: Sys, c: nat)
    requires Inv(s) && Enabled(s, End(c))
    ensures Closed(Apply(s, End(c)).job) && Tallied(Apply(s, End(c)).job)
  {
    hide StepSound, Usable, MadeSound, RowSound, CountOf;
    assert CommitSound(s, s.commits[c]);
  }

  lemma ClosedSettle(s: Sys, c: nat)
    requires Inv(s) && Enabled(s, Settle(c)) && Closed(s.job)
    ensures Closed(AfterSettle(s, c).job)
    ensures Tallied(s.job) ==> (Tallied(AfterSettle(s, c).job) <==> Repeats(s, Settle(c)))
  {
    hide Usable, IdentitiesOf, MadeSound, RowSound, CountOf;
    var step := s.commits[c].step;
    assert CommitSound(s, s.commits[c]);
    LateSettle(s.job, step.row, step.outcome, step.contact);
  }

  lemma ClosedStep(s: Sys, a: Action)
    requires Inv(s) && Enabled(s, a) && Closed(s.job)
    ensures Closed(Apply(s, a).job)
    ensures Tallied(s.job) ==> (Tallied(Apply(s, a).job) <==> Repeats(s, a))
  {
    hide Inv, Usable, IdentitiesOf, CountOf, CanCreate;
    if a.Settle? {
      ClosedSettle(s, a.c);
    }
  }

  lemma {:induction false} ClosedStays(states: seq<Sys>, actions: seq<Action>, i: nat, j: nat)
    requires IsRun(states, actions) && i < j < |states| && actions[i].End?
    ensures Closed(states[j].job)
  {
    hide Inv, Closed, Apply, Enabled;
    RunHolds(states, actions, j - 1);
    assert Steps(states[j - 1], actions[j - 1], states[j]);
    if j == i + 1 {
      EndCloses(states[i], actions[i].c);
    } else {
      ClosedStays(states, actions, i, j - 1);
      ClosedStep(states[j - 1], actions[j - 1]);
    }
  }

  /**
   After an import finished its counts are those of its rows as long as each row settled
   again gets its own outcome again, and no longer once one gets another.
   */
  lemma {:induction false} TalliedWhileRepeated(states: seq<Sys>, actions: seq<Action>, i: nat, j: nat)
    requires IsRun(states, actions) && i < j < |states| && actions[i].End?
    requires forall k :: i < k < j ==> Repeats(states[k], actions[k])
    ensures Tallied(states[j].job)
    ensures j < |actions| ==> (Tallied(states[j + 1].job) <==> Repeats(states[j], actions[j]))
  {
    hide Inv, Closed, Tallied, Repeats, Apply, Enabled;
    RunHolds(states, actions, j - 1);
    assert Steps(states[j - 1], actions[j - 1], states[j]);
    if j == i + 1 {
      EndCloses(states[i], actions[i].c);
    } else {
      TalliedWhileRepeated(states, actions, i, j - 1);
    }
    if j < |actions| {
      RunHolds(states, actions, j);
      ClosedStays(states, actions, i, j);
      assert Steps(states[j], actions[j], states[j + 1]);
      ClosedStep(states[j], actions[j]);
    }
  }

  /** Neither between listing its rows and settling the last of them. */
  predicate Idle(commit: Commit) {
    commit.step.Reading? || commit.step.Finished? || (commit.step.Next? && commit.left == [])
  }

  predicate AllIdle(s: Sys) { forall c :: c in s.commits ==> Idle(s.commits[c]) }

  lemma NonePending(rows: seq<Row>)
    requires forall row :: 0 <= row < |rows| ==> !rows[row].outcome.Pending?
    ensures PendingRows(rows) == []
  {
    if PendingRows(rows) != [] { assert PendingRows(rows)[0] in PendingRows(rows); }
  }

  lemma IdleStep(s: Sys, a: Action)
    requires Enabled(s, a) && Closed(s.job) && AllIdle(s)
    ensures AllIdle(Apply(s, a)) && Repeats(s, a)
  {
    hide CountOf, PendingRows, Usable, IdentitiesOf, CanCreate;
    if a.Read? { NonePending(s.job.rows); }
    if a.End? || a.Read? || a.Stop? { assert Idle(s.commits[a.c]); }
  }

  lemma {:induction false} IdleStays(states: seq<Sys>, actions: seq<Action>, i: nat, j: nat)
    requires IsRun(states, actions) && i < j < |states| && actions[i].End? && AllIdle(states[i])
    ensures AllIdle(states[j]) && forall k :: i < k < j ==> Repeats(states[k], actions[k])
  {
    hide Inv, Closed, AllIdle, Repeats, Apply, Enabled;
    assert Steps(states[j - 1], actions[j - 1], states[j]);
    if j == i + 1 {
      EndIdle(states[i], actions[i]);
    } else {
      IdleStays(states, actions, i, j - 1);
      ClosedStays(states, actions, i, j - 1);
      IdleStep(states[j - 1], actions[j - 1]);
    }
  }

  lemma EndIdle(s: Sys, a: Action)
    requires Enabled(s, a) && a.End? && AllIdle(s)
    ensures AllIdle(Apply(s, a))
  {
    hide CountOf;
  }

  /** An import that finishes while no other commit holds rows it listed keeps its counts those of its rows for ever. */
  lemma TalliedWhenAlone(states: seq<Sys>, actions: seq<Action>, i: nat, j: nat)
    requires IsRun(states, actions) && i < j < |states| && actions[i].End? && AllIdle(states[i])
    ensures Tallied(states[j].job)
  {
    hide AllIdle, Repeats, Apply, Enabled, Tallied;
    IdleStays(states, actions, i, j);
    TalliedWhileRepeated(states, actions, i, j);
  }

  // A run whose counts end wrong.

  lemma StepOn(states: seq<Sys>, actions: seq<Action>, a: Action, s': Sys)
    requires IsRun(states, actions) && Steps(states[|states| - 1], a, s')
    ensures IsRun(states + [s'], actions + [a])
  {
    hide Steps, Start;
    var states', actions' := states + [s'], actions + [a];
    forall i | 0 <= i < |actions'| ensures Steps(states'[i], actions'[i], states'[i + 1]) {
      if i < |actions| { assert Steps(states[i], actions[i], states[i + 1]); }
    }
  }

  const NAME_COLUMN := Padded(0, 1)
  const EMAIL_COLUMN := Padded(1, 1)
  const MAPPED: Mapping := map[NAME_COLUMN := CONTACT_NAME, EMAIL_COLUMN := EMAIL]
  const CELLS := ["Ann", "ann@example.org"]
  const ANN := Identity(EMAIL, CELLS[1])

  lemma AnnUsable()
    ensures Usable(CELLS, MAPPED) && IdentitiesOf(CELLS, MAPPED) == {ANN} && MAPPED != map[]
  {
    NumberReadsBack(0);
    NumberReadsBack(1);
    hide ParseInt64, Padded;
    assert CellAt(CELLS, NAME_COLUMN) == "Ann" && CellAt(CELLS, EMAIL_COLUMN) == CELLS[1];
    assert NAME_COLUMN in MAPPED && EMAIL_COLUMN in MAPPED;
    assert ANN in IdentitiesOf(CELLS, MAPPED);
  }

  function AnnJob(state: State, mapping: Mapping, outcome: Outcome, contact: Option<nat>, imported: nat): Import {
    Import(state, mapping, 1, [Row(CELLS, false, outcome, contact)], Counts(imported, 0, 0))
  }

  /** Both commits under way. */
  function Both(job: Import, owned: bool, first: Commit, second: Commit): Sys {
    Sys(job, if owned then map[ANN := 0] else map[], if owned then 1 else 0, if owned then map[0 := {0}] else map[],
        map[0 := first, 1 := second])
  }

  function Stepped(left: seq<nat>, step: Step): Commit { Commit(MAPPED, left, step) }

  lemma BothListed() returns (states: seq<Sys>, actions: seq<Action>)
    ensures IsRun(states, actions)
    ensures states[|states| - 1] ==
      Both(AnnJob(Committing, MAPPED, Pending, None, 0), false, Stepped([0], Next), Stepped([0], Next))
  {
    AnnUsable();
    hide MAPPED, CELLS, Usable, IdentitiesOf, Named, CellAt;
    var start := Sys(AnnJob(Ready, map[], Pending, None, 0), map[], 0, map[], map[]);
    var job := AnnJob(Committing, MAPPED, Pending, None, 0);
    var reading := Stepped([], Reading);
    states, actions := [start], [];
    states, actions := Stepping(states, actions, SetMapping(MAPPED), start.(job := AnnJob(Ready, MAPPED, Pending, None, 0)));
    states, actions := Stepping(states, actions, Begin(0), start.(job := job, commits := map[0 := reading]));
    states, actions := Stepping(states, actions, Begin(1), Both(job, false, reading, reading));
    OnePending(job.rows);
    hide PendingRows;
    states, actions := Stepping(states, actions, Read(0), Both(job, false, Stepped([0], Next), reading));
    states, actions := Stepping(states, actions, Read(1), Both(job, false, Stepped([0], Next), Stepped([0], Next)));
  }

  lemma OnePending(rows: seq<Row>)
    requires |rows| == 1 && rows[0].outcome.Pending?
    ensures PendingRows(rows) == [0]
  {
    assert rows[..0] == [] && PendingRows(rows[..0]) == [];
  }

  lemma Stepping(states: seq<Sys>, actions: seq<Action>, a: Action, s': Sys)
    returns (states': seq<Sys>, actions': seq<Action>)
    requires IsRun(states, actions) && Steps(states[|states| - 1], a, s')
    ensures IsRun(states', actions') && states'[|states'| - 1] == s'
    ensures actions' == actions + [a] && states' == states + [s']
  {
    StepOn(states, actions, a, s');
    states', actions' := states + [s'], actions + [a];
  }

  lemma OneMoves(job: Import, owned: bool, first: Commit, second: Commit, other: Commit)
    ensures var s := Both(job, owned, first, second);
      && s.(commits := s.commits[0 := other]) == Both(job, owned, other, second)
      && s.(commits := s.commits[1 := other]) == Both(job, owned, first, other)
  {
  }

  lemma TakesUp(job: Import, owned: bool, other: Commit)
    requires |job.rows| == 1 && job.rows[0].cells == CELLS && !job.rows[0].unreadable
    ensures var listed, finding := Stepped([0], Next), Stepped([], Finding(0, {ANN}));
      && Steps(Both(job, owned, listed, other), Take(0), Both(job, owned, finding, other))
      && Steps(Both(job, owned, other, listed), Take(1), Both(job, owned, other, finding))
  {
    AnnUsable();
    hide MAPPED, CELLS, Usable, IdentitiesOf;
    var listed, finding := Stepped([0], Next), Stepped([], Finding(0, {ANN}));
    assert [0][1..] == [];
    OneMoves(job, owned, listed, other, finding);
    OneMoves(job, owned, other, listed, finding);
  }

  /** Nobody owns the row's identity. */
  lemma FirstLooks(job: Import, second: Commit)
    ensures Steps(Both(job, false, Stepped([], Finding(0, {ANN})), second), Find(0, ANN),
                  Both(job, false, Stepped([], Finding(0, {})), second))
    ensures Steps(Both(job, false, Stepped([], Finding(0, {})), second), NoneFound(0),
                  Both(job, false, Stepped([], Creating(0)), second))
  {
    hide MAPPED, CELLS, CanCreate, AfterBegin, AfterTake, AfterCreate, AfterSettle, PendingRows, Finish;
    assert {ANN} - {ANN} == {};
    OneMoves(job, false, Stepped([], Finding(0, {ANN})), second, Stepped([], Finding(0, {})));
    OneMoves(job, false, Stepped([], Finding(0, {})), second, Stepped([], Creating(0)));
  }

  lemma FirstCreates(job: Import, second: Commit)
    requires |job.rows| == 1 && job.rows[0].cells == CELLS
    ensures Steps(Both(job, false, Stepped([], Creating(0)), second), Create(0, None),
                  Both(job, true, Stepped([], Writing(0, 0)), second))
  {
    AnnUsable();
    hide MAPPED, CELLS, Usable, IdentitiesOf;
    var empty: map<Identity, nat> := map[];
    assert (map identity | identity in empty.Keys + {ANN} :: if identity in {ANN} then 0 else empty[identity]) == map[ANN := 0];
    var nobody: set<nat> := {};
    assert nobody + {0} == {0};
    OneMoves(job, true, Stepped([], Creating(0)), second, Stepped([], Writing(0, 0)));
  }

  lemma FirstWrites(job: Import, second: Commit)
    ensures Steps(Both(job, true, Stepped([], Writing(0, 0)), second), Wrote(0),
                  Both(job, true, Stepped([], Settling(0, Imported, Some(0))), second))
  {
    hide MAPPED, CELLS, CanCreate, AfterBegin, AfterTake, AfterCreate, AfterSettle, PendingRows, Finish;
    OneMoves(job, true, Stepped([], Writing(0, 0)), second, Stepped([], Settling(0, Imported, Some(0))));
  }

  lemma FirstEnds(imported: Import, second: Commit)
    requires imported == AnnJob(Committing, MAPPED, Imported, Some(0), 0)
    ensures Steps(Both(AnnJob(Committing, MAPPED, Pending, None, 0), true, Stepped([], Settling(0, Imported, Some(0))), second),
                  Settle(0), Both(imported, true, Stepped([], Next), second))
    ensures Steps(Both(imported, true, Stepped([], Next), second), End(0),
                  Both(AnnJob(Committed, MAPPED, Imported, Some(0), 1), true, Stepped([], Finished), second))
  {
    hide MAPPED, CELLS;
    OneCounted(imported.rows);
    OneMoves(imported, true, Stepped([], Settling(0, Imported, Some(0))), second, Stepped([], Next));
    OneMoves(imported, true, Stepped([], Next), second, Stepped([], Finished));
  }

  lemma SecondSkips(ended: Import, first: Commit)
    requires ended == AnnJob(Committed, MAPPED, Imported, Some(0), 1)
    ensures Steps(Both(ended, true, first, Stepped([], Finding(0, {ANN}))), Find(1, ANN),
                  Both(ended, true, first, Stepped([], Settling(0, Skipped, Some(0)))))
    ensures Steps(Both(ended, true, first, Stepped([], Settling(0, Skipped, Some(0)))), Settle(1),
                  Both(AnnJob(Committed, MAPPED, Skipped, Some(0), 1), true, first, Stepped([], Next)))
  {
    hide MAPPED, CELLS;
    OneMoves(ended, true, first, Stepped([], Finding(0, {ANN})), Stepped([], Settling(0, Skipped, Some(0))));
    OneMoves(ended, true, first, Stepped([], Settling(0, Skipped, Some(0))), Stepped([], Next));
  }

  /** The first of two commits creates the row's contact and finishes the import. */
  lemma FirstFinishes() returns (states: seq<Sys>, actions: seq<Action>)
    ensures IsRun(states, actions) && actions != [] && actions[|actions| - 1].End?
    ensures states[|states| - 1] ==
      Both(AnnJob(Committed, MAPPED, Imported, Some(0), 1), true, Stepped([], Finished), Stepped([0], Next))
  {
    states, actions := BothListed();
    hide *;
    var job, second := AnnJob(Committing, MAPPED, Pending, None, 0), Stepped([0], Next);
    assert |job.rows| == 1 && job.rows[0].cells == CELLS && !job.rows[0].unreadable by { AnnRow(Committing, Pending, None, 0); }
    TakesUp(job, false, second);
    states, actions := Stepping(states, actions, Take(0), Both(job, false, Stepped([], Finding(0, {ANN})), second));
    FirstLooks(job, second);
    FirstCreates(job, second);
    FirstWrites(job, second);
    states, actions := Stepping(states, actions, Find(0, ANN), Both(job, false, Stepped([], Finding(0, {})), second));
    states, actions := Stepping(states, actions, NoneFound(0), Both(job, false, Stepped([], Creating(0)), second));
    states, actions := Stepping(states, actions, Create(0, None), Both(job, true, Stepped([], Writing(0, 0)), second));
    states, actions := Stepping(states, actions, Wrote(0), Both(job, true, Stepped([], Settling(0, Imported, Some(0))), second));
    var imported := AnnJob(Committing, MAPPED, Imported, Some(0), 0);
    FirstEnds(imported, second);
    states, actions := Stepping(states, actions, Settle(0), Both(imported, true, Stepped([], Next), second));
    var ended := AnnJob(Committed, MAPPED, Imported, Some(0), 1);
    states, actions := Stepping(states, actions, End(0), Both(ended, true, Stepped([], Finished), second));
  }

  lemma AnnRow(state: State, outcome: Outcome, contact: Option<nat>, imported: nat)
    ensures var job := AnnJob(state, MAPPED, outcome, contact, imported);
      |job.rows| == 1 && job.rows[0].cells == CELLS && !job.rows[0].unreadable
  {
  }

  /** The first commit finishes with one contact imported; the second, which listed the row before, then skips it. */
  lemma CountsGoStale() returns (states: seq<Sys>, actions: seq<Action>, end: nat)
    ensures IsRun(states, actions) && end < |actions| && actions[end].End?
    ensures var job := states[|states| - 1].job;
      && job.state.Committed? && job.counts == Counts(1, 0, 0)
      && |job.rows| == 1 && job.rows[0].outcome == Skipped && !Tallied(job)
  {
    states, actions := FirstFinishes();
    end := |actions| - 1;
    hide IsRun, Steps, MAPPED, CELLS, Both, Stepped;
    var ended, first := AnnJob(Committed, MAPPED, Imported, Some(0), 1), Stepped([], Finished);
    TakesUp(ended, true, first);
    states, actions := Stepping(states, actions, Take(1), Both(ended, true, first, Stepped([], Finding(0, {ANN}))));
    SecondSkips(ended, first);
    states, actions := Stepping(states, actions, Find(1, ANN), Both(ended, true, first, Stepped([], Settling(0, Skipped, Some(0)))));
    var late := AnnJob(Committed, MAPPED, Skipped, Some(0), 1);
    states, actions := Stepping(states, actions, Settle(1), Both(late, true, first, Stepped([], Next)));
    OneCounted(late.rows);
    JobOf(late, true, first, Stepped([], Next));
  }

  lemma JobOf(job: Import, owned: bool, first: Commit, second: Commit)
    ensures Both(job, owned, first, second).job == job
  {
  }

  lemma OneCounted(rows: seq<Row>)
    requires |rows| == 1
    ensures forall outcome :: CountOf(rows, outcome) == if rows[0].outcome == outcome then 1 else 0
  {
    assert rows[..0] == [];
    forall outcome ensures CountOf(rows, outcome) == if rows[0].outcome == outcome then 1 else 0 {
      assert CountOf(rows[..0], outcome) == 0;
    }
  }
}
