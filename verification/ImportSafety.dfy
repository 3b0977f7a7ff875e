/** What every state an import can reach keeps, however its commits overlap, stop and start again. */
module ImportSafety {
  import opened Wrappers
  import opened ImportProtocol

  /** The row a commit is at. */
  function Current(step: Step): Option<nat> {
    match step
    case Finding(row, _) => Some(row)
    case Creating(row) => Some(row)
    case Writing(row, _) => Some(row)
    case Settling(row, _, _) => Some(row)
    case _ => None
  }

  predicate StepSound(s: Sys, mapping: Mapping, step: Step) {
    && (Current(step).Some? ==> Current(step).value < |s.job.rows|)
    && match step
       case Finding(row, _) => Usable(s.job.rows[row].cells, mapping)
       case Creating(row) => Usable(s.job.rows[row].cells, mapping)
       case Writing(row, created) => created in s.MadeFor(row)
       case Settling(row, outcome, contact) =>
         && outcome != Pending
         && (outcome == Imported ==> contact.Some? && contact.value in s.MadeFor(row))
         && (outcome == Skipped ==> contact.Some?)
       case _ => true
  }

  /** A commit works under the import's own mapping, and every row still pending is one it has yet to settle. */
  predicate CommitSound(s: Sys, commit: Commit) {
    && commit.mapping == s.job.mapping && !s.job.state.Ready?
    && (forall i :: 0 <= i < |commit.left| ==> commit.left[i] < |s.job.rows|)
    && StepSound(s, commit.mapping, commit.step)
    && (!commit.step.Reading? ==>
          forall row :: 0 <= row < |s.job.rows| && s.job.rows[row].outcome.Pending? ==>
            row in commit.left || Current(commit.step) == Some(row))
  }

  /** At most one contact was ever made for a row, and none of the row's identities is free since. */
  predicate MadeSound(s: Sys, row: nat, made: set<nat>) {
    && row < |s.job.rows| && |made| <= 1 && (forall contact :: contact in made ==> contact < s.contacts)
    && (made != {} ==>
          && !s.job.state.Ready?
          && IdentitiesOf(s.job.rows[row].cells, s.job.mapping) <= s.owners.Keys)
  }

  predicate RowSound(s: Sys, row: nat)
    requires row < |s.job.rows|
  {
    && (s.job.rows[row].outcome.Imported? ==>
          s.job.rows[row].contact.Some? && s.job.rows[row].contact.value in s.MadeFor(row))
    && (s.job.rows[row].outcome.Skipped? ==> s.job.rows[row].contact.Some?)
  }

  predicate Inv(s: Sys) {
    && s.job.rowCount == |s.job.rows| && (!s.job.state.Ready? ==> s.job.mapping != map[])
    && (forall c :: c in s.commits ==> CommitSound(s, s.commits[c]))
    && (forall row :: row in s.made ==> MadeSound(s, row, s.made[row]))
    && (forall row, row' :: row in s.made && row' in s.made && row != row' ==> s.made[row] !! s.made[row'])
    && (forall row :: 0 <= row < |s.job.rows| ==> RowSound(s, row))
  }

  lemma StartHolds(s: Sys)
    requires Start(s)
    ensures Inv(s)
  {
  }

  /** A commit moving on its own, settling nothing. */
  lemma MoveHolds(s: Sys, c: nat, commit: Commit)
    requires Inv(s) && CommitSound(s, commit)
    ensures Inv(s.(commits := s.commits[c := commit]))
  {
    var s' := s.(commits := s.commits[c := commit]);
    hide StepSound, Usable;
    assert forall c' :: c' in s'.commits ==> CommitSound(s', s'.commits[c']) by {
      forall c' | c' in s'.commits ensures CommitSound(s', s'.commits[c']) {
        SameCommit(s, s', s'.commits[c']);
      }
    }
    forall row | row in s'.made ensures MadeSound(s', row, s'.made[row]) {
      assert MadeSound(s, row, s.made[row]);
    }
    forall row | 0 <= row < |s'.job.rows| ensures RowSound(s', row) {
      assert RowSound(s, row);
    }
  }

  /** A commit stays sound while contacts are made for rows. */
  lemma SameCommit(s: Sys, s': Sys, commit: Commit)
    requires CommitSound(s, commit) && s'.job == s.job && forall row: nat :: s.MadeFor(row) <= s'.MadeFor(row)
    ensures CommitSound(s', commit)
  {
    hide Usable;
  }

  lemma ReadHolds(s: Sys, c: nat)
    requires Inv(s) && Enabled(s, Read(c))
    ensures Inv(Apply(s, Read(c)))
  {
    assert CommitSound(s, s.commits[c]);
    var pending := PendingRows(s.job.rows);
    assert forall i :: 0 <= i < |pending| ==> pending[i] in pending;
    MoveHolds(s, c, Commit(s.commits[c].mapping, pending, Next));
  }

  lemma TakeHolds(s: Sys, c: nat)
    requires Inv(s) && Enabled(s, Take(c))
    ensures Inv(Apply(s, Take(c)))
  {
    hide Usable, IdentitiesOf, MadeSound, RowSound;
    TakenSound(s, c);
    hide CommitSound;
    MoveHolds(s, c, AfterTake(s, c).commits[c]);
  }

  lemma TakenSound(s: Sys, c: nat)
    requires Inv(s) && Enabled(s, Take(c))
    ensures CommitSound(s, AfterTake(s, c).commits[c])
  {
    hide Usable, IdentitiesOf, MadeSound, RowSound;
    var commit := s.commits[c];
    assert CommitSound(s, commit);
    assert forall row :: row in commit.left ==> row == commit.left[0] || row in commit.left[1..];
  }

  /** The steps of a commit between taking a row and settling it that change nothing else. */
  lemma StepOnHolds(s: Sys, c: nat, step: Step)
    requires Inv(s) && c in s.commits && StepSound(s, s.commits[c].mapping, step)
    requires Current(step) == Current(s.commits[c].step) && !s.commits[c].step.Reading?
    ensures Inv(Moved(s, c, step))
  {
    hide StepSound, Usable;
    assert CommitSound(s, s.commits[c]);
    MoveHolds(s, c, s.commits[c].(step := step));
  }

  lemma LookHolds(s: Sys, a: Action)
    requires Inv(s) && Enabled(s, a) && (a.Refuse? || a.Find? || a.NoneFound? || a.Wrote?)
    ensures Inv(Apply(s, a))
  {
    hide Usable;
    assert CommitSound(s, s.commits[a.c]);
    StepOnHolds(s, a.c, Apply(s, a).commits[a.c].step);
  }

  lemma CreateHolds(s: Sys, c: nat, taken: Option<Identity>)
    requires Inv(s) && Enabled(s, Create(c, taken))
    ensures Inv(Apply(s, Create(c, taken)))
  {
    hide Usable, IdentitiesOf;
    var s', row := AfterCreate(s, c, taken), s.commits[c].step.row;
    assert CommitSound(s, s.commits[c]);
    hide CommitSound, MadeSound, RowSound;
    if taken.Some? {
      StepOnHolds(s, c, s'.commits[c].step);
    } else {
      NoneMade(s, c);
      CreatedCommits(s, c);
      CreatedMade(s, c);
      CreatedRows(s, c);
    }
  }

  /** A row whose identities are all free had no contact made for it. */
  lemma NoneMade(s: Sys, c: nat)
    requires Inv(s) && Enabled(s, Create(c, None))
    ensures s.MadeFor(s.commits[c].step.row) == {}
  {
    var row := s.commits[c].step.row;
    var identities := IdentitiesOf(s.job.rows[row].cells, s.commits[c].mapping);
    assert CommitSound(s, s.commits[c]);
    NotFree(identities, s.owners.Keys);
    assert row in s.made ==> MadeSound(s, row, s.made[row]);
  }

  lemma NotFree(identities: set<Identity>, owned: set<Identity>)
    requires identities != {}
    ensures !(identities <= owned && identities !! owned)
  {
    var identity :| identity in identities;
  }

  lemma CreatedCommits(s: Sys, c: nat)
    requires Inv(s) && Enabled(s, Create(c, None))
    ensures var s' := AfterCreate(s, c, None); forall c' :: c' in s'.commits ==> CommitSound(s', s'.commits[c'])
  {
    var s' := AfterCreate(s, c, None);
    assert CommitSound(s, s.commits[c]);
    assert forall row: nat :: s.MadeFor(row) <= s'.MadeFor(row);
    assert CommitSound(s', s'.commits[c]) by { CreatedCommit(s, c); }
    hide CommitSound, Usable, IdentitiesOf;
    forall c' | c' in s'.commits ensures CommitSound(s', s'.commits[c']) {
      if c' != c { SameCommit(s, s', s.commits[c']); }
    }
  }

  lemma CreatedCommit(s: Sys, c: nat)
    requires Inv(s) && Enabled(s, Create(c, None))
    ensures var s' := AfterCreate(s, c, None); CommitSound(s', s'.commits[c])
  {
    assert CommitSound(s, s.commits[c]);
    hide Usable, IdentitiesOf, MadeSound, RowSound;
  }

  lemma CreatedMade(s: Sys, c: nat)
    requires Inv(s) && Enabled(s, Create(c, None)) && s.MadeFor(s.commits[c].step.row) == {}
    ensures var s' := AfterCreate(s, c, None);
      && (forall row :: row in s'.made ==> MadeSound(s', row, s'.made[row]))
      && (forall row, row' :: row in s'.made && row' in s'.made && row != row' ==> s'.made[row] !! s'.made[row'])
  {
    var s', at := AfterCreate(s, c, None), s.commits[c].step.row;
    assert CommitSound(s, s.commits[c]);
    hide Usable, CommitSound, RowSound;
    forall row | row in s'.made ensures MadeSound(s', row, s'.made[row]) {
      if row != at { assert MadeSound(s, row, s.made[row]); }
    }
    forall row, row' | row in s'.made && row' in s'.made && row != row' ensures s'.made[row] !! s'.made[row'] {
      assert row in s.made ==> MadeSound(s, row, s.made[row]);
      assert row' in s.made ==> MadeSound(s, row', s.made[row']);
    }
  }

  lemma CreatedRows(s: Sys, c: nat)
    requires Inv(s) && Enabled(s, Create(c, None)) && s.MadeFor(s.commits[c].step.row) == {}
    ensures var s' := AfterCreate(s, c, None); forall row :: 0 <= row < |s'.job.rows| ==> RowSound(s', row)
  {
    var s' := AfterCreate(s, c, None);
    hide Usable, CommitSound, MadeSound;
    forall row | 0 <= row < |s'.job.rows| ensures RowSound(s', row) {
      assert RowSound(s, row);
    }
  }

  lemma SettleHolds(s: Sys, c: nat)
    requires Inv(s) && Enabled(s, Settle(c))
    ensures Inv(Apply(s, Settle(c)))
  {
    hide Usable, IdentitiesOf;
    var s', step := AfterSettle(s, c), s.commits[c].step;
    SettledCommits(s, c);
    assert CommitSound(s, s.commits[c]);
    hide CommitSound;
    forall row | row in s'.made ensures MadeSound(s', row, s'.made[row]) {
      assert MadeSound(s, row, s.made[row]);
    }
    forall row | 0 <= row < |s'.job.rows| ensures RowSound(s', row) {
      assert RowSound(s, row);
    }
  }

  lemma SettledCommits(s: Sys, c: nat)
    requires Inv(s) && Enabled(s, Settle(c))
    ensures var s' := AfterSettle(s, c); forall c' :: c' in s'.commits ==> CommitSound(s', s'.commits[c'])
  {
    hide Usable, IdentitiesOf, MadeSound, RowSound;
    var s' := AfterSettle(s, c);
    assert CommitSound(s, s.commits[c]);
    forall c' | c' in s'.commits ensures CommitSound(s', s'.commits[c']) {
      assert CommitSound(s, s.commits[c']);
    }
  }

  lemma JobHolds(s: Sys, s': Sys)
    requires Inv(s) && s' == s.(job := s'.job, commits := s'.commits)
    requires s'.job == s.job.(state := s'.job.state, mapping := s'.job.mapping, counts := s'.job.counts)
    requires !s.job.state.Ready? ==> !s'.job.state.Ready? && s'.job.mapping == s.job.mapping
    requires !s'.job.state.Ready? ==> s'.job.mapping != map[]
    requires forall c :: c in s'.commits ==> CommitSound(s', s'.commits[c])
    ensures Inv(s')
  {
    hide CommitSound, IdentitiesOf;
    forall row | row in s'.made ensures MadeSound(s', row, s'.made[row]) {
      assert MadeSound(s, row, s.made[row]);
    }
    forall row | 0 <= row < |s'.job.rows| ensures RowSound(s', row) {
      assert RowSound(s, row);
    }
  }

  lemma StepHolds(s: Sys, a: Action)
    requires Inv(s) && Enabled(s, a)
    ensures Inv(Apply(s, a))
  {
    hide Usable, IdentitiesOf, StepSound;
    match a
    case SetMapping(mapping) =>
      forall c | c in s.commits ensures CommitSound(Apply(s, a), s.commits[c]) {
        assert CommitSound(s, s.commits[c]);
      }
      JobHolds(s, Apply(s, a));
    case Begin(c) => BeginHolds(s, c);
    case Read(c) => ReadHolds(s, c);
    case Take(c) => TakeHolds(s, c);
    case Create(c, taken) => CreateHolds(s, c, taken);
    case Settle(c) => SettleHolds(s, c);
    case End(c) => EndHolds(s, c);
    case Stop(c) => StopHolds(s, c);
    case Own(identity, contact) => OwnHolds(s, identity, contact);
    case _ => LookHolds(s, a);
  }

  lemma BeginHolds(s: Sys, c: nat)
    requires Inv(s) && c !in s.commits
    ensures Inv(AfterBegin(s, c))
  {
    var s' := AfterBegin(s, c);
    hide Usable, IdentitiesOf;
    forall c' | c' in s'.commits ensures CommitSound(s', s'.commits[c']) {
      if c' in s.commits { assert CommitSound(s, s.commits[c']); }
    }
    JobHolds(s, s');
  }

  lemma EndHolds(s: Sys, c: nat)
    requires Inv(s) && Enabled(s, End(c))
    ensures Inv(Apply(s, End(c)))
  {
    var s' := Apply(s, End(c));
    hide Usable, IdentitiesOf, CountOf;
    forall c' | c' in s'.commits ensures CommitSound(s', s'.commits[c']) {
      assert CommitSound(s, s.commits[c']);
    }
    JobHolds(s, s');
  }

  lemma StopHolds(s: Sys, c: nat)
    requires Inv(s) && c in s.commits
    ensures Inv(s.(commits := s.commits - {c}))
  {
    var s' := s.(commits := s.commits - {c});
    forall c' | c' in s'.commits ensures CommitSound(s', s'.commits[c']) {
      SameCommit(s, s', s.commits[c']);
    }
    hide CommitSound;
    JobHolds(s, s');
  }

  lemma OwnHolds(s: Sys, identity: Identity, contact: nat)
    requires Inv(s)
    ensures Inv(s.(owners := s.owners[identity := contact]))
  {
    var s' := s.(owners := s.owners[identity := contact]);
    hide Usable, IdentitiesOf;
    forall c | c in s'.commits ensures CommitSound(s', s'.commits[c]) {
      SameCommit(s, s', s.commits[c]);
    }
    forall row | row in s'.made ensures MadeSound(s', row, s'.made[row]) {
      assert MadeSound(s, row, s.made[row]);
    }
    forall row | 0 <= row < |s'.job.rows| ensures RowSound(s', row) {
      assert RowSound(s, row);
    }
  }
}
