/** One commit from its claim to its finish, alone or cut short, as steps of the protocol. */
module Commits {
  import opened Wrappers
  import opened ImportProtocol
  import opened ImportRuns
  import opened Importer

  // Steps one after another.

  /** Where a path of enabled steps leads. */
  function Follow(s: Sys, path: seq<Action>): Option<Sys> {
    if path == [] then Some(s)
    else match Follow(s, path[..|path| - 1])
      case None => None
      case Some(mid) =>
        var a := path[|path| - 1];
        if Enabled(mid, a) then Some(Apply(mid, a)) else None
  }

  lemma FollowOn(s: Sys, path: seq<Action>, mid: Sys, a: Action)
    requires Follow(s, path) == Some(mid) && Enabled(mid, a)
    ensures Follow(s, path + [a]) == Some(Apply(mid, a))
  {
    hide Apply, Enabled;
    assert (path + [a])[..|path|] == path;
  }

  lemma FollowLast(s: Sys, path: seq<Action>)
    requires path != [] && Follow(s, path).Some?
    ensures var before, a := Follow(s, path[..|path| - 1]), path[|path| - 1];
      before.Some? && Enabled(before.value, a) && Follow(s, path).value == Apply(before.value, a)
  {
    hide Apply, Enabled;
  }

  lemma {:induction false} FollowJoins(s: Sys, path: seq<Action>, mid: Sys, more: seq<Action>)
    requires Follow(s, path) == Some(mid) && Follow(mid, more).Some?
    ensures Follow(s, path + more) == Follow(mid, more)
  {
    hide Apply, Enabled;
    if more == [] {
      assert path + more == path;
    } else {
      var n := |more| - 1;
      FollowJoins(s, path, mid, more[..n]);
      var front, last := path + more[..n], more[n];
      hide Follow;
      FollowLast(mid, more);
      FollowOn(s, front, Follow(mid, more[..n]).value, last);
      assert path + more == front + [last];
    }
  }

  /** What a path leads to from a reachable state is reachable. */
  lemma {:induction false} FollowIsRun(states: seq<Sys>, actions: seq<Action>, path: seq<Action>, s': Sys)
    returns (states': seq<Sys>, actions': seq<Action>)
    requires IsRun(states, actions) && Follow(states[|states| - 1], path) == Some(s')
    ensures IsRun(states', actions') && states <= states' && states'[|states'| - 1] == s'
  {
    if path == [] {
      states', actions' := states, actions;
    } else {
      var n := |path| - 1;
      var mid := Follow(states[|states| - 1], path[..n]).value;
      states', actions' := FollowIsRun(states, actions, path[..n], mid);
      StepOn(states', actions', path[n], s');
      states', actions' := states' + [s'], actions' + [path[n]];
    }
  }

  // One row.

  /** What the host came to when asked: an error it can name fails the row, any other ends the commit. */
  datatype Verdict = Fine | Invalid | Broken

  /** The host on a row's texts, on looking its identities up, on its contact and on its field values. */
  datatype Answers = Answers(texts: Verdict, looked: Verdict, created: Verdict, written: Verdict)

  function Failing(verdict: Verdict): Option<Outcome> { if verdict.Invalid? then Some(Failed) else None }

  /** The outcome a row comes to, none when the commit ends before it is settled. */
  function OutcomeOf(row: Row, mapping: Mapping, owned: set<Identity>, answers: Answers): Option<Outcome> {
    if row.unreadable || !Usable(row.cells, mapping) then Some(Failed)
    else if answers.texts != Fine then Failing(answers.texts)
    else if answers.looked != Fine then Failing(answers.looked)
    else if !(IdentitiesOf(row.cells, mapping) !! owned) then Some(Skipped)
    else if answers.created != Fine then Failing(answers.created)
    else if answers.written != Fine then Failing(answers.written)
    else Some(Imported)
  }

  /** Each outcome, and none, comes exactly when it should: the first thing that stands in a row's way decides. */
  lemma OutcomeExactly(row: Row, mapping: Mapping, owned: set<Identity>, answers: Answers)
    ensures var outcome, readable := OutcomeOf(row, mapping, owned, answers), !row.unreadable && Usable(row.cells, mapping);
      var taken := exists identity :: identity in IdentitiesOf(row.cells, mapping) && identity in owned;
      var asked := readable && answers.texts == Fine && answers.looked == Fine;
      && (outcome == Some(Skipped) <==> asked && taken)
      && (outcome == Some(Imported) <==> asked && !taken && answers.created == Fine && answers.written == Fine)
      && (outcome == None <==>
            || (readable && (answers.texts == Broken || (answers.texts == Fine && answers.looked == Broken)))
            || (asked && !taken && (answers.created == Broken || (answers.created == Fine && answers.written == Broken))))
      && (outcome == Some(Failed) <==>
            || !readable
            || answers.texts == Invalid || (answers.texts == Fine && answers.looked == Invalid)
            || (asked && !taken && (answers.created == Invalid || (answers.created == Fine && answers.written == Invalid))))
  {
    hide Usable, IdentitiesOf;
  }

  ghost predicate Owns(owners: map<Identity, nat>, identities: set<Identity>, contact: nat) {
    exists identity :: identity in identities && identity in owners && owners[identity] == contact
  }

  /** The contacts the host keeps and the identities they own. */
  class Contacts {
    var owners: map<Identity, nat>
    var count: nat

    constructor ()
      ensures owners == map[] && count == 0
    {
      owners, count := map[], 0;
    }

    /** Stores a contact owning the identities, or answers an owner of one of them. */
    method CreateWithIdentities(identities: set<Identity>) returns (contact: nat, created: bool)
      modifies this
      ensures created <==> identities !! old(owners).Keys
      ensures created ==>
        contact == old(count) && count == old(count) + 1
        && owners == map identity | identity in old(owners).Keys + identities ::
             if identity in identities then old(count) else old(owners)[identity]
      ensures !created ==>
        owners == old(owners) && count == old(count) && Owns(owners, identities, contact)
    {
      if taken :| taken in identities && taken in owners {
        return owners[taken], false;
      }
      owners := map identity | identity in owners.Keys + identities :: if identity in identities then count else owners[identity];
      contact, created := count, true;
      count := count + 1;
    }
  }

  /** The protocol's state has the stored import and the host's contacts. */
  ghost predicate Mirrors(s: Sys, store: ImportStore, contacts: Contacts)
    reads store, contacts
  {
    s.job == store.Value() && s.owners == contacts.owners && s.contacts == contacts.count
  }

  /** One commit of a state is at a step of the row it took last. */
  ghost predicate OnRow(s: Sys, mid: Sys, c: nat, commit: Commit) {
    mid.commits == s.commits[c := commit]
  }

  /** A step that moves one commit on and nothing else. */
  lemma Moves(s: Sys, path: seq<Action>, mid: Sys, c: nat, a: Action, commit: Commit) returns (path': seq<Action>, mid': Sys)
    requires Follow(s, path) == Some(mid) && c in mid.commits && OnRow(s, mid, c, mid.commits[c])
    requires Enabled(mid, a) && Apply(mid, a) == mid.(commits := mid.commits[c := commit])
    ensures Follow(s, path') == Some(mid') && mid' == mid.(commits := s.commits[c := commit]) && path <= path'
  {
    hide Follow, Apply, Enabled;
    FollowOn(s, path, mid, a);
    path', mid' := path + [a], Apply(mid, a);
    assert s.commits[c := mid.commits[c]][c := commit] == s.commits[c := commit];
  }

  /** Ends a commit at an error that is not the row's. */
  lemma Stops(s: Sys, path: seq<Action>, mid: Sys, c: nat) returns (path': seq<Action>, mid': Sys)
    requires Follow(s, path) == Some(mid) && c in mid.commits && OnRow(s, mid, c, mid.commits[c])
    ensures Follow(s, path') == Some(mid') && mid' == mid.(commits := s.commits - {c})
  {
    hide Follow;
    FollowOn(s, path, mid, Stop(c));
    path', mid' := path + [Stop(c)], mid.(commits := mid.commits - {c});
    assert mid.commits - {c} == s.commits - {c};
  }

  /** Records what a row came to. */
  method SettleOne(store: ImportStore, contacts: Contacts, row: nat, outcome: Outcome, contact: Option<nat>,
                   ghost s: Sys, ghost path: seq<Action>, ghost mid: Sys, ghost c: nat)
    returns (ghost path': seq<Action>, ghost mid': Sys)
    requires row < |store.rows| && Mirrors(mid, store, contacts) && Follow(s, path) == Some(mid)
    requires c in mid.commits && OnRow(s, mid, c, mid.commits[c]) && mid.commits[c].step == Settling(row, outcome, contact)
    modifies store`rows
    ensures Mirrors(mid', store, contacts) && Follow(s, path') == Some(mid')
    ensures OnRow(s, mid', c, mid.commits[c].(step := Next))
    ensures store.rows == old(store.rows)[row := old(store.rows)[row].(outcome := outcome, contact := contact)]
  {
    hide Follow;
    store.Settle(row, outcome, contact);
    FollowOn(s, path, mid, Settle(c));
    path', mid' := path + [Settle(c)], Apply(mid, Settle(c));
  }

  /** Fails a row the host refused. */
  method FailOne(store: ImportStore, contacts: Contacts, row: nat, ghost s: Sys, ghost path: seq<Action>, ghost mid: Sys, ghost c: nat)
    returns (ghost path': seq<Action>, ghost mid': Sys)
    requires row < |store.rows| && Mirrors(mid, store, contacts) && Follow(s, path) == Some(mid)
    requires Enabled(mid, Refuse(c)) && OnRow(s, mid, c, mid.commits[c]) && mid.commits[c].step.row == row
    modifies store`rows
    ensures Mirrors(mid', store, contacts) && Follow(s, path') == Some(mid')
    ensures OnRow(s, mid', c, mid.commits[c].(step := Next))
    ensures store.rows == old(store.rows)[row := old(store.rows)[row].(outcome := Failed, contact := None)]
  {
    hide Follow;
    ghost var commit := mid.commits[c].(step := Settling(row, Failed, None));
    path', mid' := Moves(s, path, mid, c, Refuse(c), commit);
    path', mid' := SettleOne(store, contacts, row, Failed, None, s, path', mid', c);
  }

  /** Looks the row's identities up one after another, up to the first that is owned. */
  method LookUp(identities: set<Identity>, contacts: Contacts, ghost s: Sys, ghost path: seq<Action>, ghost mid: Sys, ghost c: nat)
    returns (owner: Option<nat>, ghost path': seq<Action>, ghost mid': Sys)
    requires Follow(s, path) == Some(mid) && mid.owners == contacts.owners
    requires c in mid.commits && OnRow(s, mid, c, mid.commits[c])
    requires mid.commits[c].step.Finding? && mid.commits[c].step.left == identities
    ensures Follow(s, path') == Some(mid')
    ensures owner == None <==> identities !! contacts.owners.Keys
    ensures owner.Some? ==> Owns(contacts.owners, identities, owner.value)
    ensures var commit := mid.commits[c];
      var row := commit.step.row;
      mid' == mid.(commits := s.commits[c :=
        commit.(step := if owner.Some? then Settling(row, Skipped, owner) else Finding(row, {}))])
  {
    hide Follow;
    ghost var commit := mid.commits[c];
    var left := identities;
    path', mid' := path, mid;
    while left != {}
      invariant left <= identities && forall identity :: identity in identities && identity !in left ==> identity !in contacts.owners
      invariant Follow(s, path') == Some(mid')
      invariant mid' == mid.(commits := s.commits[c := commit.(step := Finding(commit.step.row, left))])
      decreases |left|
    {
      var identity :| identity in left;
      left := left - {identity};
      if identity in contacts.owners {
        owner := Some(contacts.owners[identity]);
        path', mid' := Moves(s, path', mid', c, Find(c, identity), commit.(step := Settling(commit.step.row, Skipped, owner)));
        return;
      }
      path', mid' := Moves(s, path', mid', c, Find(c, identity), commit.(step := Finding(commit.step.row, left)));
    }
    owner := None;
  }

  /** A commit about to take a row. */
  predicate Before(s: Sys, c: nat, row: nat, mapping: Mapping) {
    c in s.commits && s.commits[c].step == Next && s.commits[c].mapping == mapping
    && s.commits[c].left != [] && s.commits[c].left[0] == row < |s.job.rows|
  }

  /** What a commit that settled a row, or stopped at it, leaves of the commits under way. */
  ghost predicate Leaves(s: Sys, s': Sys, c: nat, done: bool)
    requires c in s.commits && s.commits[c].left != []
  {
    s'.commits == if done then s.commits[c := Commit(s.commits[c].mapping, s.commits[c].left[1..], Next)] else s.commits - {c}
  }

  /** Whose contact a settled row carries: the one made for it, an owner of one of its identities, or none. */
  ghost predicate Carries(contact: Option<nat>, outcome: Outcome, identities: set<Identity>, owners: map<Identity, nat>, made: nat) {
    match outcome
    case Imported => contact == Some(made)
    case Skipped => contact.Some? && Owns(owners, identities, contact.value)
    case _ => contact == None
  }

  lemma Creates(s: Sys, path: seq<Action>, mid: Sys, c: nat) returns (path': seq<Action>, mid': Sys)
    requires Follow(s, path) == Some(mid) && Enabled(mid, Create(c, None)) && OnRow(s, mid, c, mid.commits[c])
    ensures Follow(s, path') == Some(mid') && mid'.job == mid.job && mid'.contacts == mid.contacts + 1
    ensures mid'.owners == map identity |
        identity in mid.owners.Keys + IdentitiesOf(mid.job.rows[mid.commits[c].step.row].cells, mid.commits[c].mapping) ::
      if identity in IdentitiesOf(mid.job.rows[mid.commits[c].step.row].cells, mid.commits[c].mapping) then mid.contacts
      else mid.owners[identity]
    ensures OnRow(s, mid', c, mid.commits[c].(step := Writing(mid.commits[c].step.row, mid.contacts)))
  {
    hide Follow, IdentitiesOf;
    FollowOn(s, path, mid, Create(c, None));
    path', mid' := path + [Create(c, None)], Apply(mid, Create(c, None));
  }

  /** Creates a usable row's contact and writes its values. */
  method CreateContact(store: ImportStore, contacts: Contacts, row: nat, mapping: Mapping, draft: Draft, answers: Answers,
                ghost s: Sys, ghost path: seq<Action>, ghost mid: Sys, ghost c: nat)
    returns (done: bool, ghost path': seq<Action>, ghost s': Sys)
    requires row < |store.rows| && Mirrors(mid, store, contacts) && Follow(s, path) == Some(mid)
    requires c in mid.commits && OnRow(s, mid, c, mid.commits[c]) && mid.commits[c].step == Finding(row, {})
    requires mid.commits[c].mapping == mapping && draft.identities == IdentitiesOf(store.rows[row].cells, mapping)
    requires draft.identities !! contacts.owners.Keys
    modifies store`rows, contacts
    ensures Follow(s, path') == Some(s') && Mirrors(s', store, contacts)
    ensures s'.commits == if done then s.commits[c := mid.commits[c].(step := Next)] else s.commits - {c}
    ensures var outcome := if answers.created != Fine then Failing(answers.created)
                           else if answers.written != Fine then Failing(answers.written) else Some(Imported);
      && (done <==> outcome.Some?)
      && (done ==> store.rows == old(store.rows)[row := old(store.rows)[row].(
            outcome := outcome.value, contact := if outcome.value.Imported? then Some(old(contacts.count)) else None)])
      && (!done ==> store.rows == old(store.rows))
  {
    hide Follow, IdentitiesOf;
    ghost var commit := mid.commits[c];
    path', s' := Moves(s, path, mid, c, NoneFound(c), commit.(step := Creating(row)));
    if answers.created.Broken? {
      path', s' := Stops(s, path', s', c);
      return false, path', s';
    }
    if answers.created.Invalid? {
      path', s' := FailOne(store, contacts, row, s, path', s', c);
      return true, path', s';
    }
    var contact, created := contacts.CreateWithIdentities(draft.identities);
    path', s' := Creates(s, path', s', c);
    if answers.written.Broken? {
      path', s' := Stops(s, path', s', c);
      return false, path', s';
    }
    if answers.written.Invalid? {
      path', s' := FailOne(store, contacts, row, s, path', s', c);
      return true, path', s';
    }
    path', s' := Moves(s, path', s', c, Wrote(c), commit.(step := Settling(row, Imported, Some(contact))));
    path', s' := SettleOne(store, contacts, row, Imported, Some(contact), s, path', s', c);
    done := true;
  }

  /** One row of them settled, the others as they were. */
  ghost predicate SettlesRow(
    was: seq<Row>, now: seq<Row>, row: nat, outcome: Outcome, mapping: Mapping, owners: map<Identity, nat>, made: nat)
    requires row < |was|
  {
    && |now| == |was| && now == was[row := now[row]]
    && now[row] == was[row].(outcome := outcome, contact := now[row].contact)
    && Carries(now[row].contact, outcome, IdentitiesOf(was[row].cells, mapping), owners, made)
  }

  lemma Takes(s: Sys, c: nat, row: nat, mapping: Mapping) returns (path: seq<Action>, mid: Sys)
    requires Before(s, c, row, mapping)
    ensures Follow(s, path) == Some(mid)
    ensures var staged := s.job.rows[row];
      mid == s.(commits := s.commits[c := Commit(mapping, s.commits[c].left[1..],
        if staged.unreadable || !Usable(staged.cells, mapping) then Settling(row, Failed, None)
        else Finding(row, IdentitiesOf(staged.cells, mapping)))])
  {
    hide Usable, IdentitiesOf;
    path, mid := [Take(c)], Apply(s, Take(c));
    assert path[..0] == [];
    assert Follow(s, []) == Some(s);
  }

  /** Looks a usable row's identities up and creates its contact when nobody owns one. */
  method SettleUsable(store: ImportStore, contacts: Contacts, row: nat, mapping: Mapping, draft: Draft, answers: Answers,
                      ghost s: Sys, ghost path: seq<Action>, ghost mid: Sys, ghost c: nat)
    returns (done: bool, ghost path': seq<Action>, ghost s': Sys)
    requires row < |store.rows| && Mirrors(mid, store, contacts) && Follow(s, path) == Some(mid)
    requires c in mid.commits && OnRow(s, mid, c, mid.commits[c]) && mid.commits[c].mapping == mapping
    requires mid.commits[c].step == Finding(row, draft.identities)
    requires !store.rows[row].unreadable && Usable(store.rows[row].cells, mapping)
    requires draft.identities == IdentitiesOf(store.rows[row].cells, mapping)
    requires answers.texts.Fine? && answers.looked.Fine?
    modifies store`rows, contacts
    ensures Follow(s, path') == Some(s') && Mirrors(s', store, contacts)
    ensures s'.commits == if done then s.commits[c := mid.commits[c].(step := Next)] else s.commits - {c}
    ensures var outcome := OutcomeOf(old(store.rows)[row], mapping, old(contacts.owners).Keys, answers);
      && (done <==> outcome.Some?)
      && (!done ==> store.rows == old(store.rows))
      && (done ==> SettlesRow(old(store.rows), store.rows, row, outcome.value, mapping, old(contacts.owners), old(contacts.count)))
  {
    hide Follow, IdentitiesOf, Usable, Apply, Enabled, Owns;
    var owner;
    owner, path', s' := LookUp(draft.identities, contacts, s, path, mid, c);
    if owner.Some? {
      path', s' := SettleOne(store, contacts, row, Skipped, owner, s, path', s', c);
      return true, path', s';
    }
    done, path', s' := CreateContact(store, contacts, row, mapping, draft, answers, s, path', s', c);
  }

  /** Takes the row a commit is before and settles it, or stops there. */
  method CommitRow(store: ImportStore, contacts: Contacts, row: nat, mapping: Mapping, answers: Answers, ghost s: Sys, ghost c: nat)
    returns (done: bool, ghost path: seq<Action>, ghost s': Sys)
    requires row < |store.rows| && Mirrors(s, store, contacts) && Before(s, c, row, mapping)
    modifies store`rows, contacts
    ensures Follow(s, path) == Some(s') && Mirrors(s', store, contacts) && Leaves(s, s', c, done)
    ensures var before := old(store.rows)[row];
      var outcome := OutcomeOf(before, mapping, old(contacts.owners).Keys, answers);
      && (done <==> outcome.Some?)
      && (!done ==> store.rows == old(store.rows))
      && (done ==> SettlesRow(old(store.rows), store.rows, row, outcome.value, mapping, old(contacts.owners), old(contacts.count)))
  {
    hide Follow, IdentitiesOf, Usable, Apply;
    var staged := store.rows[row];
    var draft := DraftOf(staged.cells, mapping);
    path, s' := Takes(s, c, row, mapping);
    if staged.unreadable || !DraftUsable(draft) {
      path, s' := SettleOne(store, contacts, row, Failed, None, s, path, s', c);
      return true, path, s';
    }
    if answers.texts.Broken? || (answers.texts.Fine? && answers.looked.Broken?) {
      path, s' := Stops(s, path, s', c);
      return false, path, s';
    }
    if answers.texts.Invalid? || answers.looked.Invalid? {
      path, s' := FailOne(store, contacts, row, s, path, s', c);
      return true, path, s';
    }
    done, path, s' := SettleUsable(store, contacts, row, mapping, draft, answers, s, path, s', c);
  }

  // All rows.

  lemma Settles(row: Row, mapping: Mapping, owned: set<Identity>, answers: Answers)
    ensures OutcomeOf(row, mapping, owned, answers) != Some(Pending)
  {
    hide Usable, IdentitiesOf;
  }

  /** What settling rows of an import leaves of the others. */
  ghost predicate Kept(was: seq<Row>, now: seq<Row>) {
    |now| == |was| && forall row :: 0 <= row < |was| ==>
      && now[row].cells == was[row].cells && now[row].unreadable == was[row].unreadable
      && (!was[row].outcome.Pending? ==> now[row] == was[row])
  }

  lemma KeptOn(was: seq<Row>, before: seq<Row>, now: seq<Row>, row: nat)
    requires Kept(was, before) && row < |was| && was[row].outcome.Pending?
    requires |now| == |before| && now == before[row := now[row]]
    requires now[row].cells == before[row].cells && now[row].unreadable == before[row].unreadable
    ensures Kept(was, now)
  {
  }

  lemma Reads(s: Sys, c: nat)
    requires c in s.commits && s.commits[c].step.Reading?
    ensures Follow(s, [Read(c)]) == Some(s.(commits := s.commits[c := Commit(s.commits[c].mapping, PendingRows(s.job.rows), Next)]))
  {
    hide PendingRows;
    assert [Read(c)][..0] == [];
    assert Follow(s, []) == Some(s);
  }

  /** Settles every row still pending, or stops at the one that broke; rows settled before stay as they were. */
  method CommitRows(store: ImportStore, contacts: Contacts, mapping: Mapping, answers: map<nat, Answers>, ghost s: Sys, ghost c: nat)
    returns (done: bool, ghost path: seq<Action>, ghost s': Sys)
    requires Mirrors(s, store, contacts) && c in s.commits && s.commits[c] == Commit(mapping, [], Reading)
    requires forall row :: 0 <= row < |store.rows| ==> row in answers
    modifies store`rows, contacts
    ensures Follow(s, path) == Some(s') && Mirrors(s', store, contacts)
    ensures s'.commits == if done then s.commits[c := Commit(mapping, [], Next)] else s.commits - {c}
    ensures Kept(old(store.rows), store.rows)
    ensures done ==> forall row :: 0 <= row < |store.rows| ==> !store.rows[row].outcome.Pending?
  {
    hide Follow, PendingRows, OutcomeOf, Carries;
    ghost var was := store.rows;
    var pending := PendingRows(store.rows);
    assert forall k :: 0 <= k < |pending| ==> pending[k] in pending;
    Reads(s, c);
    path, s' := [Read(c)], s.(commits := s.commits[c := Commit(mapping, pending, Next)]);
    for at := 0 to |pending|
      invariant Follow(s, path) == Some(s') && Mirrors(s', store, contacts)
      invariant s'.commits == s.commits[c := Commit(mapping, pending[at..], Next)]
      invariant Kept(was, store.rows)
      invariant forall k :: 0 <= k < |pending| ==> pending[k] < |was| && was[pending[k]].outcome.Pending?
      invariant forall k :: 0 <= k < at ==> !store.rows[pending[k]].outcome.Pending?
    {
      var row := pending[at];
      assert pending[at..][1..] == pending[at + 1..];
      ghost var before := store.rows;
      Settles(store.rows[row], mapping, contacts.owners.Keys, answers[row]);
      ghost var mid, more := s', [];
      done, more, s' := CommitRow(store, contacts, row, mapping, answers[row], mid, c);
      FollowJoins(s, path, mid, more);
      path := path + more;
      if !done {
        assert s'.commits == s.commits - {c};
        return false, path, s';
      }
      KeptOn(was, before, store.rows, row);
    }
    done := true;
    assert pending[|pending|..] == [];
    forall row: nat | row < |store.rows| ensures !store.rows[row].outcome.Pending? {
      if was[row].outcome.Pending? {
        var k :| 0 <= k < |pending| && pending[k] == row;
      }
    }
  }

  lemma Begins(s: Sys, c: nat)
    requires c !in s.commits
    ensures Follow(s, [Begin(c)]) == Some(AfterBegin(s, c))
  {
    assert [Begin(c)][..0] == [];
    assert Follow(s, []) == Some(s);
  }

  /**
   Claims an import, settles its pending rows and finishes it, every statement a step of
   the protocol; refused once it is committed and when nothing is mapped, and cut short
   by an error that is no row's.
   */
  method CommitImport(store: ImportStore, contacts: Contacts, answers: map<nat, Answers>, ghost s: Sys, ghost c: nat)
    returns (done: bool, ghost path: seq<Action>, ghost s': Sys)
    requires Mirrors(s, store, contacts) && c !in s.commits && forall row :: 0 <= row < |store.rows| ==> row in answers
    modifies store, contacts
    ensures Follow(s, path) == Some(s') && Mirrors(s', store, contacts)
    ensures Kept(old(store.rows), store.rows)
    ensures done ==> store.state.Committed? && old(store.state) != Committed && Tallied(store.Value())
    ensures done ==> forall row :: 0 <= row < |store.rows| ==> !store.rows[row].outcome.Pending?
    ensures done ==> path != [] && path[|path| - 1] == End(c)
  {
    hide Follow, PendingRows, CountOf;
    var claimed := store.ClaimForCommit();
    Begins(s, c);
    path, s' := [Begin(c)], AfterBegin(s, c);
    if claimed.None? {
      return false, path, s';
    }
    ghost var mid, more := s', [];
    done, more, s' := CommitRows(store, contacts, claimed.value, answers, mid, c);
    FollowJoins(s, path, mid, more);
    path := path + more;
    if done {
      store.FinishCommit();
      FollowOn(s, path, s', End(c));
      path, s' := path + [End(c)], Apply(s', End(c));
    }
  }

  /** A commit started in a reachable state leaves a reachable one, so every theorem about runs holds of it. */
  lemma CommitStaysReachable(states: seq<Sys>, actions: seq<Action>, path: seq<Action>, s': Sys, row: nat, row': nat)
    requires IsRun(states, actions) && Follow(states[|states| - 1], path) == Some(s')
    requires row < |s'.job.rows| && row' < |s'.job.rows|
    ensures |s'.MadeFor(row)| <= 1 && Grows(states[|states| - 1].job, s'.job)
    ensures row != row' && s'.job.rows[row].outcome.Imported? && s'.job.rows[row'].outcome.Imported? ==>
      s'.job.rows[row].contact != s'.job.rows[row'].contact
  {
    hide Follow, IsRun, Grows;
    var states', actions' := FollowIsRun(states, actions, path, s');
    RunIsNotEmpty(states', actions');
    RunIsNotEmpty(states, actions);
    OneContactPerRow(states', actions', |states'| - 1, row, row');
    RunGrows(states', actions', |states| - 1, |states'| - 1);
  }

  lemma RunIsNotEmpty(states: seq<Sys>, actions: seq<Action>)
    requires IsRun(states, actions)
    ensures states != []
  {
  }
}
