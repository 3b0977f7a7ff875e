/** What the loaded pages are, and that every job taken up is done, told from the events and landings of a run. */
module LoaderPages {
  import opened Wrappers
  import opened Connection
  import opened Reread
  import opened LoaderProtocol
  import opened LoaderSafety
  import opened LoaderRuns

  predicate Resets(s: Sys, a: Action) { a.Rendered? && a.key != s.loader.key }

  /** A read that lands in the generation its drain began in. */
  predicate Taken(s: Sys, a: Action) {
    (a.LandedReread? || a.LandedMore?) && a.d < |s.drains| && s.drains[a.d].generation == s.loader.generation
  }

  /** A reread that found no page to read, taken up in this step. */
  predicate RereadOfNothing(s: Sys, a: Action, s': Sys) {
    (s.loader.wantReread || a.Refetched?) && !s'.loader.wantReread && s.loader.pages == []
  }

  // The pages.

  /** Since the last reset: the pages the latest good reread brought, and after them each further page brought. */
  ghost function Brought(states: seq<Sys>, actions: seq<Action>, n: nat): seq<Page>
    requires |states| == |actions| + 1 && n <= |actions|
  {
    if n == 0 then []
    else
      var s, a, before := states[n - 1], actions[n - 1], Brought(states, actions, n - 1);
      if Resets(s, a) then []
      else if !Taken(s, a) then before
      else match a
        case LandedReread(_, pages) => if pages.Some? then pages.value else before
        case LandedMore(_, page) => if page.Some? then before + [page.value] else before
        case _ => before
  }

  /** The latest read that landed since the reset failed, and no reread of nothing came after it. */
  ghost predicate LastFailed(states: seq<Sys>, actions: seq<Action>, n: nat)
    requires |states| == |actions| + 1 && n <= |actions|
  {
    n > 0 &&
    var s, a := states[n - 1], actions[n - 1];
    if Resets(s, a) || RereadOfNothing(s, a, states[n]) then false
    else if Taken(s, a) then if a.LandedReread? then a.pages.None? else a.page.None?
    else LastFailed(states, actions, n - 1)
  }

  lemma LoopKeeps(s: Sys, d: nat)
    requires d < |s.drains|
    ensures var s' := Looped(s, d);
      && s'.loader.pages == s.loader.pages && s'.loader.key == s.loader.key && s'.input == s.input
      && s'.loader.generation == s.loader.generation
      && s'.loader.failed == (s.loader.failed && !(s.loader.wantReread && !s'.loader.wantReread && s.loader.pages == []))
      && (s'.loader.wantReread ==> s.loader.wantReread)
  {
  }

  lemma DrainedKeeps(s: Sys)
    ensures var s' := Drained(s);
      && s'.loader.pages == s.loader.pages && s'.loader.key == s.loader.key && s'.input == s.input
      && s'.loader.generation == s.loader.generation
      && s'.loader.failed == (s.loader.failed && !(s.loader.wantReread && !s'.loader.wantReread && s.loader.pages == []))
      && (s'.loader.wantReread ==> s.loader.wantReread)
  {
    if !s.loader.running {
      var begun := Drain(s.loader.generation, Returning, s.input.key);
      LoopKeeps(s.(loader := s.loader.(running := true), drains := s.drains + [begun]), |s.drains|);
    }
  }

  lemma PagesOfKeyed(key: string, pages: seq<Page>, before: seq<Keyed>)
    ensures PagesOf(KeyAll(key, pages)) == pages
    ensures pages != [] ==> PagesOf(before + [Keyed(key, pages[0])]) == PagesOf(before) + [pages[0]]
  {
  }

  /** What one step does to the pages and to the failure. */
  lemma StepBrings(s: Sys, a: Action)
    requires Enabled(s, a)
    ensures var s', before := Apply(s, a), PagesOf(s.loader.pages);
      && PagesOf(s'.loader.pages) ==
           (if Resets(s, a) then []
            else if Taken(s, a) && a.LandedReread? && a.pages.Some? then a.pages.value
            else if Taken(s, a) && a.LandedMore? && a.page.Some? then before + [a.page.value]
            else before)
      && s'.loader.failed ==
           (if Resets(s, a) || RereadOfNothing(s, a, s') then false
            else if Taken(s, a) then (if a.LandedReread? then a.pages.None? else a.page.None?)
            else s.loader.failed)
  {
    hide Looped, Drained, PagesOf;
    assert PagesOf([]) == [];
    match a
    case Refetched => DrainedKeeps(s.(loader := s.loader.(wantReread := true)));
    case FetchNextPage => DrainedKeeps(s.(loader := s.loader.(wantMore := true)));
    case Rendered(key, head, paused) =>
      var input := s.(input := Input(key, head, paused));
      DrainedKeeps(input);
    case LandedReread(d, pages) => if pages.Some? { PagesOfKeyed(s.drains[d].key, pages.value, []); }
    case LandedMore(d, page) => if page.Some? { PagesOfKeyed(s.drains[d].key, [page.value], s.loader.pages); }
    case GoOn(d) => LoopKeeps(s.(shown := Snapshot(s.loader)), d);
  }

  /** In every run the loaded pages are what the latest good reread brought and then each page brought after it, in order. */
  lemma {:induction false} PagesAreBrought(states: seq<Sys>, actions: seq<Action>, n: nat)
    requires IsRun(states, actions) && n < |states|
    ensures PagesOf(states[n].loader.pages) == Brought(states, actions, n)
  {
    hide Apply, Enabled, Resets, Taken;
    if n > 0 {
      PagesAreBrought(states, actions, n - 1);
      assert Steps(states[n - 1], actions[n - 1], states[n]);
      StepBrings(states[n - 1], actions[n - 1]);
    }
  }

  /** In every run the loader is failed exactly when the latest read that landed in it was. */
  lemma {:induction false} FailedIsLast(states: seq<Sys>, actions: seq<Action>, n: nat)
    requires IsRun(states, actions) && n < |states|
    ensures states[n].loader.failed <==> LastFailed(states, actions, n)
  {
    hide Apply, Enabled, Resets, Taken, RereadOfNothing, PagesOf;
    if n > 0 {
      FailedIsLast(states, actions, n - 1);
      assert Steps(states[n - 1], actions[n - 1], states[n]);
      StepBrings(states[n - 1], actions[n - 1]);
    }
  }

  // The jobs.

  ghost predicate At(s: Sys, pc: Pc) { exists d: nat :: Live(s, d) && s.drains[d].pc == pc }

  /** A reread taken up is of everything loaded, and none is taken up while paused. */
  ghost predicate RereadBegun(s': Sys) {
    && !s'.input.paused
    && (s'.loader.pages != [] ==> At(s', Rereading(LoadedRowsOf(s'.input.head, PagesOf(s'.loader.pages)))))
  }

  /** A further page taken up is read after the last one's cursor when there is one, and only with no reread waiting. */
  ghost predicate MoreBegun(s': Sys) {
    && !s'.loader.wantReread
    && var last := if s'.loader.pages != [] then Some(s'.loader.pages[|s'.loader.pages| - 1].page) else s'.input.head;
    (last.Some? && last.value.hasNext ==> At(s', ReadingMore(last.value.cursor)) && s'.loader.fetching)
  }

  /** What going round once takes up: a waiting reread unless paused, else a waiting page unless a reread waits. */
  lemma LoopTakes(s: Sys, d: nat)
    requires d < |s.drains| && s.drains[d].generation == s.loader.generation
    ensures var s' := Looped(s, d);
      && (s.loader.wantReread && !s'.loader.wantReread ==> RereadBegun(s'))
      && (s.loader.wantMore && !s'.loader.wantMore ==> MoreBegun(s'))
      && (s.loader.wantReread && !s.input.paused ==> !s'.loader.wantReread)
      && (s.loader.wantMore && !s.loader.wantReread ==> !s'.loader.wantMore)
  {
    hide LoadedRowsOf, PagesOf;
    var s' := Looped(s, d);
    assert s'.drains[d].generation == s.drains[d].generation;
    assert !s'.drains[d].pc.Done? ==> Live(s', d);
  }

  lemma DrainedTakes(s: Sys)
    ensures var s' := Drained(s);
      && (s.loader.wantReread && !s'.loader.wantReread ==> RereadBegun(s'))
      && (s.loader.wantMore && !s'.loader.wantMore ==> MoreBegun(s'))
      && (!s.loader.running && s.loader.wantReread && !s.input.paused ==> !s'.loader.wantReread)
      && (!s.loader.running && s.loader.wantMore && !s.loader.wantReread ==> !s'.loader.wantMore)
  {
    if !s.loader.running {
      var begun := Drain(s.loader.generation, Returning, s.input.key);
      hide Looped, RereadBegun, MoreBegun;
      LoopTakes(s.(loader := s.loader.(running := true), drains := s.drains + [begun]), |s.drains|);
    }
  }

  /** Goes round its loop in this step: a drain of this generation going on, or a job coming in with none running. */
  predicate GoesRound(s: Sys, a: Action) {
    match a
    case GoOn(d) => d < |s.drains| && s.drains[d].generation == s.loader.generation
    case Refetched => !s.loader.running && !s.input.paused
    case FetchNextPage => !s.loader.running
    case _ => false
  }

  lemma StepTakes(s: Sys, a: Action)
    requires Enabled(s, a) && !Resets(s, a)
    ensures var s' := Apply(s, a);
      var reread, more := s.loader.wantReread || a.Refetched?, s.loader.wantMore || a.FetchNextPage?;
      && (reread && !s'.loader.wantReread ==> RereadBegun(s'))
      && (more && !s'.loader.wantMore ==> MoreBegun(s'))
      && (GoesRound(s, a) && reread && !s.input.paused ==> !s'.loader.wantReread)
      && (GoesRound(s, a) && more && !reread ==> !s'.loader.wantMore)
  {
    hide Looped, Drained, RereadBegun, MoreBegun;
    match a
    case Refetched => DrainedTakes(s.(loader := s.loader.(wantReread := true)));
    case FetchNextPage => DrainedTakes(s.(loader := s.loader.(wantMore := true)));
    case Rendered(key, head, paused) => DrainedTakes(s.(input := Input(key, head, paused)));
    case GoOn(d) =>
      var shown := s.(shown := Snapshot(s.loader));
      if s.drains[d].generation == s.loader.generation { LoopTakes(shown, d); } else { StaleLoop(shown, d); }
    case _ =>
  }

  lemma StaleLoop(s: Sys, d: nat)
    requires d < |s.drains| && s.drains[d].generation != s.loader.generation
    ensures Looped(s, d).loader == s.loader
  {
  }

  /**
   In every run a job is forgotten only as it is taken up: a reread, never while paused, to
   read all that is loaded; a page, never before a waiting reread, to be read after the
   last cursor. Going round always takes up a job that may be.
   */
  lemma JobsAreDone(states: seq<Sys>, actions: seq<Action>, k: nat)
    requires IsRun(states, actions) && k < |actions| && !Resets(states[k], actions[k])
    ensures var (s, a, s') := (states[k], actions[k], states[k + 1]);
      var reread, more := s.loader.wantReread || a.Refetched?, s.loader.wantMore || a.FetchNextPage?;
      && (reread && !s'.loader.wantReread ==> RereadBegun(s'))
      && (more && !s'.loader.wantMore ==> MoreBegun(s'))
      && (GoesRound(s, a) && reread && !s.input.paused ==> !s'.loader.wantReread)
      && (GoesRound(s, a) && more && !reread ==> !s'.loader.wantMore)
  {
    hide Apply, Enabled, RereadBegun, MoreBegun;
    assert Steps(states[k], actions[k], states[k + 1]);
    StepTakes(states[k], actions[k]);
  }
}
