/** Loaders over a server of one list: what is loaded is a stretch of it, and what a reread in the loader keeps. */
module LoaderLists {
  import opened Wrappers
  import opened Connection
  import opened Reread
  import opened LoaderProtocol
  import opened LoaderSafety
  import opened LoaderRuns
  import opened LoaderPages

  /** The page of a list after its first ones, so many of them; it holds a row. */
  ghost predicate IsPage(page: Page, after: nat, list: seq<Node>, size: nat, cursors: nat -> string) {
    Full(after, size) < |list| && page == PageAt(list, size, Full(after, size), cursors)
  }

  /** The pages of a list past its first one, one after another. */
  ghost predicate Stretch(pages: seq<Page>, list: seq<Node>, size: nat, cursors: nat -> string) {
    size > 0 && forall k :: 0 <= k < |pages| ==> IsPage(pages[k], k + 1, list, size, cursors)
  }

  ghost predicate IsHead(head: Option<Page>, list: seq<Node>, size: nat, cursors: nat -> string) {
    head.Some? ==> head.value == PageAt(list, size, 0, cursors)
  }

  /** The page a drain reads is the one after those loaded. */
  ghost predicate ReadsNext(drain: Drain, loaded: nat, list: seq<Node>, size: nat, cursors: nat -> string) {
    drain.pc.ReadingMore? ==>
      Full(loaded + 1, size) < |list| && drain.pc.after == Some(cursors(Full(loaded + 1, size)))
  }

  ghost predicate OnList(s: Sys, list: seq<Node>, size: nat, cursors: nat -> string) {
    && Stretch(PagesOf(s.loader.pages), list, size, cursors) && IsHead(s.input.head, list, size, cursors)
    && forall d: nat :: Live(s, d) ==> ReadsNext(s.drains[d], |s.loader.pages|, list, size, cursors)
  }

  /** What this step brings, if anything, is what the server answers to what was asked. */
  ghost predicate Truthful(s: Sys, a: Action, server: Server, list: seq<Node>, size: nat, cursors: nat -> string) {
    match a
    case Rendered(_, head, _) => IsHead(head, list, size, cursors)
    case LandedReread(d, pages) => Taken(s, a) && AtReread(s, d) ==> Answers(server, s.drains[d].pc.loaded, pages)
    case LandedMore(d, page) => Taken(s, a) && AtMore(s, d) ==> page.Some? ==> server(s.drains[d].pc.after) == page
    case _ => true
  }

  /** One kept page of a reread is the page of the list at its place. */
  lemma KeptPage(
    server: Server, list: seq<Node>, size: nat, cursors: nat -> string, loaded: Loaded, read: seq<Page>, k: nat)
    requires ServesList(server, list, size, cursors) && ReadInTurn(server, loaded, read) && k + 1 < |read|
    ensures IsPage(read[k + 1], k + 1, list, size, cursors)
  {
    hide ServesList, ReadInTurn, Ends, PageAt, Full, Flat;
    var upTo := read[..k + 2];
    if k + 2 < |read| {
      ReadOnAfter(server, loaded, read, k + 2);
    } else {
      assert upTo == read;
    }
    ReadsPrefix(server, list, size, cursors, loaded, upTo);
  }

  /** The pages behind an answer: the first one and then those kept. */
  lemma ReadOf(server: Server, loaded: Loaded, kept: Option<seq<Page>>) returns (read: seq<Page>)
    requires Answers(server, loaded, kept) && kept.Some?
    ensures ReadInTurn(server, loaded, read) && |kept.value| < |read|
    ensures forall k :: 0 <= k < |kept.value| ==> kept.value[k] == read[k + 1]
  {
    hide ReadInTurn, Ends;
    read :| Leaves(server, loaded, read, kept);
  }

  /** What a reread answers is a stretch of the list. */
  lemma KeptStretch(
    server: Server, list: seq<Node>, size: nat, cursors: nat -> string, loaded: Loaded, kept: Option<seq<Page>>)
    requires ServesList(server, list, size, cursors) && Answers(server, loaded, kept)
    ensures kept.Some? && Stretch(kept.value, list, size, cursors)
  {
    NoReadFails(server, list, size, cursors, loaded, kept);
    SizePositive(server, list, size, cursors);
    var read := ReadOf(server, loaded, kept);
    hide ServesList, ReadInTurn, IsPage, Answers, Stretch;
    forall k | 0 <= k < |kept.value| ensures IsPage(kept.value[k], k + 1, list, size, cursors) {
      KeptPage(server, list, size, cursors, loaded, read, k);
    }
    StretchOf(kept.value, list, size, cursors);
  }

  lemma StretchOf(pages: seq<Page>, list: seq<Node>, size: nat, cursors: nat -> string)
    requires size > 0 && forall k :: 0 <= k < |pages| ==> IsPage(pages[k], k + 1, list, size, cursors)
    ensures Stretch(pages, list, size, cursors)
  {
  }

  /** The page after the last cursor makes the stretch one page longer. */
  lemma StretchOn(pages: seq<Page>, page: Page, server: Server, list: seq<Node>, size: nat, cursors: nat -> string)
    requires ServesList(server, list, size, cursors) && Stretch(pages, list, size, cursors)
    requires Full(|pages| + 1, size) < |list| && server(Some(cursors(Full(|pages| + 1, size)))) == Some(page)
    ensures Stretch(pages + [page], list, size, cursors)
  {
    hide PageAt, Full;
    var at := Full(|pages| + 1, size);
    AtLeast(|pages| + 1, size);
    assert server(Some(cursors(at))) == Some(PageAt(list, size, at, cursors));
    assert IsPage(page, |pages| + 1, list, size, cursors);
  }

  lemma AtLeast(pages: nat, size: nat)
    requires pages > 0 && size > 0
    ensures Full(pages, size) > 0
  {
  }

  /** The cursor of the last loaded page, or of the first one, leads to the page after those loaded. */
  lemma NextCursor(pages: seq<Page>, head: Option<Page>, list: seq<Node>, size: nat, cursors: nat -> string)
    requires Stretch(pages, list, size, cursors) && IsHead(head, list, size, cursors)
    requires pages != [] || head.Some?
    requires (if pages != [] then pages[|pages| - 1] else head.value).hasNext
    ensures var last := if pages != [] then pages[|pages| - 1] else head.value;
      Full(|pages| + 1, size) < |list| && last.cursor == Some(cursors(Full(|pages| + 1, size)))
  {
    FullStep(|pages|, size);
    FullStep(0, size);
    if pages != [] {
      var n := |pages| - 1;
      assert IsPage(pages[n], n + 1, list, size, cursors);
    }
  }

  lemma LoopOnList(s: Sys, d: nat, list: seq<Node>, size: nat, cursors: nat -> string)
    requires d < |s.drains| && OnList(s, list, size, cursors) && s.drains[d].pc.Returning?
    ensures OnList(Looped(s, d), list, size, cursors)
  {
    var s' := Looped(s, d);
    LoopKeeps(s, d);
    forall e: nat | Live(s', e) ensures ReadsNext(s'.drains[e], |s'.loader.pages|, list, size, cursors) {
      if e != d {
        LoopedLive(s, d, e);
      } else {
        LoopReadsNext(s, d, list, size, cursors);
      }
    }
  }

  lemma LoopReadsNext(s: Sys, d: nat, list: seq<Node>, size: nat, cursors: nat -> string)
    requires d < |s.drains| && Stretch(PagesOf(s.loader.pages), list, size, cursors) && IsHead(s.input.head, list, size, cursors)
    ensures ReadsNext(Looped(s, d).drains[d], |s.loader.pages|, list, size, cursors)
  {
    hide Stretch, IsHead, LoadedRowsOf;
    var pages, last := PagesOf(s.loader.pages), LastOf(s.loader, s.input);
    if Looped(s, d).drains[d].pc.ReadingMore? {
      assert last.Some? && last.value.hasNext;
      NextCursor(pages, s.input.head, list, size, cursors);
    }
  }

  lemma DrainedOnList(s: Sys, list: seq<Node>, size: nat, cursors: nat -> string)
    requires OnList(s, list, size, cursors)
    ensures OnList(Drained(s), list, size, cursors)
  {
    if !s.loader.running {
      var begun := Drain(s.loader.generation, Returning, s.input.key);
      var s' := s.(loader := s.loader.(running := true), drains := s.drains + [begun]);
      forall e: nat | Live(s', e) ensures ReadsNext(s'.drains[e], |s'.loader.pages|, list, size, cursors) {
        if e < |s.drains| { assert Live(s, e); }
      }
      hide Looped;
      LoopOnList(s', |s.drains|, list, size, cursors);
    }
  }

  /** A state whose drains are those of another at the same places in the same generation. */
  lemma SameDrainsOnList(s: Sys, s': Sys, list: seq<Node>, size: nat, cursors: nat -> string)
    requires OnList(s, list, size, cursors) && s'.drains == s.drains && s'.loader.generation == s.loader.generation
    requires s'.loader.pages == s.loader.pages && IsHead(s'.input.head, list, size, cursors)
    ensures OnList(s', list, size, cursors)
  {
    forall d: nat | Live(s', d) ensures ReadsNext(s'.drains[d], |s'.loader.pages|, list, size, cursors) {
      assert Live(s, d);
    }
  }

  /** A landing leaves no drain of this generation reading, there being one only. */
  lemma LandedOnList(s: Sys, s': Sys, d: nat, list: seq<Node>, size: nat, cursors: nat -> string)
    requires Inv(s) && d < |s.drains| && !s.drains[d].pc.Done? && OnList(s, list, size, cursors)
    requires s'.drains == s.drains[d := s.drains[d].(pc := Returning)] && s'.loader.generation == s.loader.generation
    requires s'.input == s.input && Stretch(PagesOf(s'.loader.pages), list, size, cursors)
    requires s.drains[d].generation != s.loader.generation ==> s'.loader.pages == s.loader.pages
    ensures OnList(s', list, size, cursors)
  {
    forall e: nat | Live(s', e) ensures ReadsNext(s'.drains[e], |s'.loader.pages|, list, size, cursors) {
      if e != d {
        assert Live(s, e) && s'.drains[e] == s.drains[e];
        assert !Live(s, d);
      }
    }
  }

  lemma StepOnList(s: Sys, a: Action, server: Server, list: seq<Node>, size: nat, cursors: nat -> string)
    requires Inv(s) && Enabled(s, a) && !Resets(s, a) && ServesList(server, list, size, cursors)
    requires OnList(s, list, size, cursors) && Truthful(s, a, server, list, size, cursors)
    ensures OnList(Apply(s, a), list, size, cursors)
  {
    hide Inv, Looped, Drained, Stretch, IsHead, ReadsNext, PagesOf, ServesList, Answers;
    match a
    case Refetched =>
      var s' := s.(loader := s.loader.(wantReread := true));
      SameDrainsOnList(s, s', list, size, cursors);
      DrainedOnList(s', list, size, cursors);
    case FetchNextPage =>
      var s' := s.(loader := s.loader.(wantMore := true));
      SameDrainsOnList(s, s', list, size, cursors);
      DrainedOnList(s', list, size, cursors);
    case Rendered(key, head, paused) =>
      var s' := s.(input := Input(key, head, paused));
      SameDrainsOnList(s, s', list, size, cursors);
      DrainedOnList(s', list, size, cursors);
    case LandedReread(d, pages) =>
      if Taken(s, a) && pages.Some? {
        KeptStretch(server, list, size, cursors, s.drains[d].pc.loaded, pages);
        PagesOfKeyed(s.drains[d].key, pages.value, []);
      }
      LandedOnList(s, Apply(s, a), d, list, size, cursors);
    case LandedMore(d, page) =>
      if Taken(s, a) && page.Some? {
        assert Live(s, d);
        MoreLands(s, d, page.value, server, list, size, cursors);
      }
      LandedOnList(s, Apply(s, a), d, list, size, cursors);
    case GoOn(d) =>
      var s' := s.(shown := Snapshot(s.loader));
      SameDrainsOnList(s, s', list, size, cursors);
      LoopOnList(s', d, list, size, cursors);
  }

  lemma MoreLands(s: Sys, d: nat, page: Page, server: Server, list: seq<Node>, size: nat, cursors: nat -> string)
    requires AtMore(s, d) && Live(s, d) && OnList(s, list, size, cursors) && ServesList(server, list, size, cursors)
    requires server(s.drains[d].pc.after) == Some(page)
    ensures Stretch(PagesOf(s.loader.pages + [Keyed(s.drains[d].key, page)]), list, size, cursors)
  {
    hide ServesList, Stretch;
    PagesOfKeyed(s.drains[d].key, [page], s.loader.pages);
    StretchOn(PagesOf(s.loader.pages), page, server, list, size, cursors);
  }

  /** A loader just reset, or not used yet, is on every list whose first page it has. */
  lemma ResetIsOnList(s: Sys, list: seq<Node>, size: nat, cursors: nat -> string)
    requires size > 0 && s.loader.pages == [] && IsHead(s.input.head, list, size, cursors) && forall d: nat :: !Live(s, d)
    ensures OnList(s, list, size, cursors)
  {
  }

  /**
   While every read answers from one list, and no reset comes, what a loader on that list
   has loaded goes on to be a contiguous stretch of it from its second page on.
   */
  lemma {:induction false} RunOnList(
    states: seq<Sys>, actions: seq<Action>, i: nat, n: nat,
    server: Server, list: seq<Node>, size: nat, cursors: nat -> string)
    requires IsRun(states, actions) && i <= n < |states| && ServesList(server, list, size, cursors)
    requires OnList(states[i], list, size, cursors)
    requires forall k :: i <= k < n ==>
      !Resets(states[k], actions[k]) && Truthful(states[k], actions[k], server, list, size, cursors)
    ensures OnList(states[n], list, size, cursors)
  {
    hide Inv, Apply, Enabled, OnList, Truthful, Resets, ServesList;
    if i < n {
      RunOnList(states, actions, i, n - 1, server, list, size, cursors);
      RunHolds(states, actions, n - 1);
      assert Steps(states[n - 1], actions[n - 1], states[n]);
      StepOnList(states[n - 1], actions[n - 1], server, list, size, cursors);
    }
  }

  lemma FullOfNone(size: nat)
    ensures Full(0, size) == 0
  {
  }

  /** The first page and such a stretch are loaded pages as a reread's theorems start from. */
  lemma OnListIsLoaded(s: Sys, list: seq<Node>, size: nat, cursors: nat -> string)
    requires OnList(s, list, size, cursors) && s.input.head.Some? && s.loader.pages != []
    ensures LoadedFrom(list, size, cursors, [s.input.head.value] + PagesOf(s.loader.pages))
  {
    hide PagesOf, PageAt, Full;
    var later := PagesOf(s.loader.pages);
    var pages := [s.input.head.value] + later;
    assert IsPage(later[|later| - 1], |pages| - 1, list, size, cursors);
    FullOfNone(size);
    forall k | 0 <= k < |pages|
      ensures Full(k, size) <= |list| && pages[k] == PageAt(list, size, Full(k, size), cursors)
    {
      if k > 0 { assert IsPage(later[k - 1], k, list, size, cursors); }
    }
  }

  /**
   A reread begun with everything loaded from one list and answered from the list grown in
   front leaves in the loader a stretch of the grown list, which with the new first page
   holds every row loaded before exactly when fewer rows were gained than those pages hold
   when full.
   */
  lemma RereadLands(
    states: seq<Sys>, actions: seq<Action>, k: nat, d: nat, before: seq<Page>, kept: Option<seq<Page>>,
    server: Server, front: seq<Node>, list: seq<Node>, size: nat, cursors: nat -> string, cursors': nat -> string)
    requires IsRun(states, actions) && k < |actions| && actions[k] == LandedReread(d, kept) && Taken(states[k], actions[k])
    requires |before| > 1 && LoadedFrom(list, size, cursors', before)
    requires states[k].drains[d].pc == Rereading(LoadedRowsOf(Some(before[0]), before[1..]))
    requires AllNamed(front + list) && ServesList(server, front + list, size, cursors)
    requires Answers(server, LoadedRowsOf(Some(before[0]), before[1..]), kept)
    ensures var later := PagesOf(states[k + 1].loader.pages);
      && !states[k + 1].loader.failed && Stretch(later, front + list, size, cursors) && server(None).Some?
      && (LoadedRowsOf(Some(before[0]), before[1..]).ids <= IdsOf([server(None).value] + later) <==>
            |front| < |before| * size)
  {
    hide LoadedFrom, LoadedRowsOf, AllNamed, ServesList, Answers, Stretch, IdsOf, PagesOf;
    assert Steps(states[k], actions[k], states[k + 1]);
    var loaded := LoadedRowsOf(Some(before[0]), before[1..]);
    KeptStretch(server, front + list, size, cursors, loaded, kept);
    RereadAnswersLoaded(server, front, list, size, cursors, cursors', before, kept);
    StepBrings(states[k], actions[k]);
  }
}
