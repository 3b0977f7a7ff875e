/** What every reachable state of the page loader keeps. */
module LoaderSafety {
  import opened Wrappers
  import opened Connection
  import opened LoaderProtocol

  /** A drain of the current generation that has not ended. */
  predicate Live(s: Sys, d: nat) {
    d < |s.drains| && s.drains[d].pc != Done && s.drains[d].generation == s.loader.generation
  }

  ghost predicate OneDrain(s: Sys) {
    && (s.loader.running <==> exists d: nat :: Live(s, d))
    && (forall d: nat, e: nat :: Live(s, d) && Live(s, e) ==> d == e)
    && (forall d :: 0 <= d < |s.drains| ==> s.drains[d].generation <= s.loader.generation)
  }

  /** A job waits with no drain running only behind a pause with a reread waiting. */
  predicate NoLostJob(s: Sys) {
    (s.loader.wantMore || s.loader.wantReread) && !s.loader.running ==> s.input.paused && s.loader.wantReread
  }

  /** The fetching flag is up exactly while a drain of this generation reads a further page. */
  ghost predicate FetchingTrue(s: Sys) {
    s.loader.fetching <==> exists d: nat :: Live(s, d) && s.drains[d].pc.ReadingMore?
  }

  predicate OfKey(pages: seq<Keyed>, key: string) {
    forall i :: 0 <= i < |pages| ==> pages[i].key == key
  }

  /** Every page was read with the variables it is listed under, and no other variables' pages can still land. */
  ghost predicate KeysMatch(s: Sys) {
    && s.input.key == s.loader.key
    && OfKey(s.loader.pages, s.loader.key) && OfKey(s.shown.pages, s.shown.key)
    && forall d: nat :: Live(s, d) ==> s.drains[d].key == s.loader.key
  }

  /** The screen shows the loader as it is, but between a job's end and the drain going on. */
  ghost predicate ScreenTrue(s: Sys) {
    s.shown == Snapshot(s.loader) || exists d: nat :: Live(s, d) && s.drains[d].pc == Returning
  }

  ghost predicate Inv(s: Sys) {
    OneDrain(s) && NoLostJob(s) && FetchingTrue(s) && KeysMatch(s) && ScreenTrue(s)
  }

  lemma StartHolds(s: Sys)
    requires Start(s)
    ensures Inv(s)
  {
  }

  /** A drain about to go round its loop, the screen showing the loader as it is. */
  ghost predicate AboutToLoop(s: Sys, d: nat) {
    Inv(s) && AtReturn(s, d) && s.shown == Snapshot(s.loader)
  }

  /** Going round leaves every other drain as it is. */
  lemma LoopedLive(s: Sys, d: nat, e: nat)
    requires d < |s.drains|
    ensures var s' := Looped(s, d);
      && s'.loader.generation == s.loader.generation && s'.loader.key == s.loader.key && s'.loader.pages == s.loader.pages
      && |s'.drains| == |s.drains|
      && (e != d ==> (Live(s', e) <==> Live(s, e)) && (e < |s.drains| ==> s'.drains[e] == s.drains[e]))
      && (Live(s', d) ==> s.drains[d].generation == s.loader.generation)
  {
  }

  lemma LoopedOneDrain(s: Sys, d: nat)
    requires AboutToLoop(s, d)
    ensures OneDrain(Looped(s, d)) && NoLostJob(Looped(s, d))
  {
    var s' := Looped(s, d);
    forall e: nat ensures e != d ==> (Live(s', e) <==> Live(s, e)) {
      LoopedLive(s, d, e);
    }
    hide KeysMatch, FetchingTrue, ScreenTrue;
    if s.drains[d].generation == s.loader.generation {
      assert Live(s, d);
      assert Live(s', d) <==> s'.loader.running;
    } else {
      assert s'.loader == s.loader && !Live(s', d);
    }
  }

  lemma LoopedScreen(s: Sys, d: nat)
    requires AboutToLoop(s, d)
    ensures FetchingTrue(Looped(s, d)) && ScreenTrue(Looped(s, d)) && KeysMatch(Looped(s, d))
  {
    var s' := Looped(s, d);
    forall e: nat ensures e != d ==> (Live(s', e) <==> Live(s, e)) && (e < |s.drains| ==> s'.drains[e] == s.drains[e]) {
      LoopedLive(s, d, e);
    }
    if s.drains[d].generation == s.loader.generation {
      assert Live(s, d);
      assert s'.drains[d].pc.ReadingMore? ==> Live(s', d);
      assert s'.drains[d].pc == Returning ==> Live(s', d);
    } else {
      assert s'.loader == s.loader && s'.shown == s.shown && !Live(s', d);
    }
  }

  lemma LoopedHolds(s: Sys, d: nat)
    requires AboutToLoop(s, d)
    ensures Inv(Looped(s, d))
  {
    hide OneDrain, NoLostJob, FetchingTrue, KeysMatch, ScreenTrue, Looped;
    LoopedOneDrain(s, d);
    LoopedScreen(s, d);
  }

  /** All but a job possibly waiting with no drain running, which starting a drain mends. */
  ghost predicate InvButJobs(s: Sys) {
    OneDrain(s) && FetchingTrue(s) && KeysMatch(s) && ScreenTrue(s)
  }

  lemma DrainedHolds(s: Sys)
    requires InvButJobs(s)
    ensures Inv(Drained(s))
  {
    if !s.loader.running {
      var begun := Drain(s.loader.generation, Returning, s.input.key);
      var s' := s.(loader := s.loader.(running := true), drains := s.drains + [begun]);
      forall e: nat ensures e < |s.drains| ==> (Live(s', e) <==> Live(s, e)) && s'.drains[e] == s.drains[e] {}
      assert Live(s', |s.drains|);
      assert AboutToLoop(s', |s.drains|);
      LoopedHolds(s', |s.drains|);
    }
  }

  lemma LandedHolds(s: Sys, d: nat, s': Sys)
    requires Inv(s) && d < |s.drains| && (s.drains[d].pc.Rereading? || s.drains[d].pc.ReadingMore?)
    requires s' == s.(loader := s'.loader, drains := s.drains[d := s.drains[d].(pc := Returning)])
    requires if s.drains[d].generation == s.loader.generation
             then s'.loader == s.loader.(fetching := false, failed := s'.loader.failed, pages := s'.loader.pages)
                  && OfKey(s'.loader.pages, s.loader.key)
             else s'.loader == s.loader
    ensures Inv(s')
  {
    forall e: nat ensures (Live(s', e) <==> Live(s, e)) && (e < |s.drains| && e != d ==> s'.drains[e] == s.drains[e]) {}
    if s.drains[d].generation == s.loader.generation {
      assert Live(s, d) && Live(s', d);
    }
  }

  lemma LandedRereadHolds(s: Sys, d: nat, pages: Option<seq<Page>>)
    requires Inv(s) && AtReread(s, d)
    ensures Inv(Apply(s, LandedReread(d, pages)))
  {
    assert s.drains[d].generation == s.loader.generation ==> Live(s, d);
    LandedHolds(s, d, Apply(s, LandedReread(d, pages)));
  }

  lemma LandedMoreHolds(s: Sys, d: nat, page: Option<Page>)
    requires Inv(s) && AtMore(s, d)
    ensures Inv(Apply(s, LandedMore(d, page)))
  {
    assert s.drains[d].generation == s.loader.generation ==> Live(s, d);
    LandedHolds(s, d, Apply(s, LandedMore(d, page)));
  }

  lemma RenderedHolds(s: Sys, key: string, head: Option<Page>, paused: bool)
    requires Inv(s)
    ensures Inv(AfterRender(s, key, head, paused))
  {
    var input := s.(input := Input(key, head, paused));
    var rendered := if s.loader.key == key then input
                    else input.(loader := Reset(s.loader, key), shown := Snapshot(Reset(s.loader, key)));
    if s.loader.key == key {
      forall e: nat ensures Live(rendered, e) <==> Live(s, e) {}
    } else {
      forall e: nat ensures !Live(rendered, e) {}
    }
    assert InvButJobs(rendered);
    DrainedHolds(rendered);
  }

  lemma StepHolds(s: Sys, a: Action)
    requires Inv(s) && Enabled(s, a)
    ensures Inv(Apply(s, a))
  {
    match a
    case Refetched =>
      var s' := s.(loader := s.loader.(wantReread := true));
      forall e: nat ensures Live(s', e) <==> Live(s, e) {}
      assert InvButJobs(s');
      DrainedHolds(s');
    case FetchNextPage =>
      var s' := s.(loader := s.loader.(wantMore := true));
      forall e: nat ensures Live(s', e) <==> Live(s, e) {}
      assert InvButJobs(s');
      DrainedHolds(s');
    case Rendered(key, head, paused) => RenderedHolds(s, key, head, paused);
    case LandedReread(d, pages) => LandedRereadHolds(s, d, pages);
    case LandedMore(d, page) => LandedMoreHolds(s, d, page);
    case GoOn(d) =>
      var s' := s.(shown := Snapshot(s.loader));
      forall e: nat ensures Live(s', e) <==> Live(s, e) {}
      assert AboutToLoop(s', d);
      LoopedHolds(s', d);
  }
}
