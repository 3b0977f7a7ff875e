/** Whole runs of the page loader: no job is lost, one drain works at a time, and a read from before a reset lands nowhere. */
module LoaderRuns {
  import opened Wrappers
  import opened Connection
  import opened LoaderProtocol
  import opened LoaderSafety

  ghost predicate IsRun(states: seq<Sys>, actions: seq<Action>) {
    && |states| == |actions| + 1
    && Start(states[0])
    && forall i :: 0 <= i < |actions| ==> Steps(states[i], actions[i], states[i + 1])
  }

  predicate Steps(s: Sys, a: Action, s': Sys) {
    Enabled(s, a) && s' == Apply(s, a)
  }

  lemma {:induction false} RunHolds(states: seq<Sys>, actions: seq<Action>, i: nat)
    requires IsRun(states, actions) && i < |states|
    ensures Inv(states[i])
  {
    hide Inv;
    if i == 0 {
      StartHolds(states[0]);
    } else {
      RunHolds(states, actions, i - 1);
      assert Steps(states[i - 1], actions[i - 1], states[i]);
      StepHolds(states[i - 1], actions[i - 1]);
    }
  }

  /** Generations only rise, by one with each reset, and a drain keeps the one it began in. */
  ghost predicate Ages(s: Sys, s': Sys) {
    && s.loader.generation <= s'.loader.generation
    && (s.loader.key != s'.loader.key ==> s.loader.generation < s'.loader.generation)
    && |s.drains| <= |s'.drains|
    && forall d :: 0 <= d < |s.drains| ==> s'.drains[d].generation == s.drains[d].generation
  }

  lemma LoopedAges(s: Sys, d: nat)
    requires d < |s.drains|
    ensures Ages(s, Looped(s, d)) && Looped(s, d).loader.generation == s.loader.generation
  {
  }

  lemma DrainedAges(s: Sys)
    ensures Ages(s, Drained(s)) && Drained(s).loader.generation == s.loader.generation
  {
    if !s.loader.running {
      var begun := Drain(s.loader.generation, Returning, s.input.key);
      LoopedAges(s.(loader := s.loader.(running := true), drains := s.drains + [begun]), |s.drains|);
    }
  }

  lemma StepAges(s: Sys, a: Action)
    requires Enabled(s, a)
    ensures Ages(s, Apply(s, a))
    ensures a.Rendered? && a.key != s.loader.key ==> s.loader.generation < Apply(s, a).loader.generation
  {
    hide Looped, Drained;
    match a
    case Refetched => DrainedAges(s.(loader := s.loader.(wantReread := true)));
    case FetchNextPage => DrainedAges(s.(loader := s.loader.(wantMore := true)));
    case Rendered(key, head, paused) =>
      var input := s.(input := Input(key, head, paused));
      DrainedAges(input);
      DrainedAges(input.(loader := Reset(s.loader, key), shown := Snapshot(Reset(s.loader, key))));
    case GoOn(d) => LoopedAges(s.(shown := Snapshot(s.loader)), d);
    case _ =>
  }

  lemma {:induction false} RunAges(states: seq<Sys>, actions: seq<Action>, i: nat, j: nat)
    requires IsRun(states, actions) && i <= j < |states|
    ensures Ages(states[i], states[j])
  {
    hide Apply, Enabled;
    if i < j {
      RunAges(states, actions, i, j - 1);
      assert Steps(states[j - 1], actions[j - 1], states[j]);
      StepAges(states[j - 1], actions[j - 1]);
    }
  }

  /** Whenever a job waits with no drain running, the connection is paused with a reread waiting. */
  lemma NoJobLost(states: seq<Sys>, actions: seq<Action>, i: nat)
    requires IsRun(states, actions) && i < |states|
    ensures var s := states[i];
      (s.loader.wantMore || s.loader.wantReread) && !s.loader.running ==> s.input.paused && s.loader.wantReread
  {
    RunHolds(states, actions, i);
  }

  /** At most one drain of the current generation is active, exactly while the loader says it is running. */
  lemma OneDrainAtATime(states: seq<Sys>, actions: seq<Action>, i: nat)
    requires IsRun(states, actions) && i < |states|
    ensures states[i].loader.running <==> exists d: nat :: Live(states[i], d)
    ensures forall d: nat, e: nat :: Live(states[i], d) && Live(states[i], e) ==> d == e
  {
    RunHolds(states, actions, i);
  }

  /** The pages the screen lists under the connection's variables were read with them. */
  lemma PagesOfTheirVariables(states: seq<Sys>, actions: seq<Action>, i: nat)
    requires IsRun(states, actions) && i < |states|
    ensures states[i].shown.key == states[i].input.key ==> OfKey(states[i].shown.pages, states[i].input.key)
    ensures OfKey(states[i].loader.pages, states[i].input.key)
  {
    RunHolds(states, actions, i);
  }

  /** The screen shows the loader's own pages and flags, but between a job's end and its drain going on. */
  lemma ScreenShowsLoader(states: seq<Sys>, actions: seq<Action>, i: nat)
    requires IsRun(states, actions) && i < |states|
    requires forall d: nat :: Live(states[i], d) ==> !states[i].drains[d].pc.Returning?
    ensures var (shown, loader) := (states[i].shown, states[i].loader);
      && shown.key == loader.key == states[i].input.key && shown.pages == loader.pages
      && shown.fetching == loader.fetching && shown.failed == loader.failed
  {
    RunHolds(states, actions, i);
  }

  /** A read in flight when the loader was reset changes nothing of it when it lands. */
  lemma ResetDropsReads(states: seq<Sys>, actions: seq<Action>, i: nat, j: nat, k: nat, d: nat)
    requires IsRun(states, actions) && i <= j < k < |actions| && d < |states[i].drains|
    requires actions[j].Rendered? && actions[j].key != states[j].loader.key
    requires (actions[k].LandedReread? || actions[k].LandedMore?) && actions[k].d == d
    ensures states[k + 1].loader == states[k].loader && states[k + 1].shown == states[k].shown
  {
    hide Looped, Drained;
    assert Steps(states[j], actions[j], states[j + 1]) && Steps(states[k], actions[k], states[k + 1]);
    RunHolds(states, actions, i);
    RunAges(states, actions, i, j);
    StepAges(states[j], actions[j]);
    RunAges(states, actions, j + 1, k);
    RunAges(states, actions, i, k);
  }

  // Bursts end.

  function Rank(pc: Pc): nat {
    match pc
    case Done => 0
    case Returning => 1
    case _ => 2
  }

  function StepsLeft(drains: seq<Drain>): nat {
    if drains == [] then 0 else StepsLeft(drains[..|drains| - 1]) + Rank(drains[|drains| - 1].pc)
  }

  lemma {:induction false} MovedOn(drains: seq<Drain>, d: nat, drain: Drain)
    requires d < |drains|
    ensures StepsLeft(drains[d := drain]) == StepsLeft(drains) - Rank(drains[d].pc) + Rank(drain.pc)
  {
    var n := |drains| - 1;
    if d < n {
      assert drains[d := drain][..n] == drains[..n][d := drain];
      MovedOn(drains[..n], d, drain);
    } else {
      assert drains[d := drain][..n] == drains[..n];
    }
  }

  /** The steps the drains can still take: two for each job waiting, and what is left of each job begun. */
  function Work(s: Sys): nat {
    (if s.loader.wantMore then 2 else 0) + (if s.loader.wantReread then 2 else 0) + StepsLeft(s.drains)
  }

  /** However many wakeups came in a burst, each step of a drain leaves less to do. */
  lemma DrainsSettle(s: Sys, a: Action)
    requires Enabled(s, a) && (a.LandedReread? || a.LandedMore? || a.GoOn?)
    ensures Work(Apply(s, a)) < Work(s)
  {
    MovedOn(s.drains, a.d, Apply(s, a).drains[a.d]);
  }
}
