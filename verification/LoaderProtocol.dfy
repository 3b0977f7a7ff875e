/**
 The page loader of one connection: what happens at each event and between the
 awaits of each drain it starts.
 */
module LoaderProtocol {
  import opened Wrappers
  import opened Connection
  import opened Reread

  /** A page beside the variables it was read with. */
  datatype Keyed = Keyed(key: string, page: Page)

  datatype Loader = Loader(
    key: string, pages: seq<Keyed>, fetching: bool, failed: bool,
    generation: nat, running: bool, wantMore: bool, wantReread: bool)

  /** What the loader reads with, kept current every render. */
  datatype Input = Input(key: string, head: Option<Page>, paused: bool)

  /** What the screen shows of a loader. */
  datatype Shown = Shown(key: string, pages: seq<Keyed>, fetching: bool, failed: bool)

  /**
   Where a drain waits: on a reread of what was loaded, on the page after a cursor, or to
   go on after either; done when it ended.
   */
  datatype Pc = Rereading(loaded: Loaded) | ReadingMore(after: Option<string>) | Returning | Done

  /** A drain beside the generation it began in and the variables its read in flight was sent with. */
  datatype Drain = Drain(generation: nat, pc: Pc, key: string)

  datatype Sys = Sys(loader: Loader, input: Input, shown: Shown, drains: seq<Drain>)

  function NewLoader(key: string): Loader {
    Loader(key, [], false, false, 0, false, false, false)
  }

  function Snapshot(loader: Loader): Shown {
    Shown(loader.key, loader.pages, loader.fetching, loader.failed)
  }

  /** An empty loader for the new variables, one generation on, so that whatever is in flight lands in vain. */
  function Reset(loader: Loader, key: string): Loader {
    Loader(key, [], false, false, loader.generation + 1, false, false, false)
  }

  function PagesOf(keyed: seq<Keyed>): (pages: seq<Page>)
    ensures |pages| == |keyed|
  {
    seq(|keyed|, i requires 0 <= i < |keyed| => keyed[i].page)
  }

  function LastOf(loader: Loader, input: Input): Option<Page> {
    if loader.pages != [] then Some(loader.pages[|loader.pages| - 1].page) else input.head
  }

  /** A drain's loop from its condition to its next await: the loader, where the drain then waits, and whether it published. */
  function Loop(loader: Loader, input: Input, generation: nat): (Loader, Pc, bool) {
    if generation != loader.generation then (loader, Done, false)
    else if !(loader.wantReread || loader.wantMore) || (loader.wantReread && input.paused) then
      (loader.(running := false), Done, false)
    else if loader.wantReread then
      if loader.pages == [] then (loader.(wantReread := false, failed := false), Returning, false)
      else (loader.(wantReread := false), Rereading(LoadedRowsOf(input.head, PagesOf(loader.pages))), false)
    else
      var last := LastOf(loader, input);
      if last.None? || !last.value.hasNext then (loader.(wantMore := false), Returning, false)
      else (loader.(wantMore := false, fetching := true), ReadingMore(last.value.cursor), true)
  }

  /** What a reread brought back, dropped when the loader was reset meanwhile; a failed one keeps the pages. */
  function LandReread(loader: Loader, generation: nat, read: Option<seq<Keyed>>): Loader {
    if generation != loader.generation then loader
    else loader.(failed := read.None?, pages := if read.Some? then read.value else loader.pages)
  }

  function LandMore(loader: Loader, generation: nat, read: Option<Keyed>): Loader {
    if generation != loader.generation then loader
    else loader.(
      fetching := false, failed := read.None?,
      pages := if read.Some? then loader.pages + [read.value] else loader.pages)
  }

  // The whole system.

  datatype Action =
    | Refetched
    | FetchNextPage
    | Rendered(key: string, head: Option<Page>, paused: bool)
    | LandedReread(d: nat, pages: Option<seq<Page>>)
    | LandedMore(d: nat, page: Option<Page>)
    | GoOn(d: nat)

  predicate Start(s: Sys) {
    s.loader == NewLoader(s.input.key) && s.shown == Snapshot(s.loader) && s.drains == []
  }

  predicate AtReread(s: Sys, d: nat) { d < |s.drains| && s.drains[d].pc.Rereading? }

  predicate AtMore(s: Sys, d: nat) { d < |s.drains| && s.drains[d].pc.ReadingMore? }

  predicate AtReturn(s: Sys, d: nat) { d < |s.drains| && s.drains[d].pc.Returning? }

  predicate Enabled(s: Sys, a: Action) {
    match a
    case LandedReread(d, _) => AtReread(s, d)
    case LandedMore(d, _) => AtMore(s, d)
    case GoOn(d) => AtReturn(s, d)
    case _ => true
  }

  /** A drain goes round its loop. */
  function Looped(s: Sys, d: nat): Sys
    requires d < |s.drains|
  {
    var (loader, pc, published) := Loop(s.loader, s.input, s.drains[d].generation);
    s.(loader := loader,
       shown := if published then Snapshot(loader) else s.shown,
       drains := s.drains[d := s.drains[d].(pc := pc, key := s.input.key)])
  }

  /** Starts a drain unless one of this generation is running. */
  function Drained(s: Sys): Sys {
    if s.loader.running then s
    else
      var begun := Drain(s.loader.generation, Returning, s.input.key);
      Looped(s.(loader := s.loader.(running := true), drains := s.drains + [begun]), |s.drains|)
  }

  /** One render: the input is brought up to date, new variables reset the loader, and an ended pause starts a waiting reread. */
  function AfterRender(s: Sys, key: string, head: Option<Page>, paused: bool): Sys {
    var was := s.input.paused;
    var s := s.(input := Input(key, head, paused));
    var s := if s.loader.key == key then s
             else s.(loader := Reset(s.loader, key), shown := Snapshot(Reset(s.loader, key)));
    if paused != was && !paused && s.loader.wantReread then Drained(s) else s
  }

  function KeyAll(key: string, pages: seq<Page>): (keyed: seq<Keyed>)
    ensures |keyed| == |pages|
  {
    seq(|pages|, i requires 0 <= i < |pages| => Keyed(key, pages[i]))
  }

  function Apply(s: Sys, a: Action): Sys
    requires Enabled(s, a)
  {
    match a
    case Refetched =>
      var s := s.(loader := s.loader.(wantReread := true));
      if s.input.paused then s else Drained(s)
    case FetchNextPage => Drained(s.(loader := s.loader.(wantMore := true)))
    case Rendered(key, head, paused) => AfterRender(s, key, head, paused)
    case LandedReread(d, pages) =>
      var drain := s.drains[d];
      var keyed := if pages.Some? then Some(KeyAll(drain.key, pages.value)) else None;
      s.(loader := LandReread(s.loader, drain.generation, keyed), drains := s.drains[d := drain.(pc := Returning)])
    case LandedMore(d, page) =>
      var drain := s.drains[d];
      var keyed := if page.Some? then Some(Keyed(drain.key, page.value)) else None;
      s.(loader := LandMore(s.loader, drain.generation, keyed), drains := s.drains[d := drain.(pc := Returning)])
    case GoOn(d) => Looped(s.(shown := Snapshot(s.loader)), d)
  }
}
