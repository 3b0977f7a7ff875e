/** The page loader object: what each event and each stretch between two awaits of a drain does to its fields. */
module PageLoader {
  import opened Wrappers
  import opened Connection
  import opened Reread
  import P = LoaderProtocol

  class PageLoader {
    var key: string
    var pages: seq<P.Keyed>
    var fetching: bool
    var failed: bool
    var generation: nat
    var running: bool
    var wantMore: bool
    var wantReread: bool
    /** What the screen was last told to show. */
    var shown: P.Shown

    constructor (key: string)
      ensures Value() == P.NewLoader(key) && shown == P.Snapshot(Value())
    {
      this.key, pages, fetching, failed := key, [], false, false;
      generation, running, wantMore, wantReread := 0, false, false, false;
      shown := P.Shown(key, [], false, false);
    }

    ghost function Value(): P.Loader
      reads this
    {
      P.Loader(key, pages, fetching, failed, generation, running, wantMore, wantReread)
    }

    method Publish()
      modifies this`shown
      ensures shown == P.Snapshot(Value())
    {
      shown := P.Shown(key, pages, fetching, failed);
    }

    /** Points the loader at new variables, when they are new, dropping the run and the read in flight. */
    method Rekey(key: string)
      modifies this
      ensures this.key == key
      ensures if old(this.key) == key then Value() == old(Value()) && shown == old(shown)
              else Value() == P.Reset(old(Value()), key) && shown == P.Snapshot(Value())
    {
      if this.key != key {
        this.key, pages, fetching, failed := key, [], false, false;
        running, wantMore, wantReread := false, false, false;
        generation := generation + 1;
        Publish();
      }
    }

    /** Starts a drain up to its first await, unless one is running. */
    method Drain(input: P.Input) returns (begun: Option<P.Drain>)
      modifies this
      ensures old(running) ==> begun == None && Value() == old(Value()) && shown == old(shown)
      ensures !old(running) ==>
        var (loader, pc, published) := P.Loop(old(Value()).(running := true), input, old(generation));
        && begun == Some(P.Drain(old(generation), pc, input.key)) && Value() == loader
        && shown == if published then P.Snapshot(loader) else old(shown)
    {
      if running {
        return None;
      }
      running := true;
      var began := generation;
      var pc := GoRound(input, began);
      return Some(P.Drain(began, pc, input.key));
    }

    /** Shows what the job changed and goes on to the next await. */
    method GoOn(input: P.Input, began: nat) returns (pc: P.Pc)
      modifies this
      ensures var (loader, next, published) := P.Loop(old(Value()), input, began);
        && Value() == loader && pc == next
        && shown == if published then P.Snapshot(loader) else P.Snapshot(old(Value()))
    {
      Publish();
      pc := GoRound(input, began);
    }

    method GoRound(input: P.Input, began: nat) returns (pc: P.Pc)
      modifies this
      ensures var (loader, next, published) := P.Loop(old(Value()), input, began);
        && Value() == loader && pc == next
        && shown == if published then P.Snapshot(loader) else old(shown)
    {
      if began == generation && (wantReread || wantMore) {
        if wantReread && input.paused {
          running := false;
          return P.Done;
        }
        if wantReread {
          wantReread := false;
          pc := RereadAll(input);
        } else {
          wantMore := false;
          pc := ReadMore(input);
        }
        return;
      }
      if began == generation {
        running := false;
      }
      return P.Done;
    }

    method RereadAll(input: P.Input) returns (pc: P.Pc)
      modifies this`failed
      ensures if pages == [] then pc == P.Returning && !failed
              else pc == P.Rereading(LoadedRowsOf(input.head, P.PagesOf(pages))) && failed == old(failed)
    {
      if |pages| == 0 {
        failed := false;
        return P.Returning;
      }
      return P.Rereading(LoadedRowsOf(input.head, P.PagesOf(pages)));
    }

    method ReadMore(input: P.Input) returns (pc: P.Pc)
      modifies this`fetching, this`shown
      ensures var last := P.LastOf(Value(), input);
        if last.None? || !last.value.hasNext then
          pc == P.Returning && Value() == old(Value()) && shown == old(shown)
        else
          pc == P.ReadingMore(last.value.cursor) && Value() == old(Value()).(fetching := true) && shown == P.Snapshot(Value())
    {
      var last := if |pages| > 0 then Some(pages[|pages| - 1].page) else input.head;
      if last.None? || !last.value.hasNext {
        return P.Returning;
      }
      fetching := true;
      Publish();
      return P.ReadingMore(last.value.cursor);
    }

    /** Takes what a reread brought back, unless the loader was reset meanwhile. */
    method LandReread(began: nat, read: Option<seq<P.Keyed>>)
      modifies this`failed, this`pages
      ensures Value() == P.LandReread(old(Value()), began, read)
    {
      if began == generation {
        failed := read.None?;
        pages := if read.Some? then read.value else pages;
      }
    }

    /** Takes the page read after the last one, unless the loader was reset meanwhile. */
    method LandMore(began: nat, read: Option<P.Keyed>)
      modifies this`fetching, this`failed, this`pages
      ensures Value() == P.LandMore(old(Value()), began, read)
    {
      if began == generation {
        fetching := false;
        failed := read.None?;
        pages := if read.Some? then pages + [read.value] else pages;
      }
    }
  }
}
