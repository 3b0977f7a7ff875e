/** Reading every loaded page of a connection again, and what a list that changed meanwhile keeps of it. */
module Reread {
  import opened Wrappers
  import opened Connection

  /** What the stop rule looks at: `count` pages past the first, the ids of them all, and those of the last. */
  datatype Loaded = Loaded(count: nat, ids: set<string>, last: set<string>)

  type Server = Option<string> -> Option<Page>

  function LoadedRowsOf(head: Option<Page>, pages: seq<Page>): Loaded {
    var first := if head.Some? then [head.value] else [];
    Loaded(|pages|, IdsOf(first + pages), if pages == [] then {} else IdsOf(pages[|pages| - 1..]))
  }

  /** Up to the loaded count, and past it while the page just read held a loaded row and the last page's are unread. */
  predicate ReadsOn(pages: seq<Page>, loaded: Loaded)
    requires pages != []
  {
    |pages| <= loaded.count ||
    (!(loaded.last <= IdsOf(pages)) && IdsOf(pages[|pages| - 1..]) * loaded.ids != {})
  }

  /** All the pages but a last one past the loaded count that holds no loaded row. */
  function KeptPages(later: seq<Page>, loaded: Loaded): (kept: seq<Page>)
    ensures kept <= later && |later| <= |kept| + 1
  {
    if |later| <= loaded.count || IdsOf(later[|later| - 1..]) * loaded.ids != {} then later
    else later[..|later| - 1]
  }

  /** Pages read one after another, each by the cursor of the one before and only while the reread reads on. */
  predicate ReadInTurn(server: Server, loaded: Loaded, pages: seq<Page>) {
    && pages != []
    && var before, page := pages[..|pages| - 1], pages[|pages| - 1];
    if before == [] then server(None) == Some(page)
    else
      && ReadInTurn(server, loaded, before) && !Ends(loaded, before)
      && server(before[|before| - 1].cursor) == Some(page)
  }

  /** Whether the reread ends after these pages. */
  predicate Ends(loaded: Loaded, pages: seq<Page>)
    requires pages != []
  {
    !pages[|pages| - 1].hasNext || !ReadsOn(pages, loaded)
  }

  /** Each cursor the server hands out leads strictly closer to the end of its list. */
  ghost predicate Advances(server: Server, rank: Option<string> -> nat) {
    forall after :: server(after).Some? && server(after).value.hasNext ==> rank(server(after).value.cursor) < rank(after)
  }

  /** These pages, read in turn until the reread ended or a read failed, leave this answer. */
  ghost predicate Leaves(server: Server, loaded: Loaded, read: seq<Page>, kept: Option<seq<Page>>) {
    if read == [] then kept == None && server(None) == None
    else
      && ReadInTurn(server, loaded, read)
      && match kept
        case Some(pages) => Ends(loaded, read) && pages == KeptPages(read[1..], loaded)
        case None => !Ends(loaded, read) && server(read[|read| - 1].cursor) == None
  }

  ghost predicate Answers(server: Server, loaded: Loaded, kept: Option<seq<Page>>) {
    exists read: seq<Page> :: Leaves(server, loaded, read, kept)
  }

  /**
   The pages past the first, or none when a read failed. The reread ends on every
   server whose cursors advance.
   */
  method RereadPages(server: Server, ghost rank: Option<string> -> nat, loaded: Loaded)
    returns (kept: Option<seq<Page>>)
    requires Advances(server, rank)
    ensures Answers(server, loaded, kept)
  {
    var pages: seq<Page> := [];
    var after: Option<string> := None;
    while true
      invariant after == if pages == [] then None else pages[|pages| - 1].cursor
      invariant pages != [] ==> ReadInTurn(server, loaded, pages) && !Ends(loaded, pages)
      decreases rank(after)
    {
      var page := server(after);
      if page.None? {
        assert Leaves(server, loaded, pages, None);
        return None;
      }
      assert (pages + [page.value])[..|pages|] == pages;
      pages := pages + [page.value];
      after := page.value.cursor;
      if !page.value.hasNext {
        break;
      }
      if !ReadsOn(pages, loaded) {
        break;
      }
    }
    kept := Some(KeptPages(pages[1..], loaded));
    assert Leaves(server, loaded, pages, kept);
  }

  /** A server leaves one answer only: what one reread kept any other would keep. */
  lemma OneAnswer(server: Server, loaded: Loaded, kept: Option<seq<Page>>, kept': Option<seq<Page>>)
    requires Answers(server, loaded, kept) && Answers(server, loaded, kept')
    ensures kept == kept'
  {
    hide ReadInTurn, Ends;
    var read :| Leaves(server, loaded, read, kept);
    var read' :| Leaves(server, loaded, read', kept');
    if |read| <= |read'| {
      SameRead(server, loaded, read, kept, read', kept');
    } else {
      SameRead(server, loaded, read', kept', read, kept);
    }
  }

  lemma SameRead(
    server: Server, loaded: Loaded, read: seq<Page>, kept: Option<seq<Page>>, read': seq<Page>, kept': Option<seq<Page>>)
    requires Leaves(server, loaded, read, kept) && Leaves(server, loaded, read', kept') && |read| <= |read'|
    ensures read == read'
  {
    hide ReadInTurn, Ends, KeptPages;
    if read == [] {
      if read' != [] { ReadsAgree(server, loaded, read', read', 1); }
    } else {
      ReadsAgree(server, loaded, read, read', |read|);
      assert read == read'[..|read|];
      if |read| < |read'| {
        ReadOnAfter(server, loaded, read', |read|);
        NextRead(server, loaded, read', |read|);
      } else {
        assert read' == read'[..|read'|];
      }
    }
  }

  /** What was read from a server is the same for as long as both went on. */
  lemma {:induction false} ReadsAgree(server: Server, loaded: Loaded, read: seq<Page>, read': seq<Page>, n: nat)
    requires ReadInTurn(server, loaded, read) && ReadInTurn(server, loaded, read')
    requires 0 < n <= |read| && n <= |read'|
    ensures read[..n] == read'[..n] && server(None) == Some(read[0])
  {
    hide ReadInTurn, Ends;
    NextRead(server, loaded, read, n - 1);
    NextRead(server, loaded, read', n - 1);
    if n > 1 {
      ReadsAgree(server, loaded, read, read', n - 1);
      assert read[..n - 1][n - 2] == read'[..n - 1][n - 2];
    }
    assert read[..n] == read[..n - 1] + [read[n - 1]];
    assert read'[..n] == read'[..n - 1] + [read'[n - 1]];
  }

  /** Each page was read by the cursor of the one before it. */
  lemma {:induction false} NextRead(server: Server, loaded: Loaded, read: seq<Page>, n: nat)
    requires ReadInTurn(server, loaded, read) && n < |read|
    ensures server(if n == 0 then None else read[n - 1].cursor) == Some(read[n])
  {
    if n < |read| - 1 {
      NextRead(server, loaded, read[..|read| - 1], n);
    }
  }

  lemma {:induction false} ReadOnAfter(server: Server, loaded: Loaded, read: seq<Page>, n: nat)
    requires ReadInTurn(server, loaded, read) && 0 < n < |read|
    ensures ReadInTurn(server, loaded, read[..n]) && !Ends(loaded, read[..n])
  {
    if n < |read| - 1 {
      assert read[..|read| - 1][..n] == read[..n];
      ReadOnAfter(server, loaded, read[..|read| - 1], n);
    }
  }

  // What a reread keeps, whatever became of the list.

  /** A reread keeps no fewer pages than were loaded unless the list ends, and any page past them holds a loaded row. */
  lemma KeepsLoadedCount(server: Server, loaded: Loaded, read: seq<Page>)
    requires read != [] && ReadInTurn(server, loaded, read) && Ends(loaded, read)
    ensures var kept := KeptPages(read[1..], loaded);
      && (|kept| >= loaded.count || (|kept| == |read| - 1 && !read[|read| - 1].hasNext))
      && forall k :: loaded.count <= k < |kept| ==> IdsOf([kept[k]]) * loaded.ids != {}
  {
    hide ReadInTurn, IdsOf;
    var kept := KeptPages(read[1..], loaded);
    forall k | loaded.count <= k < |kept| ensures IdsOf([kept[k]]) * loaded.ids != {} {
      KeptPastCount(server, loaded, read, k);
    }
  }

  lemma KeptPastCount(server: Server, loaded: Loaded, read: seq<Page>, k: nat)
    requires read != [] && ReadInTurn(server, loaded, read) && loaded.count <= k < |KeptPages(read[1..], loaded)|
    ensures IdsOf([KeptPages(read[1..], loaded)[k]]) * loaded.ids != {}
  {
    hide ReadInTurn, IdsOf;
    if k + 2 < |read| {
      ReadOnAfter(server, loaded, read, k + 2);
      assert read[..k + 2][k + 1..] == [read[k + 1]];
    } else {
      assert read[1..][k..] == [read[k + 1]];
    }
  }

  // A server of one list.

  /** The page starting at a row of the list. */
  function PageAt(list: seq<Node>, size: nat, at: nat, cursors: nat -> string): Page
    requires at <= |list|
  {
    var end := if at + size <= |list| then at + size else |list|;
    Page(list[at..end], at + size < |list|, Some(cursors(end)))
  }

  /** A server of one list in pages of one size, from its start or the row a cursor names. */
  ghost predicate ServesList(server: Server, list: seq<Node>, size: nat, cursors: nat -> string) {
    && size > 0 && server(None) == Some(PageAt(list, size, 0, cursors))
    && forall at: nat :: 0 < at < |list| ==> server(Some(cursors(at))) == Some(PageAt(list, size, at, cursors))
  }

  function Least(a: nat, b: nat): nat { if a <= b then a else b }

  /** The rows that many full pages hold. */
  function Full(pages: nat, size: nat): (rows: nat)
    ensures pages > 0 ==> rows >= size
  {
    if pages == 0 then 0 else Full(pages - 1, size) + size
  }

  lemma {:induction false} FullIsProduct(pages: nat, size: nat)
    ensures Full(pages, size) == pages * size
  {
    if pages > 0 {
      FullIsProduct(pages - 1, size);
      assert (pages - 1) * size + size == pages * size;
    }
  }

  lemma {:induction false} FullGrows(pages: nat, more: nat, size: nat)
    requires pages <= more
    ensures Full(pages, size) <= Full(more, size)
  {
    if pages < more { FullGrows(pages, more - 1, size); }
  }

  lemma PageJoins(list: seq<Node>, size: nat, at: nat, cursors: nat -> string)
    requires at <= |list|
    ensures list[..at] + PageAt(list, size, at, cursors).edges == list[..Least(at + size, |list|)]
  {
  }

  /** Pages read in turn from a list are the pages of a prefix of it, one size each. */
  lemma {:induction false} ReadsPrefix(
    server: Server, list: seq<Node>, size: nat, cursors: nat -> string, loaded: Loaded, read: seq<Page>)
    requires ServesList(server, list, size, cursors) && read != [] && ReadInTurn(server, loaded, read)
    ensures var at := Full(|read| - 1, size);
      && at <= |list| && (|read| > 1 ==> at < |list|)
      && read[|read| - 1] == PageAt(list, size, at, cursors)
      && Flat(read) == list[..Least(at + size, |list|)]
  {
    hide ReadInTurn, Ends;
    var n := |read| - 1;
    var at := Full(n, size);
    if n > 0 {
      LastTurn(server, loaded, read);
      ReadsPrefix(server, list, size, cursors, loaded, read[..n]);
      assert read[n] == PageAt(list, size, at, cursors) && Flat(read[..n]) == list[..at];
    } else {
      FirstTurn(server, loaded, read);
    }
    PageJoins(list, size, at, cursors);
    assert Flat(read) == Flat(read[..n]) + read[n].edges;
  }

  lemma FirstTurn(server: Server, loaded: Loaded, read: seq<Page>)
    requires ReadInTurn(server, loaded, read) && |read| == 1
    ensures server(None) == Some(read[0]) && Flat(read[..0]) == []
  {
  }

  lemma LastTurn(server: Server, loaded: Loaded, read: seq<Page>)
    requires ReadInTurn(server, loaded, read) && |read| > 1
    ensures var n := |read| - 1;
      ReadInTurn(server, loaded, read[..n]) && read[n - 1].hasNext && server(read[n - 1].cursor) == Some(read[n])
  {
  }

  /** Whatever the list became, the first page and the kept ones are a contiguous prefix of it. */
  lemma KeptIsPrefix(
    server: Server, list: seq<Node>, size: nat, cursors: nat -> string, loaded: Loaded, read: seq<Page>)
    requires ServesList(server, list, size, cursors) && read != [] && ReadInTurn(server, loaded, read)
    ensures var kept := KeptPages(read[1..], loaded);
      Flat([read[0]] + kept) == list[..Least(Full(|kept| + 1, size), |list|)]
  {
    hide ReadInTurn, Ends, ServesList, Flat, PageAt, KeptPages, Full;
    var kept := KeptPages(read[1..], loaded);
    var prefix := [read[0]] + kept;
    assert prefix == read[..|prefix|];
    if |prefix| < |read| {
      ReadOnAfter(server, loaded, read, |prefix|);
    } else {
      assert prefix == read;
    }
    ReadsPrefix(server, list, size, cursors, loaded, prefix);
    FullStep(|kept|, size);
  }

  lemma FullStep(pages: nat, size: nat)
    ensures Full(pages + 1, size) == Full(pages, size) + size
  {
  }

  // A list that only gained rows in front.

  predicate AllNamed(nodes: seq<Node>) {
    DistinctIds(nodes) && forall node :: node in nodes ==> node.id.Some?
  }

  /** Ids tell rows apart: a stretch of the list holds a row's id exactly when it holds the row. */
  lemma IdWithin(list: seq<Node>, from: nat, to: nat, i: nat)
    requires AllNamed(list) && from <= to <= |list| && i < |list|
    ensures list[i].id.Some? && (list[i].id.value in Ids(list[from..to]) <==> from <= i < to)
  {
    if from <= i < to {
      assert list[from..to][i - from] == list[i];
    }
  }

  /** The pages loaded before the reread: the first `|pages|` full pages of the list, and what follows them. */
  ghost predicate LoadedFrom(list: seq<Node>, size: nat, cursors: nat -> string, pages: seq<Page>) {
    && size > 0 && pages != [] && Full(|pages| - 1, size) < |list|
    && forall k :: 0 <= k < |pages| ==> Full(k, size) <= |list| && pages[k] == PageAt(list, size, Full(k, size), cursors)
  }

  lemma {:induction false} LoadedFlat(list: seq<Node>, size: nat, cursors: nat -> string, pages: seq<Page>)
    requires LoadedFrom(list, size, cursors, pages)
    ensures Flat(pages) == list[..Least(Full(|pages|, size), |list|)]
  {
    var n := |pages| - 1;
    assert pages[n] == PageAt(list, size, Full(n, size), cursors);
    if n == 0 {
      assert pages[..0] == [] && Flat([]) == list[..0];
    } else {
      assert pages[n - 1] == PageAt(list, size, Full(n - 1, size), cursors);
      LoadedFlat(list, size, cursors, pages[..n]);
    }
    PageJoins(list, size, Full(n, size), cursors);
    assert Flat(pages) == Flat(pages[..n]) + pages[n].edges;
  }

  /** What was loaded, as stretches of the list that gained `front`. */
  lemma LoadedStretches(
    front: seq<Node>, list: seq<Node>, size: nat, cursors: nat -> string, pages: seq<Page>)
    requires pages != [] && LoadedFrom(list, size, cursors, pages)
    ensures var now, n, loaded := front + list, |pages| - 1, LoadedRowsOf(Some(pages[0]), pages[1..]);
      var rows := Least(Full(n + 1, size), |list|);
      && loaded.count == n && Full(n, size) < rows <= |list|
      && loaded.ids == Ids(now[|front|..|front| + rows])
      && (n > 0 ==> loaded.last == Ids(now[|front| + Full(n, size)..|front| + rows]))
  {
    hide LoadedFrom, Flat, Full, Ids, PageAt;
    var n := |pages| - 1;
    var rows := Least(Full(n + 1, size), |list|);
    LoadedLast(list, size, cursors, pages);
    LoadedFlat(list, size, cursors, pages);
    assert [pages[0]] + pages[1..] == pages;
    Stretch(front, list, 0, rows);
    Stretch(front, list, Full(n, size), rows);
    assert n > 0 ==> pages[1..][n - 1..] == [pages[n]];
  }

  lemma LoadedLast(list: seq<Node>, size: nat, cursors: nat -> string, pages: seq<Page>)
    requires LoadedFrom(list, size, cursors, pages)
    ensures pages != [] && var n, rows := |pages| - 1, Least(Full(|pages|, size), |list|);
      Full(n, size) < rows <= |list| && Flat([pages[n]]) == list[Full(n, size)..rows]
  {
    var n := |pages| - 1;
    OneFlat(pages[n]);
    assert pages[n] == PageAt(list, size, Full(n, size), cursors);
  }

  lemma Stretch(front: seq<Node>, list: seq<Node>, from: nat, to: nat)
    requires from <= to <= |list|
    ensures (front + list)[|front| + from..|front| + to] == list[from..to]
  {
  }

  lemma OneFlat(page: Page)
    ensures Flat([page]) == page.edges
  {
    assert [page][..0] == [] && Flat([]) == [];
  }

  /** Where a reread past the loaded count stands: at the loaded rows, before their end. */
  lemma PastCountBounds(front: nat, rows: nat, size: nat, count: nat, n: nat)
    requires size > 0 && n >= count && front < Full(count + 1, size)
    requires Full(count, size) < rows
    requires n > count ==> Full(n, size) < front + rows
    ensures rows > 0 && Full(n, size) < front + rows && front < Full(n, size) + size
  {
    hide Full;
    FullStep(count, size);
    if n > count {
      FullGrows(count + 1, n, size);
    }
  }

  /** Once past the loaded count, the page read last holds a loaded row. */
  lemma PastCountHolds(
    server: Server, now: seq<Node>, front: nat, size: nat, cursors: nat -> string,
    count: nat, rows: nat, loaded: Loaded, read: seq<Page>)
    requires size > 0 && AllNamed(now) && ServesList(server, now, size, cursors)
    requires front + rows <= |now| && Full(count, size) < rows && front < Full(count + 1, size)
    requires loaded.ids == Ids(now[front..front + rows])
    requires read != [] && ReadInTurn(server, loaded, read) && |read| > count
    requires |read| > count + 1 ==> Full(|read| - 1, size) < front + rows
    ensures IdsOf(read[|read| - 1..]) * loaded.ids != {}
  {
    hide ReadInTurn, ServesList, Full, Ids, AllNamed, IdsOf;
    var n := |read| - 1;
    var at := Full(n, size);
    PastCountBounds(front, rows, size, count, n);
    LatestIds(server, now, size, cursors, loaded, read);
    StretchesMeet(now, front, rows, at, size);
    assert IdsOf(read[n..]) == Ids(now[at..Least(at + size, |now|)]);
  }

  /** Two stretches of the list that overlap share an id. */
  lemma StretchesMeet(list: seq<Node>, from: nat, rows: nat, at: nat, size: nat)
    requires size > 0 && rows > 0 && AllNamed(list) && from + rows <= |list| && at < from + rows && from < at + size
    ensures Ids(list[at..Least(at + size, |list|)]) * Ids(list[from..from + rows]) != {}
  {
    hide AllNamed, Ids;
    var end := Least(at + size, |list|);
    var row := if at < from then from else at;
    IdWithin(list, from, from + rows, row);
    IdWithin(list, at, end, row);
    assert list[row].id.value in Ids(list[at..end]) * Ids(list[from..from + rows]);
  }

  /** The ids of the page read last, as a stretch of the list. */
  lemma LatestIds(
    server: Server, list: seq<Node>, size: nat, cursors: nat -> string, loaded: Loaded, read: seq<Page>)
    requires ServesList(server, list, size, cursors) && read != [] && ReadInTurn(server, loaded, read)
    ensures Full(|read| - 1, size) <= |list|
    ensures var at := Full(|read| - 1, size);
      IdsOf(read[|read| - 1..]) == Ids(list[at..Least(at + size, |list|)])
  {
    hide ReadInTurn, ServesList, Full, Ids, Flat;
    ReadsPrefix(server, list, size, cursors, loaded, read);
    assert read[|read| - 1..] == [read[|read| - 1]];
    OneFlat(read[|read| - 1]);
  }

  lemma IdsWithin(list: seq<Node>, from: nat, to: nat, from': nat, to': nat)
    requires from' <= from <= to <= to' <= |list|
    ensures Ids(list[from..to]) <= Ids(list[from'..to'])
  {
    forall i | from <= i < to && list[i].id.Some? ensures list[i].id.value in Ids(list[from'..to']) {
      assert list[from'..to'][i - from'] == list[i];
    }
    assert forall j :: 0 <= j < to - from ==> list[from..to][j] == list[from + j];
  }

  lemma IdsApart(list: seq<Node>, from: nat, to: nat, from': nat, to': nat)
    requires AllNamed(list) && from <= to <= from' <= to' <= |list|
    ensures Ids(list[from..to]) * Ids(list[from'..to']) == {}
  {
    forall id | id in Ids(list[from..to]) ensures id !in Ids(list[from'..to']) {
      var i :| 0 <= i < to - from && list[from..to][i].id == Some(id);
      IdWithin(list, from', to', from + i);
    }
  }

  /** Reading past the loaded count means some loaded row of the last page was still unread. */
  lemma UnreadBefore(
    server: Server, front: seq<Node>, list: seq<Node>, size: nat, cursors: nat -> string,
    rows: nat, loaded: Loaded, read: seq<Page>)
    requires ServesList(server, front + list, size, cursors) && ReadInTurn(server, loaded, read)
    requires 0 < loaded.count < |read| - 1 && Full(loaded.count, size) < rows <= |list|
    requires loaded.last == Ids((front + list)[|front| + Full(loaded.count, size)..|front| + rows])
    ensures Full(|read| - 1, size) < |front| + rows
  {
    hide ServesList, Full, Ids, Flat, PageAt, ReadInTurn;
    var now, n := front + list, |read| - 1;
    ReadOnAfter(server, loaded, read, n);
    assert |read[..n]| > loaded.count && !(loaded.last <= IdsOf(read[..n]));
    ReadsPrefix(server, now, size, cursors, loaded, read[..n]);
    ReadsPrefix(server, now, size, cursors, loaded, read);
    FullStep(n - 1, size);
    assert now[0..Full(n, size)] == now[..Full(n, size)];
    if Full(n, size) >= |front| + rows {
      IdsWithin(now, |front| + Full(loaded.count, size), |front| + rows, 0, Full(n, size));
    }
  }

  /** Rows enough in front to fill every page loaded before, and the reread stops without a row of them. */
  lemma StopsShort(
    server: Server, front: seq<Node>, list: seq<Node>, size: nat, cursors: nat -> string,
    rows: nat, loaded: Loaded, read: seq<Page>)
    requires AllNamed(front + list) && ServesList(server, front + list, size, cursors)
    requires ReadInTurn(server, loaded, read) && |front| >= Full(loaded.count + 1, size) && rows <= |list|
    requires loaded.ids == Ids((front + list)[|front|..|front| + rows])
    ensures |read| <= loaded.count + 1
  {
    hide ServesList, Full, Flat, Ids, AllNamed, ReadInTurn;
    var now, n := front + list, loaded.count + 1;
    FullStep(n - 1, size);
    IdsApart(now, Full(n - 1, size), Full(n, size), |front|, |front| + rows);
    if |read| > n {
      assert read[..n][n - 1..] == [read[n - 1]];
      OneFlat(read[n - 1]);
      ReadOnAfter(server, loaded, read, n);
      ReadsPrefix(server, now, size, cursors, loaded, read[..n]);
    }
  }

  /**
   One page size, the pages read at one moment, and a list that gained rows in
   front: the reread keeps every row loaded before exactly when the rows gained are
   fewer than the loaded pages hold when full, and then drops no page it read.
   */
  lemma RereadKeepsLoaded(
    server: Server, front: seq<Node>, list: seq<Node>, size: nat, cursors: nat -> string, cursors': nat -> string,
    before: seq<Page>, read: seq<Page>)
    requires AllNamed(front + list) && ServesList(server, front + list, size, cursors)
    requires |before| > 1 && LoadedFrom(list, size, cursors', before)
    requires var loaded := LoadedRowsOf(Some(before[0]), before[1..]);
      read != [] && ReadInTurn(server, loaded, read) && Ends(loaded, read)
    ensures var loaded := LoadedRowsOf(Some(before[0]), before[1..]);
      var kept := KeptPages(read[1..], loaded);
      && (loaded.ids <= IdsOf([read[0]] + kept) <==> |front| < |before| * size)
      && (|front| < |before| * size ==> kept == read[1..])
  {
    hide ServesList, LoadedFrom, Full, Flat, Ids, AllNamed, ReadInTurn, Ends, KeptPages, LoadedRowsOf, PageAt;
    var now, loaded := front + list, LoadedRowsOf(Some(before[0]), before[1..]);
    LoadedStretches(front, list, size, cursors', before);
    var rows := Least(Full(|before|, size), |list|);
    FullStep(loaded.count, size);
    FullIsProduct(|before|, size);
    if |front| < Full(|before|, size) {
      KeptWhole(server, front, list, size, cursors, rows, loaded, read);
    } else {
      KeptNothing(server, front, list, size, cursors, rows, loaded, read);
    }
  }

  /** What the screen lists after a reread, each row once, is a contiguous prefix of a list whose ids tell its rows apart. */
  lemma RowsArePrefix(
    server: Server, list: seq<Node>, size: nat, cursors: nat -> string, loaded: Loaded, read: seq<Page>)
    requires AllNamed(list) && ServesList(server, list, size, cursors) && read != [] && ReadInTurn(server, loaded, read)
    ensures var kept := KeptPages(read[1..], loaded);
      RowsOf(Flat([read[0]] + kept)) == list[..Least(Full(|kept| + 1, size), |list|)]
  {
    hide ReadInTurn, ServesList, AllNamed, Flat, Full, RowsOf, KeptPages;
    var kept := KeptPages(read[1..], loaded);
    KeptIsPrefix(server, list, size, cursors, loaded, read);
    RowsOfFirst(list, Least(Full(|kept| + 1, size), |list|));
  }

  lemma RowsOfFirst(list: seq<Node>, n: nat)
    requires AllNamed(list) && n <= |list|
    ensures RowsOf(list[..n]) == list[..n]
  {
    RowsAsTheyAre(list[..n]);
  }

  // Cursors that name the row they follow.

  /** Each row has a name of its own, and a cursor is the name of the row before its place. */
  ghost predicate NamesRows(list: seq<Node>, name: Node -> string, cursors: nat -> string) {
    && (forall i, j :: 0 <= i < j < |list| ==> name(list[i]) != name(list[j]))
    && forall at: nat :: 0 < at <= |list| ==> cursors(at) == name(list[at - 1])
  }

  ghost predicate Places(list: seq<Node>, cursors: nat -> string, after: string, at: nat) {
    0 < at < |list| && cursors(at) == after
  }

  ghost function PageAfter(list: seq<Node>, size: nat, cursors: nat -> string, after: Option<string>): Option<Page> {
    if after.None? then Some(PageAt(list, size, 0, cursors))
    else if at: nat :| Places(list, cursors, after.value, at) then Some(PageAt(list, size, at, cursors))
    else None
  }

  ghost function RowsAfter(list: seq<Node>, cursors: nat -> string, after: Option<string>): nat {
    if after.None? then |list|
    else if at: nat :| Places(list, cursors, after.value, at) then |list| - at
    else 0
  }

  /** Every list is served by cursors that name its rows, whatever the list and however it is named, and they advance. */
  lemma NamedRowsServe(list: seq<Node>, size: nat, name: Node -> string, cursors: nat -> string)
    returns (server: Server, rank: Option<string> -> nat)
    requires size > 0 && NamesRows(list, name, cursors)
    ensures ServesList(server, list, size, cursors) && Advances(server, rank)
  {
    server := after => PageAfter(list, size, cursors, after);
    rank := after => RowsAfter(list, cursors, after);
    forall after | server(after).Some? && server(after).value.hasNext
      ensures rank(server(after).value.cursor) < rank(after)
    {
      NamedRowsAdvance(list, size, name, cursors, after);
    }
    forall at: nat | 0 < at < |list| ensures server(Some(cursors(at))) == Some(PageAt(list, size, at, cursors)) {
      assert Places(list, cursors, cursors(at), at);
      forall at': nat | Places(list, cursors, cursors(at), at') ensures at' == at {
        assert name(list[at - 1]) == name(list[at' - 1]);
      }
    }
  }

  /** The page after a row's name starts at one place, and its cursor is the name of a later row. */
  lemma NamedRowsAdvance(list: seq<Node>, size: nat, name: Node -> string, cursors: nat -> string, after: Option<string>)
    requires size > 0 && NamesRows(list, name, cursors)
    requires PageAfter(list, size, cursors, after).Some? && PageAfter(list, size, cursors, after).value.hasNext
    ensures RowsAfter(list, cursors, PageAfter(list, size, cursors, after).value.cursor) < RowsAfter(list, cursors, after)
  {
    var at: nat := 0;
    if after.Some? {
      at :| Places(list, cursors, after.value, at) && PageAfter(list, size, cursors, after) == Some(PageAt(list, size, at, cursors));
      OnePlace(list, name, cursors, at);
    }
    assert Places(list, cursors, cursors(at + size), at + size);
    OnePlace(list, name, cursors, at + size);
  }

  lemma OnePlace(list: seq<Node>, name: Node -> string, cursors: nat -> string, at: nat)
    requires NamesRows(list, name, cursors) && 0 < at < |list|
    ensures forall at': nat :: Places(list, cursors, cursors(at), at') ==> at' == at
  {
    forall at': nat | Places(list, cursors, cursors(at), at') ensures at' == at {
      assert name(list[at - 1]) == name(list[at' - 1]);
    }
  }

  /** On a server of one list no read of a reread fails. */
  lemma NoReadFails(
    server: Server, list: seq<Node>, size: nat, cursors: nat -> string, loaded: Loaded, kept: Option<seq<Page>>)
    requires ServesList(server, list, size, cursors) && Answers(server, loaded, kept)
    ensures kept.Some?
  {
    hide ReadInTurn, KeptPages, ReadsOn, Full, Flat;
    var read :| Leaves(server, loaded, read, kept);
    if read != [] {
      ReadsPrefix(server, list, size, cursors, loaded, read);
    }
  }

  /**
   What a reread answers on a server of the list that gained rows in front: pages, which
   after the new first one hold every row loaded before exactly when the rows gained are
   fewer than the loaded pages hold when full.
   */
  lemma RereadAnswersLoaded(
    server: Server, front: seq<Node>, list: seq<Node>, size: nat, cursors: nat -> string, cursors': nat -> string,
    before: seq<Page>, kept: Option<seq<Page>>)
    requires AllNamed(front + list) && ServesList(server, front + list, size, cursors)
    requires |before| > 1 && LoadedFrom(list, size, cursors', before)
    requires Answers(server, LoadedRowsOf(Some(before[0]), before[1..]), kept)
    ensures kept.Some? && server(None).Some?
    ensures LoadedRowsOf(Some(before[0]), before[1..]).ids <= IdsOf([server(None).value] + kept.value) <==>
      |front| < |before| * size
  {
    hide AllNamed, ServesList, LoadedFrom, LoadedRowsOf, ReadInTurn, Ends, KeptPages, IdsOf;
    var loaded := LoadedRowsOf(Some(before[0]), before[1..]);
    NoReadFails(server, front + list, size, cursors, loaded, kept);
    var read :| Leaves(server, loaded, read, kept);
    RereadKeepsLoaded(server, front, list, size, cursors, cursors', before, read);
    NextRead(server, loaded, read, 0);
  }

  lemma KeptNothing(
    server: Server, front: seq<Node>, list: seq<Node>, size: nat, cursors: nat -> string,
    rows: nat, loaded: Loaded, read: seq<Page>)
    requires AllNamed(front + list) && ServesList(server, front + list, size, cursors) && 0 < rows <= |list|
    requires read != [] && ReadInTurn(server, loaded, read) && |front| >= Full(loaded.count + 1, size)
    requires loaded.ids == Ids((front + list)[|front|..|front| + rows])
    ensures !(loaded.ids <= IdsOf([read[0]] + KeptPages(read[1..], loaded)))
  {
    hide ServesList, Full, Flat, Ids, AllNamed, ReadInTurn, KeptPages;
    var now, kept := front + list, KeptPages(read[1..], loaded);
    StopsShort(server, front, list, size, cursors, rows, loaded, read);
    KeptIsPrefix(server, now, size, cursors, loaded, read);
    FullGrows(|kept| + 1, loaded.count + 1, size);
    var m := Least(Full(|kept| + 1, size), |now|);
    assert now[0..m] == now[..m];
    IdWithin(now, |front|, |front| + rows, |front|);
    IdWithin(now, 0, m, |front|);
  }

  lemma KeptWhole(
    server: Server, front: seq<Node>, list: seq<Node>, size: nat, cursors: nat -> string,
    rows: nat, loaded: Loaded, read: seq<Page>)
    requires AllNamed(front + list) && ServesList(server, front + list, size, cursors)
    requires read != [] && ReadInTurn(server, loaded, read) && Ends(loaded, read) && loaded.count > 0
    requires |front| < Full(loaded.count + 1, size)
    requires Full(loaded.count, size) < rows <= Least(Full(loaded.count + 1, size), |list|)
    requires loaded.ids == Ids((front + list)[|front|..|front| + rows])
    requires loaded.last == Ids((front + list)[|front| + Full(loaded.count, size)..|front| + rows])
    ensures KeptPages(read[1..], loaded) == read[1..] && loaded.ids <= IdsOf(read)
    ensures [read[0]] + read[1..] == read
  {
    hide ServesList, Full, Flat, Ids, AllNamed, ReadInTurn;
    var now, n := front + list, |read| - 1;
    SizePositive(server, now, size, cursors);
    ReadsPrefix(server, now, size, cursors, loaded, read);
    if n > loaded.count {
      UnreadBefore(server, front, list, size, cursors, rows, loaded, read);
      assert read[1..][n - 1..] == read[n..];
    }
    if n >= loaded.count {
      PastCountHolds(server, now, |front|, size, cursors, loaded.count, rows, loaded, read);
    }
    var m := Least(Full(n, size) + size, |now|);
    if read[n].hasNext {
      assert !ReadsOn(read, loaded);
      IdWithin(now, |front| + Full(loaded.count, size), |front| + rows, |front| + rows - 1);
      IdWithin(now, 0, m, |front| + rows - 1);
    }
    assert now[0..m] == now[..m];
    IdsWithin(now, |front|, |front| + rows, 0, m);
  }

  lemma SizePositive(server: Server, list: seq<Node>, size: nat, cursors: nat -> string)
    requires ServesList(server, list, size, cursors)
    ensures size > 0
  {
  }
}
