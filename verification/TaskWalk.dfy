/** Following cursors through a listing while its tasks change. */
module TaskWalk {
  import opened Wrappers
  import opened Clocks
  import opened Tasks
  import opened Cursors
  import opened TaskListing
  import opened TaskConnections

  function Pages(listed: seq<seq<Row>>, limit: nat): seq<Row> {
    if listed == [] then [] else Pages(listed[..|listed| - 1], limit) + PageOf(listed[|listed| - 1], limit)
  }

  /** The cursor a page ends with, none before the first. */
  function EndCursor(codec: Codec, listed: seq<seq<Row>>, limit: nat): string
    requires CanFollow(listed, limit)
  {
    if listed == [] then "" else EncodeTask(codec, TaskOf(Last(PageOf(listed[|listed| - 1], limit))))
  }

  function Last(rows: seq<Row>): Row
    requires rows != []
  {
    rows[|rows| - 1]
  }

  /** A page with a last task whose cursor can be written. */
  predicate Shows(listed: seq<Row>, limit: nat) {
    && PageOf(listed, limit) != []
    && var row := Last(PageOf(listed, limit));
    (row.dueTime.Some? ==> row.dueTime.value >= 0) && Valid(TaskOf(row))
  }

  /** There is no page yet, or the last one shows a task. */
  predicate CanFollow(listed: seq<seq<Row>>, limit: nat) {
    listed == [] || Shows(listed[|listed| - 1], limit)
  }

  /**
   Each page is listed from the store as it then is, after the cursor the page
   before ended with, one row past the limit; a page followed says more follow.
   */
  predicate Walk(codec: Codec, filter: Filter, limit: nat, stores: seq<Store>, listed: seq<seq<Row>>)
    requires |stores| == |listed|
  {
    listed == [] ||
    var n := |listed| - 1;
    && Walk(codec, filter, limit, stores[..n], listed[..n])
    && (n > 0 ==> |listed[n - 1]| > limit)
    && CanFollow(listed[..n], limit) && Follows(codec, filter, limit, listed[..n], stores[n], listed[n])
  }

  /** A page listed after the end cursor of those before it. */
  predicate Follows(codec: Codec, filter: Filter, limit: nat, before: seq<seq<Row>>, store: Store, page: seq<Row>)
    requires CanFollow(before, limit)
  {
    var after := DecodeTask(codec, EndCursor(codec, before, limit));
    after.Ok? && Lists(store, filter, Position(after.value), limit + 1, page)
  }

  /** The key of the row shown last, or where a listing starts. */
  function NextKey(listed: seq<seq<Row>>, limit: nat): Key {
    if listed == [] then Position(ZERO_PAGE)
    else
      var page := PageOf(listed[|listed| - 1], limit);
      if page == [] then NextKey(listed[..|listed| - 1], limit) else KeyOf(Last(page))
  }

  ghost predicate StoresSound(stores: seq<Store>) {
    forall i :: 0 <= i < |stores| ==> StoreSound(stores[i])
  }

  /** A listed row's task is valid and its cursor reads back as that row's own key. */
  lemma CursorIsKey(codec: Codec, row: Row, task: Task)
    requires codec.Faithful() && WrittenFrom(task, row)
    ensures (row.dueTime.Some? ==> row.dueTime.value >= 0) && TaskOf(row) == task
    ensures DecodeTask(codec, EncodeTask(codec, task)).Ok?
    ensures Position(DecodeTask(codec, EncodeTask(codec, task)).value) == KeyOf(row)
  {
    TaskReadsBack(task);
    CursorReadsBack(codec, task);
    PositionsMeetKeys(task, 0);
  }

  lemma LastListing(codec: Codec, filter: Filter, limit: nat, stores: seq<Store>, listed: seq<seq<Row>>)
    requires |stores| == |listed| > 0 && Walk(codec, filter, limit, stores, listed)
    ensures var n := |listed| - 1;
      && Walk(codec, filter, limit, stores[..n], listed[..n])
      && CanFollow(listed[..n], limit) && Follows(codec, filter, limit, listed[..n], stores[n], listed[n])
  {
    hide Follows, CanFollow;
  }

  lemma RowWritten(store: Store, filter: Filter, after: Key, limit: nat, rows: seq<Row>, row: Row) returns (task: Task)
    requires StoreSound(store) && Lists(store, filter, after, limit, rows) && row in rows
    ensures WrittenFrom(task, row)
  {
    var i :| 0 <= i < |rows| && rows[i] == row;
    task :| WrittenFrom(task, store[row.id]);
  }

  /** Each page of a walk lists after the row the page before it showed last. */
  lemma PageFollows(codec: Codec, filter: Filter, limit: nat, stores: seq<Store>, listed: seq<seq<Row>>)
    requires |stores| == |listed| > 0 && Walk(codec, filter, limit, stores, listed)
    requires codec.Faithful() && StoresSound(stores) && limit > 0
    ensures var n := |listed| - 1; Lists(stores[n], filter, NextKey(listed[..n], limit), limit + 1, listed[n])
  {
    hide Walk, Lists, DecodeTask, EncodeTask, WrittenFrom, KeyOf, Position, StoreSound;
    var n := |listed| - 1;
    LastListing(codec, filter, limit, stores, listed);
    if n > 0 {
      LastListing(codec, filter, limit, stores[..n], listed[..n]);
      var row := Last(PageOf(listed[n - 1], limit));
      var after := DecodeTask(codec, EndCursor(codec, listed[..n - 1], limit)).value;
      assert listed[..n][..n - 1] == listed[..n - 1];
      var task := RowWritten(stores[n - 1], filter, Position(after), limit + 1, listed[n - 1], row);
      CursorIsKey(codec, row, task);
    } else {
      FirstPage(codec);
    }
  }

  lemma FirstPage(codec: Codec)
    ensures DecodeTask(codec, "") == Ok(ZERO_PAGE)
  {
  }

  /** Every row before a walk's next position comes before it in key order. */
  predicate Behind(rows: seq<Row>, key: Key) {
    forall i :: 0 <= i < |rows| ==> KeyOf(rows[i]) == key || Less(KeyOf(rows[i]), key)
  }

  /** A walk lists rows in strictly rising key order across all its pages. */
  lemma {:induction false} WalkRises(codec: Codec, filter: Filter, limit: nat, stores: seq<Store>, listed: seq<seq<Row>>)
    requires |stores| == |listed| && Walk(codec, filter, limit, stores, listed)
    requires codec.Faithful() && StoresSound(stores) && limit > 0
    ensures Sorted(Pages(listed, limit)) && Behind(Pages(listed, limit), NextKey(listed, limit))
  {
    hide Walk, Lists, KeyOf, StoreSound, Behind, Sorted, Less, Position;
    if listed == [] {
      NothingBehind(NextKey(listed, limit));
    } else {
      var n := |listed| - 1;
      LastListing(codec, filter, limit, stores, listed);
      WalkRises(codec, filter, limit, stores[..n], listed[..n]);
      PageFollows(codec, filter, limit, stores, listed);
      PageShows(stores[n], filter, NextKey(listed[..n], limit), limit, listed[n]);
      PagesJoin(Pages(listed[..n], limit), PageOf(listed[n], limit), NextKey(listed[..n], limit));
    }
  }

  lemma NothingBehind(key: Key)
    ensures Sorted([]) && Behind([], key)
  {
  }

  lemma PageShows(store: Store, filter: Filter, after: Key, limit: nat, rows: seq<Row>)
    requires Lists(store, filter, after, limit + 1, rows)
    ensures Sorted(PageOf(rows, limit)) && Ahead(PageOf(rows, limit), after)
  {
    hide KeyOf, Less;
  }

  predicate Ahead(rows: seq<Row>, key: Key) {
    forall i :: 0 <= i < |rows| ==> Less(key, KeyOf(rows[i]))
  }

  lemma PagesJoin(before: seq<Row>, page: seq<Row>, at: Key)
    requires Sorted(before) && Behind(before, at) && Sorted(page)
    requires Ahead(page, at)
    ensures Sorted(before + page)
    ensures Behind(before + page, if page == [] then at else KeyOf(Last(page)))
  {
    hide KeyOf;
    var rows := before + page;
    forall i, j | 0 <= i < j < |rows| ensures Less(KeyOf(rows[i]), KeyOf(rows[j])) {
      if j >= |before| > i {
        LessIsTotalOrder(KeyOf(rows[i]), at, KeyOf(rows[j]));
      }
    }
  }

  /** A task whose filter match and sort key stay fixed while the walk goes on, whatever becomes of the others. */
  predicate Stays(filter: Filter, stores: seq<Store>, id: nat, key: Key) {
    forall i :: 0 <= i < |stores| ==> StaysIn(filter, stores[i], id, key)
  }

  predicate StaysIn(filter: Filter, store: Store, id: nat, key: Key) {
    id in store && store[id].id == id && Matches(filter, store[id]) && KeyOf(store[id]) == key
  }

  predicate Holds(rows: seq<Row>, id: nat) {
    exists i :: 0 <= i < |rows| && rows[i].id == id
  }

  /** The task is on the page, or the page ends before it and says more follow. */
  lemma PageReaches(store: Store, filter: Filter, after: Key, limit: nat, rows: seq<Row>, id: nat, key: Key)
    requires Lists(store, filter, after, limit + 1, rows) && StaysIn(filter, store, id, key) && Less(after, key)
    ensures Holds(PageOf(rows, limit), id) || |rows| > limit
    ensures !Holds(PageOf(rows, limit), id) && limit > 0 ==> Less(KeyOf(Last(PageOf(rows, limit))), key)
  {
    hide Matches, Less, KeyOf;
    var page := PageOf(rows, limit);
    if store[id] in rows {
      var i :| 0 <= i < |rows| && rows[i] == store[id];
      if i < |page| {
        assert page[i].id == id;
      } else {
        assert limit > 0 ==> Last(page) == rows[limit - 1];
      }
    }
  }

  /** Until the task is shown the walk stands before it. */
  lemma {:induction false} WalkReaches(
    codec: Codec, filter: Filter, limit: nat, stores: seq<Store>, listed: seq<seq<Row>>, id: nat, key: Key)
    requires |stores| == |listed| && Walk(codec, filter, limit, stores, listed)
    requires codec.Faithful() && StoresSound(stores) && limit > 0
    requires Stays(filter, stores, id, key) && Less(Position(ZERO_PAGE), key)
    ensures Holds(Pages(listed, limit), id) ||
      (Less(NextKey(listed, limit), key) && (listed != [] ==> |listed[|listed| - 1]| > limit))
  {
    hide Walk, Lists, KeyOf, StoreSound, StaysIn, Less, Position, Holds;
    if listed != [] {
      var n := |listed| - 1;
      LastListing(codec, filter, limit, stores, listed);
      WalkReaches(codec, filter, limit, stores[..n], listed[..n], id, key);
      PageFollows(codec, filter, limit, stores, listed);
      if !Holds(Pages(listed[..n], limit), id) {
        PageReaches(stores[n], filter, NextKey(listed[..n], limit), limit, listed[n], id, key);
      }
      HoldsEither(Pages(listed[..n], limit), PageOf(listed[n], limit), id);
    }
  }

  lemma HoldsEither(before: seq<Row>, page: seq<Row>, id: nat)
    ensures Holds(before + page, id) <==> Holds(before, id) || Holds(page, id)
  {
    var rows := before + page;
    if Holds(before, id) {
      var i :| 0 <= i < |before| && before[i].id == id;
      assert rows[i].id == id;
    }
    if Holds(page, id) {
      var i :| 0 <= i < |page| && page[i].id == id;
      assert rows[|before| + i].id == id;
    }
  }

  lemma {:induction false} ShownWithKey(
    codec: Codec, filter: Filter, limit: nat, stores: seq<Store>, listed: seq<seq<Row>>, id: nat, key: Key)
    requires |stores| == |listed| && Walk(codec, filter, limit, stores, listed) && Stays(filter, stores, id, key)
    ensures forall i :: 0 <= i < |Pages(listed, limit)| && Pages(listed, limit)[i].id == id ==>
      KeyOf(Pages(listed, limit)[i]) == key
  {
    hide Walk, Lists, Position, Less, KeyOf, Matches, StaysIn, PageOf;
    if listed != [] {
      var n := |listed| - 1;
      LastListing(codec, filter, limit, stores, listed);
      ShownWithKey(codec, filter, limit, stores[..n], listed[..n], id, key);
      assert StaysIn(filter, stores[n], id, key);
      var after := DecodeTask(codec, EndCursor(codec, listed[..n], limit)).value;
      PageWithKey(stores[n], filter, Position(after), limit, listed[n], id, key);
    }
  }

  lemma PageWithKey(store: Store, filter: Filter, after: Key, limit: nat, rows: seq<Row>, id: nat, key: Key)
    requires Lists(store, filter, after, limit + 1, rows) && StaysIn(filter, store, id, key)
    ensures forall i :: 0 <= i < |PageOf(rows, limit)| && PageOf(rows, limit)[i].id == id ==> KeyOf(PageOf(rows, limit)[i]) == key
  {
    hide Matches, Less, KeyOf;
  }

  /**
   Following end cursors from none until a page says no more follow lists a task
   whose filter match and sort key stay fixed exactly once, in key order among all
   that are listed.
   */
  lemma WalkListsOnce(
    codec: Codec, filter: Filter, limit: nat, stores: seq<Store>, listed: seq<seq<Row>>, id: nat, key: Key)
    returns (at: nat)
    requires |stores| == |listed| > 0 && Walk(codec, filter, limit, stores, listed)
    requires codec.Faithful() && StoresSound(stores) && limit > 0
    requires |listed[|listed| - 1]| <= limit
    requires Stays(filter, stores, id, key)
    ensures Sorted(Pages(listed, limit))
    ensures at < |Pages(listed, limit)| && Pages(listed, limit)[at].id == id && KeyOf(Pages(listed, limit)[at]) == key
    ensures forall i :: 0 <= i < |Pages(listed, limit)| && Pages(listed, limit)[i].id == id ==> i == at
  {
    hide Walk, Lists, StoreSound, Pages, KeyOf, Position, Less;
    StartsBefore(stores[0], filter, id, key);
    WalkReaches(codec, filter, limit, stores, listed, id, key);
    ShownWithKey(codec, filter, limit, stores, listed, id, key);
    WalkRises(codec, filter, limit, stores, listed);
    var rows := Pages(listed, limit);
    at :| at < |rows| && rows[at].id == id;
    forall i | 0 <= i < |rows| && rows[i].id == id ensures i == at {
      LessIsTotalOrder(key, key, key);
    }
  }

  lemma StartsBefore(store: Store, filter: Filter, id: nat, key: Key)
    requires StoreSound(store) && StaysIn(filter, store, id, key)
    ensures Less(Position(ZERO_PAGE), key)
  {
    var task :| WrittenFrom(task, store[id]);
    PositionsMeetKeys(task, 0);
  }
}
