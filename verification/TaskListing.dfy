/** The stored tasks, and what a listing answers of them. */
module TaskListing {
  import opened Wrappers
  import opened Texts
  import opened Clocks
  import opened Tasks

  const MICROS_PER_MINUTE := 60_000_000
  const END_OF_DAY_MICROS := 24 * 60 * MICROS_PER_MINUTE

  datatype Row = Row(
    id: nat, assignee: nat, contact: nat, title: string, status: string, priority: int, dueOn: Date, dueTime: Option<int>)

  function OptionalClock(clock: Clock): Option<int> {
    if clock.set_ then Some(clock.minutes * MICROS_PER_MINUTE) else None
  }

  /** Whole minutes since midnight, an absent value as no time. */
  function StoredClock(value: Option<int>): Clock
    requires value.Some? ==> value.value >= 0
  {
    if value.None? then NO_TIME else Clock(value.value / MICROS_PER_MINUTE, true)
  }

  /** A position without a time lies at the end of its day. */
  function ClockKey(page: Page): int {
    if !page.afterClock.set_ then END_OF_DAY_MICROS else OptionalClock(page.afterClock).value
  }

  function RowOf(task: Task): Row {
    Row(task.id, task.assignee, task.contact, task.title, task.status, task.priority, task.dueOn, OptionalClock(task.dueTime))
  }

  function TaskOf(row: Row): Task
    requires row.dueTime.Some? ==> row.dueTime.value >= 0
  {
    Task(row.id, row.assignee, row.contact, row.title, row.status, row.priority, row.dueOn, StoredClock(row.dueTime))
  }

  /** A task stored and read again is the task. */
  lemma TaskReadsBack(task: Task)
    requires Valid(task)
    ensures var row := RowOf(task);
      && (row.dueTime.Some? ==> 0 <= row.dueTime.value < END_OF_DAY_MICROS)
      && TaskOf(row) == task
  {
    if task.dueTime.set_ {
      assert task.dueTime.minutes * MICROS_PER_MINUTE / MICROS_PER_MINUTE == task.dueTime.minutes;
    }
  }

  // The order of a listing.

  datatype Key = Key(rank: int, dueOn: Date, clock: int, id: nat)

  predicate Earlier(a: Date, b: Date) {
    a.year < b.year || (a.year == b.year && (a.month < b.month || (a.month == b.month && a.day < b.day)))
  }

  predicate Less(a: Key, b: Key) {
    a.rank < b.rank || (a.rank == b.rank && (Earlier(a.dueOn, b.dueOn) || (a.dueOn == b.dueOn &&
      (a.clock < b.clock || (a.clock == b.clock && a.id < b.id)))))
  }

  lemma LessIsTotalOrder(a: Key, b: Key, c: Key)
    ensures !Less(a, a) && (Less(a, b) && Less(b, c) ==> Less(a, c)) && (Less(a, b) || a == b || Less(b, a))
  {
  }

  /** The key a listing sorts a row by. */
  function KeyOf(row: Row): Key {
    var open := row.status == OPEN;
    Key(if open then -row.priority else 0,
        row.dueOn,
        if open && row.dueTime.Some? then row.dueTime.value else END_OF_DAY_MICROS,
        row.id)
  }

  /** The position a page starts after. */
  function Position(page: Page): Key {
    Key(StartRank(page), page.afterDueOn, ClockKey(page), page.afterId)
  }

  /** The position after a task is that task's own key, and the position of no cursor lies before every task. */
  lemma PositionsMeetKeys(task: Task, limit: int)
    requires Valid(task)
    ensures Position(PageAfter(task, limit)) == KeyOf(RowOf(task))
    ensures Less(Position(ZERO_PAGE), KeyOf(RowOf(task)))
  {
  }

  /** Within a priority and day, open tasks with a time come by it, before tasks without one and done ones, which are level. */
  lemma ClockOrder(a: Task, b: Task)
    requires Valid(a) && Valid(b) && a.dueOn == b.dueOn && Rank(a) == Rank(b)
    ensures a.status == OPEN && a.dueTime.set_ && !(b.status == OPEN && b.dueTime.set_) ==> Less(KeyOf(RowOf(a)), KeyOf(RowOf(b)))
    ensures !(a.status == OPEN && a.dueTime.set_) && !(b.status == OPEN && b.dueTime.set_) ==>
      (Less(KeyOf(RowOf(a)), KeyOf(RowOf(b))) <==> a.id < b.id)
  {
  }

  // The listings.

  const ALL := "all"

  datatype Filter =
    | ForDay(assignee: nat, dueOn: Date, status: string)
    | DueBefore(assignee: nat, day: Date, status: string)
    | ForContact(contact: nat, status: string)

  predicate Matches(filter: Filter, row: Row) {
    && (filter.status == ALL || row.status == filter.status)
    && match filter
       case ForDay(assignee, dueOn, _) => row.assignee == assignee && row.dueOn == dueOn
       case DueBefore(assignee, day, _) => row.assignee == assignee && Earlier(row.dueOn, day)
       case ForContact(contact, _) => contact != NIL && row.contact == contact
  }

  /**
   A day's listing holds the assignee's tasks of that day and no other; the ones due before
   a day are those of every earlier day, and grow with it; a contact's listing holds that
   contact's, and none for the nil contact.
   */
  lemma FilterLaws(row: Row, assignee: nat, day: Date, later: Date, status: string, contact: nat)
    ensures Matches(ForDay(assignee, day, ALL), row) <==> row.assignee == assignee && row.dueOn == day
    ensures Matches(DueBefore(assignee, later, status), row) <==>
      Matches(ForDay(assignee, row.dueOn, status), row) && Earlier(row.dueOn, later)
    ensures Matches(ForDay(assignee, day, status), row) ==>
      (Matches(DueBefore(assignee, later, status), row) <==> Earlier(day, later))
    ensures Earlier(day, later) && Matches(DueBefore(assignee, day, status), row) ==>
      Matches(DueBefore(assignee, later, status), row)
    ensures Matches(ForContact(contact, ALL), row) <==> row.contact == contact != NIL
  {
  }

  function WithStatus(filter: Filter, status: string): Filter {
    match filter
    case ForDay(assignee, dueOn, _) => ForDay(assignee, dueOn, status)
    case DueBefore(assignee, day, _) => DueBefore(assignee, day, status)
    case ForContact(contact, _) => ForContact(contact, status)
  }

  /** Whatever the filter, all is the open and the done together, and neither holds one of the other. */
  lemma AllIsOpenAndDone(filter: Filter, row: Row)
    requires row.status == OPEN || row.status == DONE
    ensures Matches(WithStatus(filter, ALL), row) <==>
      Matches(WithStatus(filter, OPEN), row) || Matches(WithStatus(filter, DONE), row)
    ensures Matches(WithStatus(filter, OPEN), row) ==> row.status == OPEN
    ensures Matches(WithStatus(filter, DONE), row) ==> row.status == DONE
  {
    assert "open"[0] != "done"[0] && "open"[0] != "all"[0] && "done"[0] != "all"[0];
  }

  /** Days come one before another as their dates do when written out. */
  lemma EarlierIsWritten(a: Date, b: Date)
    requires ValidDate(a) && ValidDate(b) && 0 <= a.year < 10000 && 0 <= b.year < 10000
    ensures Earlier(a, b) <==> Sooner(DateText(a), DateText(b))
    ensures a == b <==> DateText(a) == DateText(b)
  {
    DateReadsBack(a);
    DateReadsBack(b);
    PaddedSooner(a.year, b.year, 4);
    PaddedSooner(a.month, b.month, 2);
    PaddedSooner(a.day, b.day, 2);
    hide DateText, Padded, ParseDate, Sooner;
    DateParts(a);
    DateParts(b);
    DashJoined(Padded(a.year, 4), Padded(b.year, 4),
               Padded(a.month, 2) + ("-" + Padded(a.day, 2)), Padded(b.month, 2) + ("-" + Padded(b.day, 2)));
    DashJoined(Padded(a.month, 2), Padded(b.month, 2), Padded(a.day, 2), Padded(b.day, 2));
  }

  lemma DateParts(date: Date)
    requires ValidDate(date) && 0 <= date.year
    ensures DateText(date) == Padded(date.year, 4) + ("-" + (Padded(date.month, 2) + ("-" + Padded(date.day, 2))))
  {
    hide Padded;
  }

  lemma DashJoined(a: string, b: string, rest: string, rest': string)
    requires |a| == |b|
    ensures Sooner(a + ("-" + rest), b + ("-" + rest')) <==> Sooner(a, b) || (a == b && Sooner(rest, rest'))
  {
    SoonerJoined(a, b, "-" + rest, "-" + rest');
    SoonerJoined("-", "-", rest, rest');
    SoonerIsTotalOrder("-", "-", "-");
  }

  /**
   Within a listing a greater priority comes first, and any open task of some priority
   before every done one; within a place by priority the earlier day; and so on by clock.
   */
  lemma ListingOrder(a: Task, b: Task)
    requires Valid(a) && Valid(b)
    ensures a.status == b.status == OPEN && a.priority > b.priority ==> Less(KeyOf(RowOf(a)), KeyOf(RowOf(b)))
    ensures a.status == OPEN && b.status == DONE && a.priority > 0 ==> Less(KeyOf(RowOf(a)), KeyOf(RowOf(b)))
    ensures a.status == b.status && (a.status == OPEN ==> a.priority == b.priority) && Earlier(a.dueOn, b.dueOn) ==>
      Less(KeyOf(RowOf(a)), KeyOf(RowOf(b)))
    ensures a.status == b.status == OPEN && a.priority == b.priority && a.dueOn == b.dueOn
            && a.dueTime.set_ && b.dueTime.set_ && a.dueTime.minutes < b.dueTime.minutes ==>
      Less(KeyOf(RowOf(a)), KeyOf(RowOf(b)))
  {
    assert "open"[0] != "done"[0];
  }

  /** The task rows of one tenant. */
  type Store = map<nat, Row>

  predicate Sorted(rows: seq<Row>) {
    forall i, j :: 0 <= i < j < |rows| ==> Less(KeyOf(rows[i]), KeyOf(rows[j]))
  }

  /** The first `limit` matching rows after the position, in key order. */
  predicate Lists(store: Store, filter: Filter, after: Key, limit: nat, rows: seq<Row>) {
    && |rows| <= limit && Sorted(rows)
    && (forall i :: 0 <= i < |rows| ==>
          rows[i].id in store && store[rows[i].id] == rows[i] && Matches(filter, rows[i]) && Less(after, KeyOf(rows[i])))
    && (forall id :: id in store && Matches(filter, store[id]) && Less(after, KeyOf(store[id])) ==>
          store[id] in rows || (|rows| == limit && (forall i :: 0 <= i < |rows| ==> Less(KeyOf(rows[i]), KeyOf(store[id])))))
  }

  /** Every stored row was written from a valid task of the years a cursor can name, under its own id. */
  ghost predicate StoreSound(store: Store) {
    forall id :: id in store ==> store[id].id == id && exists task :: WrittenFrom(task, store[id])
  }

  predicate WrittenFrom(task: Task, row: Row) {
    Valid(task) && 0 <= task.dueOn.year < 10000 && row == RowOf(task)
  }
}

/** Pages of tasks with a cursor for each. */
module TaskConnections {
  import opened Wrappers
  import opened Tasks
  import opened Cursors

  datatype Edge = Edge(node: Task, cursor: string)

  datatype Connection = Connection(edges: seq<Edge>, hasNext: bool, start: Option<string>, end: Option<string>)

  /** The rows a page shows of those listed for it. */
  function PageOf<Row>(rows: seq<Row>, limit: nat): seq<Row> {
    if |rows| > limit then rows[..limit] else rows
  }

  /** A listing asked for one row more than the page shows it no further than the limit, and says whether more follow. */
  method TaskConnection(codec: Codec, rows: seq<Task>, limit: nat) returns (page: Connection)
    requires forall row :: row in rows ==> Valid(row)
    ensures page.hasNext <==> |rows| > limit
    ensures |page.edges| == |PageOf(rows, limit)|
    ensures forall i :: 0 <= i < |page.edges| ==>
      page.edges[i].node == PageOf(rows, limit)[i] && page.edges[i].cursor == EncodeTask(codec, rows[i])
    ensures page.end == if page.edges == [] then None else Some(EncodeTask(codec, rows[|page.edges| - 1]))
    ensures page.start == if page.edges == [] then None else Some(EncodeTask(codec, rows[0]))
  {
    var shown := rows;
    var hasNext := |rows| > limit;
    if hasNext {
      shown := rows[..limit];
    }
    var edges: seq<Edge> := [];
    for i := 0 to |shown|
      invariant |edges| == i && forall k :: 0 <= k < i ==> edges[k] == Edge(rows[k], EncodeTask(codec, rows[k]))
    {
      edges := edges + [Edge(shown[i], EncodeTask(codec, shown[i]))];
    }
    page := Connection(edges, hasNext, None, None);
    if |edges| > 0 {
      page := page.(start := Some(edges[0].cursor), end := Some(edges[|edges| - 1].cursor));
    }
  }
}
