/** Tasks, the place each takes in a listing, and the pages of one. */
module Tasks {
  import opened Wrappers
  import opened Texts
  import opened Clocks

  const OPEN := "open"
  const DONE := "done"
  const MAX_PRIORITY := 9

  /** An id is a 128-bit number, ordered as its bytes are; the nil one names nothing. */
  const NIL: nat := 0

  datatype Task = Task(
    id: nat, assignee: nat, contact: nat, title: string, status: string, priority: int, dueOn: Date, dueTime: Clock)

  datatype Error = EmptyTitle | InvalidPriority | InvalidStatus | UnattributedOrigin | MalformedCursor

  datatype Result<T> = Ok(value: T) | Err(error: Error)

  /** What the domain lets a stored task hold. */
  predicate Valid(task: Task) {
    && task.id != NIL && Trimmed(task.title) == task.title != ""
    && (task.status == OPEN || task.status == DONE)
    && 0 <= task.priority <= MAX_PRIORITY && ValidDate(task.dueOn) && ValidClock(task.dueTime)
  }

  datatype Input = Input(
    title: string, dueOn: Date, dueTime: Clock, priority: int, assignee: nat, contact: nat,
    originSource: string, originEvent: nat)

  function ValidateTitle(title: string): Result<string> {
    if Trimmed(title) == "" then Err(EmptyTitle) else Ok(Trimmed(title))
  }

  function New(input: Input, id: nat): Result<Task> {
    match ValidateTitle(input.title)
    case Err(error) => Err(error)
    case Ok(title) =>
      if input.priority < 0 || input.priority > MAX_PRIORITY then Err(InvalidPriority)
      else if input.originEvent != NIL && input.originSource == "" then Err(UnattributedOrigin)
      else Ok(Task(id, input.assignee, input.contact, title, OPEN, input.priority, input.dueOn, input.dueTime))
  }

  datatype Changes = Changes(
    title: Option<string>, dueOn: Option<Date>, dueTime: Option<Clock>, status: Option<string>, priority: Option<int>)

  function GivenOr<T>(given: Option<T>, current: T): T {
    if given.Some? then given.value else current
  }

  function Changed(task: Task, changes: Changes): Result<Task> {
    var title := if changes.title.None? then Ok(task.title) else ValidateTitle(changes.title.value);
    if title.Err? then Err(title.error)
    else if changes.status.Some? && changes.status.value != OPEN && changes.status.value != DONE then Err(InvalidStatus)
    else if changes.priority.Some? && !(0 <= changes.priority.value <= MAX_PRIORITY) then Err(InvalidPriority)
    else Ok(task.(
      title := title.value, status := GivenOr(changes.status, task.status),
      priority := GivenOr(changes.priority, task.priority), dueOn := GivenOr(changes.dueOn, task.dueOn),
      dueTime := GivenOr(changes.dueTime, task.dueTime)))
  }

  /** Creating and changing only ever store tasks the listing's order allows for. */
  lemma StoredTasksValid(input: Input, id: nat, task: Task, changes: Changes)
    requires id != NIL && ValidDate(input.dueOn) && ValidClock(input.dueTime) && Valid(task)
    requires changes.dueOn.Some? ==> ValidDate(changes.dueOn.value)
    requires changes.dueTime.Some? ==> ValidClock(changes.dueTime.value)
    ensures New(input, id).Ok? ==> Valid(New(input, id).value)
    ensures Changed(task, changes).Ok? ==> Valid(Changed(task, changes).value) && Changed(task, changes).value.id == task.id
  {
    TrimmedTwice(input.title);
    if changes.title.Some? { TrimmedTwice(changes.title.value); }
  }

  /** A task is made of just what was given, open and its title trimmed, or refused for its title, priority or origin, in this order. */
  lemma NewExactly(input: Input, id: nat)
    ensures New(input, id) == Err(EmptyTitle) <==> Trimmed(input.title) == ""
    ensures New(input, id) == Err(InvalidPriority) <==> Trimmed(input.title) != "" && !(0 <= input.priority <= 9)
    ensures New(input, id) == Err(UnattributedOrigin) <==>
      Trimmed(input.title) != "" && 0 <= input.priority <= 9 && input.originEvent != NIL && input.originSource == ""
    ensures forall task :: New(input, id) == Ok(task) ==>
      && task.id == id && task.title == Trimmed(input.title) && task.status == "open" && task.priority == input.priority
      && task.assignee == input.assignee && task.contact == input.contact
      && task.dueOn == input.dueOn && task.dueTime == input.dueTime
    ensures New(input, id).Ok? || New(input, id).error in {EmptyTitle, InvalidPriority, UnattributedOrigin}
  {
  }

  /** A field the changes give a value, or the task's own when they give none. */
  predicate TakesOver<T(==)>(after: T, before: T, given: Option<T>) {
    (given.Some? ==> after == given.value) && (given.None? ==> after == before)
  }

  /** A change takes over each given field and no other, or is refused for its title, status or priority, in this order. */
  lemma ChangedExactly(task: Task, changes: Changes)
    ensures Changed(task, changes) == Err(EmptyTitle) <==> changes.title.Some? && Trimmed(changes.title.value) == ""
    ensures Changed(task, changes) == Err(InvalidStatus) <==>
      && (changes.title.Some? ==> Trimmed(changes.title.value) != "")
      && changes.status.Some? && changes.status.value != "open" && changes.status.value != "done"
    ensures Changed(task, changes) == Err(InvalidPriority) <==>
      && (changes.title.Some? ==> Trimmed(changes.title.value) != "")
      && (changes.status.Some? ==> changes.status.value == "open" || changes.status.value == "done")
      && changes.priority.Some? && !(0 <= changes.priority.value <= 9)
    ensures forall after :: Changed(task, changes) == Ok(after) ==>
      && after.id == task.id && after.assignee == task.assignee && after.contact == task.contact
      && (if changes.title.Some? then after.title == Trimmed(changes.title.value) else after.title == task.title)
      && TakesOver(after.status, task.status, changes.status)
      && TakesOver(after.priority, task.priority, changes.priority)
      && TakesOver(after.dueOn, task.dueOn, changes.dueOn)
      && TakesOver(after.dueTime, task.dueTime, changes.dueTime)
    ensures Changed(task, changes).Ok? || Changed(task, changes).error in {EmptyTitle, InvalidStatus, InvalidPriority}
  {
  }

  /** Making the same change again changes nothing more. */
  lemma ChangedTwice(task: Task, changes: Changes)
    requires Changed(task, changes).Ok?
    ensures Changed(Changed(task, changes).value, changes) == Changed(task, changes)
  {
    if changes.title.Some? { TrimmedTwice(changes.title.value); }
  }

  // Places in a listing.

  datatype Page = Page(afterRank: int, afterDueOn: Date, afterClock: Clock, afterId: nat, limit: int)

  /** Go's zero time is the first of January of the year 1. */
  const ZERO_PAGE := Page(0, Date(1, 1, 1), NO_TIME, NIL, 0)

  /** Minus the priority of an open task, and zero, the greatest rank, for a done one. */
  function Rank(task: Task): int {
    if task.status == OPEN then -task.priority else 0
  }

  /** Only open tasks are sorted by their time. */
  function SortClock(task: Task): Clock {
    if task.status == OPEN then task.dueTime else NO_TIME
  }

  function PageAfter(last: Task, limit: int): Page {
    Page(Rank(last), last.dueOn, SortClock(last), last.id, limit)
  }

  /** A page without a position starts before the least rank there is. */
  function StartRank(page: Page): int {
    if page.afterId == NIL then -MAX_PRIORITY - 1 else page.afterRank
  }
}

/** The opaque tokens that name a position in a task listing. */
module Cursors {
  import opened Wrappers
  import opened Clocks
  import opened Tasks

  const END_OF_DAY := "24:00"

  datatype Payload = Payload(rank: Option<int>, dueOn: string, clock: Option<string>, id: nat)

  /** How a payload is written into a token and read from one, taken as given. */
  datatype Codec = Codec(pack: Payload -> string, unpack: string -> Option<Payload>)
  {
    /** A token reads back as what was packed, and no payload packs into the empty token. */
    ghost predicate Faithful() {
      forall payload :: pack(payload) != "" && unpack(pack(payload)) == Some(payload)
    }
  }

  function ClockWord(clock: Clock): string
    requires ValidClock(clock)
  {
    if !clock.set_ then END_OF_DAY else ClockText(clock)
  }

  /** Both ways a token says that there is no time read the same. */
  function ReadClock(text: Option<string>): Option<Clock> {
    if text.None? || text.value == END_OF_DAY then Some(NO_TIME) else ParseClock(text.value)
  }

  function EncodeTask(codec: Codec, task: Task): string
    requires Valid(task)
  {
    var after := PageAfter(task, 0);
    codec.pack(Payload(Some(after.afterRank), DateText(after.afterDueOn), Some(ClockWord(after.afterClock)), after.afterId))
  }

  function DecodeTask(codec: Codec, raw: string): Result<Page> {
    if raw == "" then Ok(ZERO_PAGE)
    else match codec.unpack(raw)
      case None => Err(MalformedCursor)
      case Some(payload) =>
        if payload.rank.None? then Err(MalformedCursor)
        else
          var dueOn, clock := ParseDate(payload.dueOn), ReadClock(payload.clock);
          if dueOn.None? || clock.None? then Err(MalformedCursor)
          else Ok(Page(payload.rank.value, dueOn.value, clock.value, payload.id, 0))
  }

  /** The sort clock written into a token reads back, no time included, and no time of day is written like it. */
  lemma ClockWordReadsBack(clock: Clock)
    requires ValidClock(clock)
    ensures ReadClock(Some(ClockWord(clock))) == Some(clock)
  {
    if clock.set_ {
      ClockReadsBack(clock);
      assert SplitClock(END_OF_DAY) == Some((24, 0));
      assert ParseClock(END_OF_DAY) == None;
    }
  }

  /** A task's cursor reads back as the position after it exactly when it falls in the years 0 to 9999. */
  lemma CursorReadsBack(codec: Codec, task: Task)
    requires codec.Faithful() && Valid(task)
    ensures DecodeTask(codec, EncodeTask(codec, task)) ==
      if 0 <= task.dueOn.year < 10000 then Ok(PageAfter(task, 0)) else Err(MalformedCursor)
  {
    ClockWordReadsBack(SortClock(task));
    DateReadsBack(task.dueOn);
    hide DateText, ParseDate, ClockWord, ReadClock;
    var after := PageAfter(task, 0);
    var payload := Payload(Some(after.afterRank), DateText(after.afterDueOn), Some(ClockWord(after.afterClock)), after.afterId);
    assert codec.unpack(codec.pack(payload)) == Some(payload);
  }
}
