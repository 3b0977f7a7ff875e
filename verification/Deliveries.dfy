/** Reading a WhatsApp delivery into a batch, and storing the batch item by item. */
module Deliveries {
  import opened Wrappers
  import opened Clocks
  import opened Ingest

  /** A message of a delivery as it decodes, if it does. */
  datatype RawMessage = RawMessage(
    decodes: bool, from: string, fromUserId: string, id: string, timestamp: string, content: string, media: Option<string>)

  datatype RawStatus = RawStatus(decodes: bool, id: string, status: string, detail: string)

  datatype Change = Change(number: string, messages: seq<RawMessage>, statuses: seq<RawStatus>)

  /** Where a proven number's messages and statuses go. */
  datatype Route = Route(tenant: nat, number: Option<string>, statusNumber: Option<string>)

  /** The phone number a message came from, or else a user id, which always holds a period. */
  function SenderOf(raw: RawMessage): string {
    if raw.from != "" then raw.from
    else if '.' in raw.fromUserId then raw.fromUserId
    else ""
  }

  /** A message that carries enough identity to store, on its route. */
  function ParseMessage(raw: RawMessage, route: Route): Option<Inbound> {
    if !raw.decodes || SenderOf(raw) == "" || raw.id == "" then None
    else Some(Inbound(
      route.tenant, route.number, SenderOf(raw), raw.id, raw.content, ParseInt64(raw.timestamp), raw.media))
  }

  function ParseStatus(raw: RawStatus, route: Route): Option<Update> {
    if !raw.decodes || raw.id == "" || raw.status == "" then None
    else Some(Update(route.tenant, route.statusNumber, raw.id, raw.status, raw.detail))
  }

  /**
   A message is taken exactly when it decodes, has an id, and names a phone number or else
   a user id with a period; it goes where its route says, under what it says itself.
   */
  lemma MessageTakenExactly(raw: RawMessage, route: Route)
    ensures ParseMessage(raw, route).Some? <==>
      raw.decodes && raw.id != "" && (raw.from != "" || exists i :: 0 <= i < |raw.fromUserId| && raw.fromUserId[i] == '.')
    ensures ParseMessage(raw, route).Some? ==>
      var m := ParseMessage(raw, route).value;
      && m.tenant == route.tenant && m.number == route.number && m.externalId == raw.id && m.content == raw.content
      && m.sender == (if raw.from != "" then raw.from else raw.fromUserId)
      && m.stamp == ParseInt64(raw.timestamp) && m.media == raw.media
  {
  }

  lemma StatusTakenExactly(raw: RawStatus, route: Route)
    ensures ParseStatus(raw, route).Some? <==> raw.decodes && raw.id != "" && raw.status != ""
    ensures ParseStatus(raw, route).Some? ==>
      ParseStatus(raw, route).value == Update(route.tenant, route.statusNumber, raw.id, raw.status, raw.detail)
  {
  }

  // The items of a delivery in document order.

  function MessageItems(raws: seq<RawMessage>, route: Route): seq<Item> {
    if raws == [] then []
    else
      var last := ParseMessage(raws[|raws| - 1], route);
      MessageItems(raws[..|raws| - 1], route) + if last.Some? then [OfMessage(last.value)] else []
  }

  function StatusItems(raws: seq<RawStatus>, route: Route): seq<Item> {
    if raws == [] then []
    else
      var last := ParseStatus(raws[|raws| - 1], route);
      StatusItems(raws[..|raws| - 1], route) + if last.Some? then [OfStatus(last.value)] else []
  }

  function ChangeItems(change: Change, routes: map<string, Route>): seq<Item> {
    if change.number !in routes then []
    else MessageItems(change.messages, routes[change.number]) + StatusItems(change.statuses, routes[change.number])
  }

  function Items(changes: seq<Change>, routes: map<string, Route>): seq<Item> {
    if changes == [] then []
    else Items(changes[..|changes| - 1], routes) + ChangeItems(changes[|changes| - 1], routes)
  }

  function First(items: seq<Item>, limit: nat): seq<Item> {
    if |items| <= limit then items else items[..limit]
  }

  function MessagesIn(items: seq<Item>): seq<Inbound> {
    if items == [] then []
    else MessagesIn(items[..|items| - 1])
         + if items[|items| - 1].OfMessage? then [items[|items| - 1].message] else []
  }

  function StatusesIn(items: seq<Item>): seq<Update> {
    if items == [] then []
    else StatusesIn(items[..|items| - 1])
         + if items[|items| - 1].OfStatus? then [items[|items| - 1].update] else []
  }

  /** Messages are taken one after another as they stand. */
  lemma {:induction false} MessagesInOrder(raws: seq<RawMessage>, more: seq<RawMessage>, raw: RawMessage, route: Route)
    ensures MessageItems(raws + more, route) == MessageItems(raws, route) + MessageItems(more, route)
    ensures MessageItems([raw], route) ==
      if ParseMessage(raw, route).Some? then [OfMessage(ParseMessage(raw, route).value)] else []
    decreases more
  {
    assert [raw][..0] == [] && MessageItems([], route) == [];
    if more == [] {
      assert raws + more == raws;
    } else {
      var front := more[..|more| - 1];
      MessagesInOrder(raws, front, raw, route);
      assert (raws + more)[..|raws + more| - 1] == raws + front;
    }
  }

  lemma {:induction false} StatusesInOrder(raws: seq<RawStatus>, more: seq<RawStatus>, raw: RawStatus, route: Route)
    ensures StatusItems(raws + more, route) == StatusItems(raws, route) + StatusItems(more, route)
    ensures StatusItems([raw], route) ==
      if ParseStatus(raw, route).Some? then [OfStatus(ParseStatus(raw, route).value)] else []
    decreases more
  {
    assert [raw][..0] == [] && StatusItems([], route) == [];
    if more == [] {
      assert raws + more == raws;
    } else {
      var front := more[..|more| - 1];
      StatusesInOrder(raws, front, raw, route);
      assert (raws + more)[..|raws + more| - 1] == raws + front;
    }
  }

  /** A delivery is its changes one after another, and an open change its messages and then its statuses. */
  lemma {:induction false} DeliveryInOrder(changes: seq<Change>, more: seq<Change>, change: Change, routes: map<string, Route>)
    ensures Items(changes + more, routes) == Items(changes, routes) + Items(more, routes)
    ensures change.number !in routes ==> Items([change], routes) == []
    ensures change.number in routes ==>
      Items([change], routes) ==
      MessageItems(change.messages, routes[change.number]) + StatusItems(change.statuses, routes[change.number])
    decreases more
  {
    assert [change][..0] == [] && Items([], routes) == [];
    if more == [] {
      assert changes + more == changes;
    } else {
      var front := more[..|more| - 1];
      DeliveryInOrder(changes, front, change, routes);
      assert (changes + more)[..|changes + more| - 1] == changes + front;
    }
  }

  lemma OneMore(items: seq<Item>, item: Item)
    ensures MessagesIn(items + [item]) == MessagesIn(items) + if item.OfMessage? then [item.message] else []
    ensures StatusesIn(items + [item]) == StatusesIn(items) + if item.OfStatus? then [item.update] else []
  {
    assert (items + [item])[..|items|] == items;
  }

  lemma {:induction false} Counts(items: seq<Item>)
    ensures |MessagesIn(items)| + |StatusesIn(items)| == |items|
  {
    if items != [] { Counts(items[..|items| - 1]); }
  }

  /** One item more of a delivery is taken unless the batch is full. */
  lemma NextTaken(read: seq<Item>, next: seq<Item>, limit: nat)
    requires |next| <= 1
    ensures |First(read, limit)| <= limit
    ensures First(read + next, limit) == if |First(read, limit)| >= limit then First(read, limit) else First(read, limit) + next
  {
  }

  /** The messages and status updates a delivery stores, up to `limit` of them together. */
  class WebhookBatch {
    const limit: nat
    var messages: seq<Inbound>
    var statuses: seq<Update>
    /** The items taken so far, in the order they were. */
    ghost var taken: seq<Item>

    constructor (limit: nat)
      ensures Valid() && this.limit == limit && taken == []
    {
      this.limit := limit;
      messages, statuses, taken := [], [], [];
    }

    ghost predicate Valid()
      reads this
    {
      && messages == MessagesIn(taken) && statuses == StatusesIn(taken) && |taken| <= limit
    }

    predicate Full()
      reads this
    {
      |messages| + |statuses| >= limit
    }

    /** The batch goes on to hold the first items of all read so far, this change's included. */
    method Collect(change: Change, route: Route)
      requires Valid()
      modifies this`messages, this`statuses, this`taken
      ensures Valid()
      ensures taken == First(old(taken) + MessageItems(change.messages, route) + StatusItems(change.statuses, route), limit)
    {
      ghost var before := taken;
      assert |before| <= limit;
      FirstTaken(before, limit);
      hide First, Valid;
      CollectMessages(change, route, before);
      CollectStatuses(change, route, before + MessageItems(change.messages, route));
    }

    method CollectMessages(change: Change, route: Route, ghost before: seq<Item>)
      requires Valid() && taken == First(before, limit)
      modifies this`messages, this`statuses, this`taken
      ensures Valid() && taken == First(before + MessageItems(change.messages, route), limit)
    {
      ghost var read := before;
      hide First, MessagesIn, StatusesIn, ParseMessage;
      for i := 0 to |change.messages|
        invariant Valid() && read == before + MessageItems(change.messages[..i], route)
        invariant taken == First(read, limit)
      {
        assert change.messages[..i + 1][..i] == change.messages[..i];
        Counts(taken);
        var m := ParseMessage(change.messages[i], route);
        ghost var next := if m.Some? then [OfMessage(m.value)] else [];
        NextTaken(read, next, limit);
        read := read + next;
        if !Full() {
          if m.Some? {
            OneMore(taken, OfMessage(m.value));
            messages := messages + [m.value];
            taken := taken + [OfMessage(m.value)];
          }
        }
      }
      assert change.messages[..|change.messages|] == change.messages;
    }

    method CollectStatuses(change: Change, route: Route, ghost before: seq<Item>)
      requires Valid() && taken == First(before, limit)
      modifies this`messages, this`statuses, this`taken
      ensures Valid() && taken == First(before + StatusItems(change.statuses, route), limit)
    {
      ghost var read := before;
      hide First, MessagesIn, StatusesIn, ParseStatus;
      for i := 0 to |change.statuses|
        invariant Valid() && read == before + StatusItems(change.statuses[..i], route)
        invariant taken == First(read, limit)
      {
        assert change.statuses[..i + 1][..i] == change.statuses[..i];
        Counts(taken);
        var u := ParseStatus(change.statuses[i], route);
        ghost var next := if u.Some? then [OfStatus(u.value)] else [];
        NextTaken(read, next, limit);
        read := read + next;
        if !Full() {
          if u.Some? {
            OneMore(taken, OfStatus(u.value));
            statuses := statuses + [u.value];
            taken := taken + [OfStatus(u.value)];
          }
        }
      }
      assert change.statuses[..|change.statuses|] == change.statuses;
    }
  }

  lemma FirstTaken(items: seq<Item>, limit: nat)
    ensures |items| <= limit ==> First(items, limit) == items
  {
  }

  /** A batch is the first `limit` storable items on open routes, in document order. */
  method ParseWebhook(changes: seq<Change>, routes: map<string, Route>, limit: nat) returns (batch: WebhookBatch)
    ensures fresh(batch) && batch.Valid() && batch.taken == First(Items(changes, routes), limit)
    ensures batch.messages == MessagesIn(First(Items(changes, routes), limit))
    ensures batch.statuses == StatusesIn(First(Items(changes, routes), limit))
  {
    batch := new WebhookBatch(limit);
    FirstTaken([], limit);
    hide First, MessageItems, StatusItems;
    for i := 0 to |changes|
      invariant batch.Valid() && batch.limit == limit && fresh(batch)
      invariant batch.taken == First(Items(changes[..i], routes), limit)
    {
      assert changes[..i + 1][..i] == changes[..i];
      var change := changes[i];
      if change.number in routes {
        FirstTwice(Items(changes[..i], routes), ChangeItems(change, routes), limit);
        assert batch.taken + MessageItems(change.messages, routes[change.number])
               + StatusItems(change.statuses, routes[change.number]) == batch.taken + ChangeItems(change, routes);
        batch.Collect(change, routes[change.number]);
      } else {
        assert Items(changes[..i + 1], routes) == Items(changes[..i], routes);
      }
    }
    assert changes[..|changes|] == changes;
  }

  /** Taking the first of what was taken first is taking the first of all. */
  lemma FirstTwice(items: seq<Item>, more: seq<Item>, limit: nat)
    ensures First(First(items, limit) + more, limit) == First(items + more, limit)
  {
  }

  // Storing a batch.

  /** The items of a batch in the order they are stored: its messages, then its statuses. */
  function Stored(messages: seq<Inbound>, statuses: seq<Update>): (items: seq<Item>)
    ensures |items| == |messages| + |statuses|
  {
    seq(|messages|, i requires 0 <= i < |messages| => OfMessage(messages[i]))
    + seq(|statuses|, i requires 0 <= i < |statuses| => OfStatus(statuses[i]))
  }

  /** A pass over one item more. */
  lemma NextStored(s: Store, messages: seq<Inbound>, statuses: seq<Update>, n: nat, now: int)
    requires n < |messages| + |statuses|
    ensures var items := Stored(messages, statuses);
      && items[n] == (if n < |messages| then OfMessage(messages[n]) else OfStatus(statuses[n - |messages|]))
      && Pass(s, items[..n + 1], now) == Do(Pass(s, items[..n], now), items[n], now)
  {
    hide Do;
    var items := Stored(messages, statuses);
    assert items[..n + 1][..n] == items[..n];
  }

  lemma NothingStored(s: Store, items: seq<Item>, now: int, silent: set<nat>)
    ensures Pass(s, items[..0], now) == s && Told(s, items[..0], now, silent) == []
  {
  }

  /** What a pass over one item more tells of. */
  lemma NextTold(s: Store, messages: seq<Inbound>, statuses: seq<Update>, n: nat, now: int, silent: set<nat>)
    requires n < |messages| + |statuses|
    ensures var items := Stored(messages, statuses);
      Told(s, items[..n + 1], now, silent) == Told(s, items[..n], now, silent) +
        if IsNew(Pass(s, items[..n], now), items[n]) && n !in silent then [items[n].message.Key()] else []
  {
    hide Pass, Stored;
    var items := Stored(messages, statuses);
    assert items[..n + 1][..n] == items[..n];
  }

  class Inbox {
    var last: map<ConversationKey, int>
    var messages: map<MessageKey, Message>
    var media: map<MessageKey, string>
    /** The new messages told of, in order. */
    var announced: seq<MessageKey>

    constructor ()
      ensures Value() == EMPTY && announced == []
    {
      last, messages, media, announced := map[], map[], map[], [];
    }

    ghost function Value(): Store
      reads this
    {
      Store(last, messages, media)
    }

    /** Moves the conversation's activity on and stores the message, with its media, when it is new. */
    method PersistInbound(m: Inbound, now: int) returns (arrived: bool)
      modifies this`last, this`messages, this`media
      ensures Value() == Persist(old(Value()), m, now) && (arrived <==> m.Key() !in old(messages))
    {
      var at := if m.stamp.Some? then m.stamp.value else now;
      var key := m.Conversation();
      if key !in last || last[key] < at {
        last := last[key := at];
      } else {
        assert last[key := last[key]] == last;
      }
      if m.Key() in messages {
        return false;
      }
      messages := messages[m.Key() := Message(key, false, m.content, at, None, None)];
      if m.media.Some? {
        media := media[m.Key() := m.media.value];
      }
      return true;
    }

    /** Stores a message and then tells of it when it was new, which may come to nothing. */
    method Ingest(m: Inbound, now: int, silent: bool)
      modifies this
      ensures Value() == Persist(old(Value()), m, now)
      ensures announced == old(announced) + if m.Key() !in old(messages) && !silent then [m.Key()] else []
    {
      var arrived := PersistInbound(m, now);
      if arrived && !silent {
        announced := announced + [m.Key()];
      }
    }

    /** The status of a reached message rises to the update's; true exactly when it rose. */
    method ApplyMessageStatus(u: Update) returns (applied: bool)
      modifies this`messages
      ensures messages == Applied(old(messages), u) && (applied <==> Advances(old(messages), u))
    {
      var rank := StatusRank(u.status);
      var key := MessageKey(u.tenant, u.wamid);
      if rank == 0 || !Reaches(messages, u) {
        return false;
      }
      var message := messages[key];
      if message.status.Some? && rank <= StatusRank(message.status.value) {
        return false;
      }
      messages := messages[key := message.(status := Some(u.status), detail := if u.detail == "" then None else Some(u.detail))];
      return true;
    }

    /** Stores a message once it was sent, moving its conversation on; refused when its id is held already. */
    method AppendOutbound(conversation: ConversationKey, externalId: string, content: string, at: int) returns (stored: bool)
      modifies this`last, this`messages
      ensures Value() == Record(old(Value()), conversation, externalId, content, at)
      ensures stored <==> MessageKey(conversation.tenant, externalId) !in old(messages)
    {
      var key := MessageKey(conversation.tenant, externalId);
      if key in messages {
        return false;
      }
      messages := messages[key := Message(conversation, true, content, at, None, None)];
      if conversation in last {
        if last[conversation] < at {
          last := last[conversation := at];
        } else {
          assert last[conversation := last[conversation]] == last;
        }
      }
      return true;
    }

    /**
     Stores a batch's messages, telling of each new one but at the silent places, and then
     applies its statuses, as one pass over both, up to the place where it breaks off.
     */
    method IngestBatch(batch: WebhookBatch, now: int, silent: set<nat>, failing: Option<nat>) returns (done: bool)
      modifies this
      ensures done <==> failing.None? || failing.value >= |Stored(batch.messages, batch.statuses)|
      ensures var all := Stored(batch.messages, batch.statuses);
        var items := if done then all else all[..failing.value];
        Value() == Pass(old(Value()), items, now) && announced == old(announced) + Told(old(Value()), items, now, silent)
    {
      hide Persist, Applied, Advances, Pass, Stored, Told;
      ghost var before, heard := Value(), announced;
      ghost var items := Stored(batch.messages, batch.statuses);
      var arriving, updates := batch.messages, batch.statuses;
      NothingStored(before, items, now, silent);
      for i := 0 to |arriving|
        invariant Value() == Pass(before, items[..i], now) && announced == heard + Told(before, items[..i], now, silent)
        invariant failing.Some? ==> i <= failing.value
      {
        if failing == Some(i) {
          return false;
        }
        NextStored(before, arriving, updates, i, now);
        NextTold(before, arriving, updates, i, now, silent);
        Ingest(arriving[i], now, i in silent);
      }
      for i := 0 to |updates|
        invariant Value() == Pass(before, items[..|arriving| + i], now)
        invariant announced == heard + Told(before, items[..|arriving| + i], now, silent)
        invariant failing.Some? ==> |arriving| + i <= failing.value
      {
        ghost var n := |arriving| + i;
        if failing == Some(|arriving| + i) {
          return false;
        }
        NextStored(before, arriving, updates, n, now);
        NextTold(before, arriving, updates, n, now, silent);
        var _ := ApplyMessageStatus(updates[i]);
      }
      assert items[..|items|] == items;
      return true;
    }
  }
}
