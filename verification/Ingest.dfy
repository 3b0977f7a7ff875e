/** Storing what a WhatsApp delivery carries: messages once, conversation activity, statuses that only rise, and telling of it. */
module Ingest {
  import opened Wrappers

  datatype ConversationKey = ConversationKey(tenant: nat, number: Option<string>, externalId: string)

  datatype MessageKey = MessageKey(tenant: nat, externalId: string)

  datatype Message = Message(
    conversation: ConversationKey, outbound: bool, content: string, sentAt: int,
    status: Option<string>, detail: Option<string>)

  /** `last` is each conversation's activity time, `media` the assets awaiting download. */
  datatype Store = Store(
    last: map<ConversationKey, int>, messages: map<MessageKey, Message>, media: map<MessageKey, string>)

  /** `stamp` is the time the delivery gives a message, none when it does not parse. */
  datatype Inbound = Inbound(
    tenant: nat, number: Option<string>, sender: string, externalId: string, content: string,
    stamp: Option<int>, media: Option<string>)
  {
    function Conversation(): ConversationKey { ConversationKey(tenant, number, sender) }

    function Key(): MessageKey { MessageKey(tenant, externalId) }

    function SentAt(now: int): int { if stamp.Some? then stamp.value else now }
  }

  datatype Update = Update(tenant: nat, number: Option<string>, wamid: string, status: string, detail: string)

  datatype Item = OfMessage(message: Inbound) | OfStatus(update: Update)

  function Later(a: int, b: int): int { if a >= b then a else b }

  function Upserted(last: map<ConversationKey, int>, key: ConversationKey, at: int): map<ConversationKey, int> {
    last[key := if key in last then Later(last[key], at) else at]
  }

  /** An inbound message moves its conversation's activity on, and is stored, with its media, when it is new. */
  function Persist(s: Store, m: Inbound, now: int): Store {
    var at := m.SentAt(now);
    var s := s.(last := Upserted(s.last, m.Conversation(), at));
    if m.Key() in s.messages then s
    else s.(
      messages := s.messages[m.Key() := Message(m.Conversation(), false, m.content, at, None, None)],
      media := if m.media.Some? then s.media[m.Key() := m.media.value] else s.media)
  }

  function StatusRank(status: string): nat {
    if status == "accepted" then 1
    else if status == "sent" then 2
    else if status == "delivered" then 3
    else if status == "read" then 4
    else if status == "played" then 5
    else if status == "failed" then 6
    else 0
  }

  function RankOf(message: Message): nat {
    if message.status.None? then 0 else StatusRank(message.status.value)
  }

  /** An update reaches an outbound message on its own number, or on none. */
  predicate Reaches(messages: map<MessageKey, Message>, u: Update) {
    && MessageKey(u.tenant, u.wamid) in messages
    && var message := messages[MessageKey(u.tenant, u.wamid)];
    && message.outbound && message.conversation.tenant == u.tenant
    && (message.conversation.number.None? || message.conversation.number == u.number)
  }

  /** A ranked status replaces none, or one of a lower rank. */
  predicate Advances(messages: map<MessageKey, Message>, u: Update) {
    && StatusRank(u.status) > 0 && Reaches(messages, u)
    && var message := messages[MessageKey(u.tenant, u.wamid)];
    message.status.None? || StatusRank(u.status) > RankOf(message)
  }

  function Applied(messages: map<MessageKey, Message>, u: Update): map<MessageKey, Message> {
    var key := MessageKey(u.tenant, u.wamid);
    if !Advances(messages, u) then messages
    else messages[key := messages[key].(status := Some(u.status), detail := if u.detail == "" then None else Some(u.detail))]
  }

  function Do(s: Store, item: Item, now: int): Store {
    match item
    case OfMessage(m) => Persist(s, m, now)
    case OfStatus(u) => s.(messages := Applied(s.messages, u))
  }

  /** One pass over the first items of a batch; a failing store stops it there. */
  function Pass(s: Store, items: seq<Item>, now: int): Store {
    if items == [] then s else Do(Pass(s, items[..|items| - 1], now), items[|items| - 1], now)
  }

  /** Two maps that agree on every key but one. */
  ghost predicate SameElsewhere<K(!new), V>(a: map<K, V>, b: map<K, V>, key: K) {
    forall other: K :: other != key ==> (other in a <==> other in b) && (other in a ==> a[other] == b[other])
  }

  /**
   A message whose id is new is stored as inbound, in its sender's conversation on its
   number, with its content and time, no status, and its media; nothing else is stored.
   */
  lemma PersistStores(s: Store, m: Inbound, now: int)
    ensures var (s', key) := (Persist(s, m, now), MessageKey(m.tenant, m.externalId));
      && (key !in s.messages ==>
            && key in s'.messages
            && s'.messages[key].conversation == ConversationKey(m.tenant, m.number, m.sender)
            && !s'.messages[key].outbound && s'.messages[key].content == m.content
            && s'.messages[key].sentAt == (if m.stamp.Some? then m.stamp.value else now)
            && s'.messages[key].status == None && s'.messages[key].detail == None
            && (m.media.Some? ==> key in s'.media && s'.media[key] == m.media.value)
            && (m.media.None? ==> s'.media == s.media))
      && (key in s.messages ==> s'.messages == s.messages && s'.media == s.media)
      && SameElsewhere(s.messages, s'.messages, key) && SameElsewhere(s.media, s'.media, key)
  {
  }

  /** The conversation of a message moves on to its time, and never back; no other moves. */
  lemma PersistMovesOn(s: Store, m: Inbound, now: int)
    ensures var (last, mine) := (Persist(s, m, now).last, ConversationKey(m.tenant, m.number, m.sender));
      var at := if m.stamp.Some? then m.stamp.value else now;
      && mine in last && last[mine] == (if mine in s.last && s.last[mine] > at then s.last[mine] else at)
      && SameElsewhere(s.last, last, mine)
  {
  }

  /** Statuses in the order of a message's life, failure last; any other word is no status. */
  lemma RanksInOrder(status: string)
    ensures 0 < StatusRank("accepted") < StatusRank("sent") < StatusRank("delivered")
    ensures StatusRank("delivered") < StatusRank("read") < StatusRank("played") < StatusRank("failed")
    ensures StatusRank(status) > 0 <==> status in {"accepted", "sent", "delivered", "read", "played", "failed"}
  {
  }

  /**
   An update takes hold exactly when it has a rank above the message's, which is outbound,
   of the update's tenant and id, and on its number or on none; then it is the message's
   status with its detail, if not an empty one, and nothing else of any message changes.
   */
  lemma AppliedExactly(messages: map<MessageKey, Message>, u: Update)
    ensures var (key, after) := (MessageKey(u.tenant, u.wamid), Applied(messages, u));
      && after.Keys == messages.Keys
      && (forall other :: other in messages && other != key ==> after[other] == messages[other])
      && (key in messages ==>
            var held := messages[key];
            var meant := held.outbound && held.conversation.tenant == u.tenant
                         && (held.conversation.number == None || held.conversation.number == u.number);
            var rises := StatusRank(u.status) > if held.status.Some? then StatusRank(held.status.value) else 0;
            after[key] == if meant && rises
                          then held.(status := Some(u.status), detail := if u.detail == "" then None else Some(u.detail))
                          else held)
  {
  }

  /** A stored inbound message is never changed, by no pass and no update. */
  lemma {:induction false} InboundStays(s: Store, items: seq<Item>, now: int, key: MessageKey)
    requires key in s.messages && !s.messages[key].outbound
    ensures key in Pass(s, items, now).messages && Pass(s, items, now).messages[key] == s.messages[key]
  {
    if items != [] {
      InboundStays(s, items[..|items| - 1], now, key);
    }
  }

  // Redelivery.

  /** An item that a pass at this clock would change nothing by. */
  predicate Absorbed(s: Store, item: Item, now: int) {
    match item
    case OfMessage(m) =>
      m.Key() in s.messages && m.Conversation() in s.last && s.last[m.Conversation()] >= m.SentAt(now)
    case OfStatus(u) => !Advances(s.messages, u)
  }

  predicate Stamped(item: Item) { item.OfMessage? ==> item.message.stamp.Some? }

  predicate AllStamped(items: seq<Item>) { forall i :: 0 <= i < |items| ==> Stamped(items[i]) }

  lemma AbsorbedAgain(s: Store, item: Item, now: int)
    requires Absorbed(s, item, now)
    ensures Do(s, item, now) == s
  {
    if item.OfMessage? {
      assert s.last[item.message.Conversation() := s.last[item.message.Conversation()]] == s.last;
    }
  }

  /** What is taken in stays so: new messages are inbound, statuses only rise, activity only moves on. */
  lemma StaysAbsorbed(s: Store, item: Item, now: int, next: Item, later: int)
    requires Absorbed(s, item, now)
    ensures Absorbed(Do(s, next, later), item, now)
  {
  }

  lemma DoAbsorbs(s: Store, item: Item, now: int, earlier: int)
    requires earlier <= now
    ensures Absorbed(Do(s, item, now), item, earlier)
  {
  }

  lemma {:induction false} PassAbsorbs(s: Store, items: seq<Item>, now: int, earlier: int, i: nat)
    requires i < |items| && earlier <= now
    ensures Absorbed(Pass(s, items, now), items[i], earlier)
  {
    hide Absorbed, Do;
    var n := |items| - 1;
    var before := Pass(s, items[..n], now);
    if i == n {
      DoAbsorbs(before, items[n], now, earlier);
    } else {
      PassAbsorbs(s, items[..n], now, earlier, i);
      StaysAbsorbed(before, items[i], earlier, items[n], now);
    }
  }

  lemma {:induction false} PassOverAbsorbed(s: Store, items: seq<Item>, now: int)
    requires forall i :: 0 <= i < |items| ==> Absorbed(s, items[i], now)
    ensures Pass(s, items, now) == s
  {
    hide Absorbed, Do;
    if items != [] {
      var n := |items| - 1;
      PassOverAbsorbed(s, items[..n], now);
      AbsorbedAgain(s, items[n], now);
    }
  }

  /** A full pass again, no later, changes nothing. */
  lemma PassAgain(s: Store, items: seq<Item>, now: int, earlier: int)
    requires earlier <= now
    ensures Pass(Pass(s, items, now), items, earlier) == Pass(s, items, now)
  {
    hide Absorbed, Pass;
    forall i | 0 <= i < |items| ensures Absorbed(Pass(s, items, now), items[i], earlier) {
      PassAbsorbs(s, items, now, earlier, i);
    }
    PassOverAbsorbed(Pass(s, items, now), items, earlier);
  }

  lemma {:induction false} PassJoins(s: Store, items: seq<Item>, now: int, n: nat)
    requires n <= |items|
    ensures Pass(s, items, now) == Pass(Pass(s, items[..n], now), items[n..], now)
  {
    hide Do;
    if n == |items| {
      assert items[..n] == items && items[n..] == [];
    } else {
      var last := |items| - 1;
      PassJoins(s, items[..last], now, n);
      assert items[..last][..n] == items[..n] && items[..last][n..] == items[n..][..last - n];
    }
  }

  /** At one clock a full pass after a partial one leaves what one full pass leaves, whatever the items. */
  lemma PartialAtOneClock(s: Store, items: seq<Item>, n: nat, now: int)
    requires n <= |items|
    ensures Pass(Pass(s, items[..n], now), items, now) == Pass(s, items, now)
  {
    hide Pass;
    PassAgain(s, items[..n], now, now);
    PassJoins(Pass(s, items[..n], now), items, now, n);
    PassJoins(s, items, now, n);
  }

  lemma {:induction false} StampedPassIgnoresClock(s: Store, items: seq<Item>, now: int, now': int)
    requires AllStamped(items)
    ensures Pass(s, items, now) == Pass(s, items, now')
  {
    if items != [] {
      StampedPassIgnoresClock(s, items[..|items| - 1], now, now');
    }
  }

  // Clocks that move on between passes.

  /** An item of a message some earlier item holds too. */
  predicate Repeats(items: seq<Item>, i: nat)
    requires i < |items|
  {
    items[i].OfMessage? &&
    exists j :: 0 <= j < i && items[j].OfMessage? && items[j].message.Key() == items[i].message.Key()
  }

  /** The first item of each message gives a time that parses. */
  predicate FirstsStamped(items: seq<Item>) {
    forall i :: 0 <= i < |items| ==> Stamped(items[i]) || Repeats(items, i)
  }

  lemma FirstsOfPart(items: seq<Item>, n: nat)
    requires FirstsStamped(items) && n <= |items|
    ensures FirstsStamped(items[..n])
  {
    forall i | 0 <= i < n && !Stamped(items[..n][i]) ensures Repeats(items[..n], i) {
      assert !Stamped(items[i]) && Repeats(items, i);
      var j :| 0 <= j < i && items[j].OfMessage? && items[j].message.Key() == items[i].message.Key();
      assert items[..n][j] == items[j];
    }
  }

  /** The same messages and media. */
  predicate SameMessages(a: Store, b: Store) {
    a.messages == b.messages && a.media == b.media
  }

  /** No conversation was active later. */
  predicate NoLater(a: map<ConversationKey, int>, b: map<ConversationKey, int>) {
    forall key :: key in a ==> key in b && a[key] <= b[key]
  }

  lemma {:induction false} PassSameMessages(a: Store, b: Store, items: seq<Item>, now: int)
    requires SameMessages(a, b)
    ensures SameMessages(Pass(a, items, now), Pass(b, items, now))
  {
    if items != [] {
      PassSameMessages(a, b, items[..|items| - 1], now);
    }
  }

  lemma {:induction false} PassNoLater(a: Store, b: Store, items: seq<Item>, now: int, later: int)
    requires NoLater(a.last, b.last) && now <= later
    ensures NoLater(Pass(a, items, now).last, Pass(b, items, later).last)
  {
    if items != [] {
      PassNoLater(a, b, items[..|items| - 1], now, later);
    }
  }

  lemma {:induction false} PassMovesOn(s: Store, items: seq<Item>, now: int)
    ensures NoLater(s.last, Pass(s, items, now).last)
  {
    if items != [] {
      PassMovesOn(s, items[..|items| - 1], now);
    }
  }

  lemma {:induction false} FirstsIgnoreClock(s: Store, items: seq<Item>, now: int, later: int)
    requires FirstsStamped(items)
    ensures SameMessages(Pass(s, items, now), Pass(s, items, later))
  {
    if items != [] {
      var n := |items| - 1;
      FirstsOfPart(items, n);
      FirstsIgnoreClock(s, items[..n], now, later);
      hide Pass;
      if !Stamped(items[n]) {
        assert Repeats(items, n);
        var j :| 0 <= j < n && items[j].OfMessage? && items[j].message.Key() == items[n].message.Key();
        PassAbsorbs(s, items[..n], now, now, j);
      }
      LastStep(s, items, now);
      LastStep(s, items, later);
    }
  }

  lemma LastStep(s: Store, items: seq<Item>, now: int)
    requires items != []
    ensures Pass(s, items, now) == Do(Pass(s, items[..|items| - 1], now), items[|items| - 1], now)
  {
  }

  /** A full pass after a partial one that was no later leaves what one full pass leaves. */
  lemma PartialThenFull(s: Store, items: seq<Item>, n: nat, now: int, later: int)
    requires n <= |items| && (AllStamped(items) || (FirstsStamped(items) && now <= later))
    ensures Pass(Pass(s, items[..n], now), items, later) == Pass(s, items, later)
  {
    hide Pass;
    PartialAtOneClock(s, items, n, later);
    if AllStamped(items) {
      StampedPassIgnoresClock(s, items[..n], now, later);
    } else {
      var part, part' := Pass(s, items[..n], now), Pass(s, items[..n], later);
      FirstsOfPart(items, n);
      FirstsIgnoreClock(s, items[..n], now, later);
      PassSameMessages(part, part', items, later);
      PassNoLater(s, s, items[..n], now, later);
      PassNoLater(part, part', items, later, later);
      PassMovesOn(s, items[..n], now);
      PassNoLater(s, part, items, later, later);
      SameActivity(Pass(part, items, later).last, Pass(s, items, later).last);
    }
  }

  lemma SameActivity(a: map<ConversationKey, int>, b: map<ConversationKey, int>)
    requires NoLater(a, b) && NoLater(b, a)
    ensures a == b
  {
  }

  /**
   A pass over the first `n` items, at a clock of its own, that did not tell some listener
   of the messages it stored at the silent places: telling comes after the message is
   stored, so it may fail on its own, or the pass may end in between.
   */
  datatype Partial = Partial(n: nat, now: int, silent: set<nat>)

  predicate Fit(items: seq<Item>, partials: seq<Partial>) {
    forall k :: 0 <= k < |partials| ==> partials[k].n <= |items|
  }

  /** No pass was later than this clock. */
  predicate Before(partials: seq<Partial>, now: int) {
    forall k :: 0 <= k < |partials| ==> partials[k].now <= now
  }

  function Passes(s: Store, items: seq<Item>, partials: seq<Partial>): Store
    requires Fit(items, partials)
  {
    if partials == [] then s
    else
      var last := partials[|partials| - 1];
      Pass(Passes(s, items, partials[..|partials| - 1]), items[..last.n], last.now)
  }

  /**
   Any number of partial or full passes over a delivery, told of or not, and then a full
   one leave the same messages, media, activity times, statuses and details as one
   full pass: whatever the clocks when every timestamp parses, and with clocks that do
   not go back when the first item of each message has one that does.
   */
  lemma {:induction false} RedeliveryExactlyOnce(s: Store, items: seq<Item>, partials: seq<Partial>, now: int)
    requires Fit(items, partials) && (AllStamped(items) || (FirstsStamped(items) && Before(partials, now)))
    ensures Pass(Passes(s, items, partials), items, now) == Pass(s, items, now)
  {
    if partials != [] {
      var m := |partials| - 1;
      var before := Passes(s, items, partials[..m]);
      PartialThenFull(before, items, partials[m].n, partials[m].now, now);
      RedeliveryExactlyOnce(s, items, partials[..m], now);
    }
  }

  // Timestamps that do not parse.

  ghost predicate ExactlyOnceInTime(items: seq<Item>) {
    forall s, partials, now :: Fit(items, partials) && Before(partials, now) ==>
      Pass(Passes(s, items, partials), items, now) == Pass(s, items, now)
  }

  ghost predicate ExactlyOnceAnyTime(items: seq<Item>) {
    forall s, partials, now :: Fit(items, partials) ==> Pass(Passes(s, items, partials), items, now) == Pass(s, items, now)
  }

  /** Two full passes that leave what neither of them alone would leave. */
  predicate LeavesNeither(s: Store, items: seq<Item>, now: int, later: int) {
    var twice := Pass(Pass(s, items, now), items, later);
    twice != Pass(s, items, now) && twice != Pass(s, items, later)
  }

  lemma OnePass(s: Store, items: seq<Item>, now: int)
    ensures Fit(items, [Partial(|items|, now, {})])
    ensures Passes(s, items, [Partial(|items|, now, {})]) == Pass(s, items, now)
  {
    var partials := [Partial(|items|, now, {})];
    assert items[..|items|] == items && partials[..0] == [];
    assert Passes(s, items, []) == s;
  }

  lemma ActivityReaches(s: Store, items: seq<Item>, now: int, i: nat)
    requires i < |items| && items[i].OfMessage?
    ensures var m := items[i].message;
      m.Conversation() in Pass(s, items, now).last && Pass(s, items, now).last[m.Conversation()] >= m.SentAt(now)
  {
    hide Pass;
    PassAbsorbs(s, items, now, now, i);
  }

  /** A message kept keeps its time. */
  lemma {:induction false} PassKeepsTime(s: Store, items: seq<Item>, now: int, key: MessageKey)
    requires key in s.messages
    ensures key in Pass(s, items, now).messages && Pass(s, items, now).messages[key].sentAt == s.messages[key].sentAt
  {
    if items != [] {
      PassKeepsTime(s, items[..|items| - 1], now, key);
    }
  }

  const EMPTY := Store(map[], map[], map[])

  /** A store that was empty holds only messages of the items. */
  lemma {:induction false} StoredFromItems(items: seq<Item>, now: int, key: MessageKey)
    requires key in Pass(EMPTY, items, now).messages
    ensures exists j :: 0 <= j < |items| && items[j].OfMessage? && items[j].message.Key() == key
  {
    var n := |items| - 1;
    if key in Pass(EMPTY, items[..n], now).messages {
      StoredFromItems(items[..n], now, key);
      var j :| 0 <= j < n && items[..n][j].OfMessage? && items[..n][j].message.Key() == key;
      assert items[j] == items[..n][j];
    } else {
      assert items[n].OfMessage? && items[n].message.Key() == key;
    }
  }

  /** The first item of a message gives it its time. */
  lemma FirstGivesTime(items: seq<Item>, now: int, i: nat)
    requires i < |items| && items[i].OfMessage? && !Repeats(items, i)
    ensures var key, stored := items[i].message.Key(), Pass(EMPTY, items, now).messages;
      key in stored && stored[key].sentAt == items[i].message.SentAt(now)
  {
    var key, before, upTo := items[i].message.Key(), Pass(EMPTY, items[..i], now), items[..i + 1];
    if key in before.messages {
      StoredFromItems(items[..i], now, key);
      assert false;
    }
    LastStep(EMPTY, upTo, now);
    assert upTo[..i] == items[..i] && upTo[i] == items[i];
    PassJoins(EMPTY, items, now, i + 1);
    PassKeepsTime(Pass(EMPTY, upTo, now), items[i + 1..], now, key);
  }

  /** A message whose first item gives no time goes wrong in two full passes an empty store takes, the second late enough. */
  lemma UnstampedGoesWrong(items: seq<Item>, i: nat) returns (later: int)
    requires i < |items| && !Stamped(items[i]) && !Repeats(items, i)
    ensures later > 0 && LeavesNeither(EMPTY, items, 0, later)
  {
    hide Pass, Repeats;
    var m, once := items[i].message, Pass(EMPTY, items, 0);
    ActivityReaches(EMPTY, items, 0, i);
    later := once.last[m.Conversation()] + 1;
    ActivityReaches(once, items, later, i);
    FirstGivesTime(items, 0, i);
    FirstGivesTime(items, later, i);
    PassKeepsTime(once, items, later, m.Key());
  }

  /** A pass at an earlier clock after one at a later tells an item that gives no time. */
  lemma UnstampedTellsTime(items: seq<Item>, i: nat) returns (later: int)
    requires i < |items| && !Stamped(items[i])
    ensures Pass(Pass(EMPTY, items, later), items, 0) != Pass(EMPTY, items, 0)
  {
    hide Pass;
    var m, once := items[i].message, Pass(EMPTY, items, 0);
    ActivityReaches(EMPTY, items, 0, i);
    later := once.last[m.Conversation()] + 1;
    ActivityReaches(EMPTY, items, later, i);
    PassMovesOn(Pass(EMPTY, items, later), items, 0);
  }

  /**
   A delivery is taken in exactly once, by clocks that do not go back, exactly when the
   first item of each of its messages gives a time that parses; by any clocks exactly
   when every item does.
   */
  lemma ExactlyOnceExactly(items: seq<Item>)
    ensures ExactlyOnceInTime(items) <==> FirstsStamped(items)
    ensures ExactlyOnceAnyTime(items) <==> AllStamped(items)
  {
    hide Pass, Passes, Stamped, Repeats;
    if FirstsStamped(items) {
      forall s, partials, now | Fit(items, partials) && Before(partials, now)
        ensures Pass(Passes(s, items, partials), items, now) == Pass(s, items, now)
      {
        RedeliveryExactlyOnce(s, items, partials, now);
      }
    }
    if AllStamped(items) {
      forall s, partials, now | Fit(items, partials)
        ensures Pass(Passes(s, items, partials), items, now) == Pass(s, items, now)
      {
        RedeliveryExactlyOnce(s, items, partials, now);
      }
    }
    if !FirstsStamped(items) {
      var i :| 0 <= i < |items| && !Stamped(items[i]) && !Repeats(items, i);
      var later := UnstampedGoesWrong(items, i);
      OnePass(EMPTY, items, 0);
      assert Before([Partial(|items|, 0, {})], later);
    }
    if !AllStamped(items) {
      var i :| 0 <= i < |items| && !Stamped(items[i]);
      var later := UnstampedTellsTime(items, i);
      OnePass(EMPTY, items, later);
    }
  }

  /** Some delivery taken twice leaves what neither pass alone would leave exactly when a message's first item gives no time. */
  lemma RedeliveryFailsExactly(items: seq<Item>)
    ensures (exists s, now, later :: LeavesNeither(s, items, now, later)) <==> !FirstsStamped(items)
  {
    hide Pass, Stamped, Repeats;
    if FirstsStamped(items) {
      forall s, now, later ensures !LeavesNeither(s, items, now, later) {
        assert items[..|items|] == items;
        if now <= later {
          PartialThenFull(s, items, |items|, now, later);
        } else {
          PassAgain(s, items, now, later);
        }
      }
    } else {
      var i :| 0 <= i < |items| && !Stamped(items[i]) && !Repeats(items, i);
      var later := UnstampedGoesWrong(items, i);
    }
  }

  // Telling one listener of what was stored.

  function KeysIn(items: seq<Item>): set<MessageKey> {
    set i | 0 <= i < |items| && items[i].OfMessage? :: items[i].message.Key()
  }

  /** The new messages a pass tells of, in the order it stores them. */
  function Told(s: Store, items: seq<Item>, now: int, silent: set<nat>): seq<MessageKey> {
    if items == [] then []
    else
      var n := |items| - 1;
      Told(s, items[..n], now, silent) +
        if IsNew(Pass(s, items[..n], now), items[n]) && n !in silent then [items[n].message.Key()] else []
  }

  predicate IsNew(s: Store, item: Item) { item.OfMessage? && item.message.Key() !in s.messages }

  function ToldOver(s: Store, items: seq<Item>, partials: seq<Partial>): seq<MessageKey>
    requires Fit(items, partials)
  {
    if partials == [] then []
    else
      var front, last := partials[..|partials| - 1], partials[|partials| - 1];
      ToldOver(s, items, front) + Told(Passes(s, items, front), items[..last.n], last.now, last.silent)
  }

  /** Everything told of by some passes over a delivery and then a full one. */
  function ToldInAll(s: Store, items: seq<Item>, partials: seq<Partial>, now: int, silent: set<nat>): seq<MessageKey>
    requires Fit(items, partials)
  {
    ToldOver(s, items, partials) + Told(Passes(s, items, partials), items, now, silent)
  }

  /** A pass that told of each message it stored. */
  ghost predicate ToldOfAll(s: Store, items: seq<Item>, now: int, silent: set<nat>) {
    forall i :: 0 <= i < |items| && i in silent ==> !IsNew(Pass(s, items[..i], now), items[i])
  }

  ghost predicate ToldThroughout(s: Store, items: seq<Item>, partials: seq<Partial>)
    requires Fit(items, partials)
  {
    forall k :: 0 <= k < |partials| ==>
      ToldOfAll(Passes(s, items, partials[..k]), items[..partials[k].n], partials[k].now, partials[k].silent)
  }

  lemma {:induction false} PassKeys(s: Store, items: seq<Item>, now: int)
    ensures Pass(s, items, now).messages.Keys == s.messages.Keys + KeysIn(items)
  {
    if items != [] {
      var n := |items| - 1;
      PassKeys(s, items[..n], now);
      KeysOfMore(items);
    }
  }

  lemma KeysOfMore(items: seq<Item>)
    requires items != []
    ensures var n := |items| - 1;
      KeysIn(items) == KeysIn(items[..n]) + if items[n].OfMessage? then {items[n].message.Key()} else {}
  {
    var n := |items| - 1;
    assert forall i :: 0 <= i < n ==> items[..n][i] == items[i];
  }

  /** The messages new to a store, by the keys it holds. */
  function Fresh(keys: set<MessageKey>, items: seq<Item>, silent: set<nat>): seq<MessageKey> {
    if items == [] then []
    else
      var n := |items| - 1;
      Fresh(keys, items[..n], silent) +
        if items[n].OfMessage? && items[n].message.Key() !in keys + KeysIn(items[..n]) && n !in silent
        then [items[n].message.Key()] else []
  }

  lemma {:induction false} ToldIsFresh(s: Store, items: seq<Item>, now: int, silent: set<nat>)
    ensures Told(s, items, now, silent) == Fresh(s.messages.Keys, items, silent)
  {
    hide KeysIn, Pass;
    if items != [] {
      var n := |items| - 1;
      ToldIsFresh(s, items[..n], now, silent);
      PassKeys(s, items[..n], now);
    }
  }

  lemma {:induction false} FreshJoins(keys: set<MessageKey>, items: seq<Item>, n: nat)
    requires n <= |items|
    ensures Fresh(keys, items, {}) == Fresh(keys, items[..n], {}) + Fresh(keys + KeysIn(items[..n]), items[n..], {})
  {
    hide KeysIn;
    if n == |items| {
      assert items[..n] == items && items[n..] == [];
    } else {
      var last := |items| - 1;
      FreshJoins(keys, items[..last], n);
      KeysJoin(items[..last], n);
      var front, back, one := items[..last], items[n..], items[last];
      assert front[..n] == items[..n] && front[n..] == back[..last - n] && back[last - n] == one;
      LastFresh(keys, items);
      LastFresh(keys + KeysIn(items[..n]), back);
      hide Fresh;
      assert keys + KeysIn(front) == keys + KeysIn(items[..n]) + KeysIn(front[n..]);
    }
  }

  lemma LastFresh(keys: set<MessageKey>, items: seq<Item>)
    requires items != []
    ensures var n := |items| - 1;
      Fresh(keys, items, {}) == Fresh(keys, items[..n], {}) +
        if items[n].OfMessage? && items[n].message.Key() !in keys + KeysIn(items[..n]) then [items[n].message.Key()] else []
  {
    hide KeysIn;
  }

  lemma KeysJoin(items: seq<Item>, n: nat)
    requires n <= |items|
    ensures KeysIn(items) == KeysIn(items[..n]) + KeysIn(items[n..])
  {
    assert forall i :: 0 <= i < n ==> items[..n][i] == items[i];
    assert forall i :: 0 <= i < |items| - n ==> items[n..][i] == items[n + i];
  }

  lemma {:induction false} NothingFresh(keys: set<MessageKey>, items: seq<Item>)
    requires KeysIn(items) <= keys
    ensures Fresh(keys, items, {}) == []
  {
    if items != [] {
      KeysOfMore(items);
      NothingFresh(keys, items[..|items| - 1]);
    }
  }

  /** What a full pass finds new after a partial one is what that one left. */
  lemma FreshAfterPart(keys: set<MessageKey>, items: seq<Item>, n: nat)
    requires n <= |items|
    ensures Fresh(keys, items[..n], {}) + Fresh(keys + KeysIn(items[..n]), items, {}) == Fresh(keys, items, {})
  {
    hide KeysIn;
    var more := keys + KeysIn(items[..n]);
    FreshJoins(keys, items, n);
    FreshJoins(more, items, n);
    NothingFresh(more, items[..n]);
    assert more + KeysIn(items[..n]) == more;
  }

  /** A silent pass tells of less exactly when it stored something at a silent place. */
  lemma {:induction false} FreshOrFewer(s: Store, items: seq<Item>, now: int, silent: set<nat>)
    ensures var all, told := Fresh(s.messages.Keys, items, {}), Fresh(s.messages.Keys, items, silent);
      if ToldOfAll(s, items, now, silent) then told == all else |told| < |all|
    ensures |Fresh(s.messages.Keys, items, silent)| <= |Fresh(s.messages.Keys, items, {})|
  {
    hide KeysIn, Pass;
    if items != [] {
      var n := |items| - 1;
      FreshOrFewer(s, items[..n], now, silent);
      PassKeys(s, items[..n], now);
      ToldOfMore(s, items, now, silent);
    }
  }

  lemma ToldOfMore(s: Store, items: seq<Item>, now: int, silent: set<nat>)
    requires items != []
    ensures var n := |items| - 1;
      ToldOfAll(s, items, now, silent) <==>
        ToldOfAll(s, items[..n], now, silent) && (n in silent ==> !IsNew(Pass(s, items[..n], now), items[n]))
  {
    hide Pass, IsNew;
    var n := |items| - 1;
    assert forall i :: 0 <= i < n ==> items[..n][i] == items[i] && items[..n][..i] == items[..i];
  }

  /** All the passes together store each new message once, in the order one full pass would. */
  lemma {:induction false} FreshOver(s: Store, items: seq<Item>, partials: seq<Partial>) returns (found: seq<MessageKey>)
    requires Fit(items, partials)
    ensures found + Fresh(Passes(s, items, partials).messages.Keys, items, {}) == Fresh(s.messages.Keys, items, {})
    ensures if ToldThroughout(s, items, partials) then ToldOver(s, items, partials) == found
            else |ToldOver(s, items, partials)| < |found|
  {
    if partials == [] {
      found := [];
    } else {
      var m := |partials| - 1;
      var front, last := partials[..m], partials[m];
      var before := Passes(s, items, front);
      found := FreshOver(s, items, front);
      var more := Fresh(before.messages.Keys, items[..last.n], {});
      var told, through := Told(before, items[..last.n], last.now, last.silent), ToldThroughout(s, items, front);
      ThroughoutMore(s, items, partials);
      OverMore(s, items, partials);
      hide ToldThroughout, ToldOfAll, Fresh, Pass, KeysIn, Told, Passes, ToldOver;
      PassKeys(before, items[..last.n], last.now);
      FreshAfterPart(before.messages.Keys, items, last.n);
      FreshOrFewer(before, items[..last.n], last.now, last.silent);
      ToldIsFresh(before, items[..last.n], last.now, last.silent);
      Regroup(found, more, Fresh(Passes(s, items, partials).messages.Keys, items, {}));
      LongerBy(ToldOver(s, items, front), found, through, told, more,
               ToldOfAll(before, items[..last.n], last.now, last.silent));
      found := found + more;
    }
  }

  lemma Regroup(a: seq<MessageKey>, b: seq<MessageKey>, c: seq<MessageKey>)
    ensures (a + b) + c == a + (b + c)
  {
  }

  lemma LongerBy(
    told: seq<MessageKey>, all: seq<MessageKey>, same: bool, told': seq<MessageKey>, all': seq<MessageKey>, same': bool)
    requires if same then told == all else |told| < |all|
    requires if same' then told' == all' else |told'| < |all'|
    ensures if same && same' then told + told' == all + all' else |told + told'| < |all + all'|
  {
  }

  lemma OverMore(s: Store, items: seq<Item>, partials: seq<Partial>)
    requires Fit(items, partials) && partials != []
    ensures var front, last := partials[..|partials| - 1], partials[|partials| - 1];
      && Passes(s, items, partials) == Pass(Passes(s, items, front), items[..last.n], last.now)
      && ToldOver(s, items, partials) ==
           ToldOver(s, items, front) + Told(Passes(s, items, front), items[..last.n], last.now, last.silent)
  {
  }

  lemma ThroughoutMore(s: Store, items: seq<Item>, partials: seq<Partial>)
    requires Fit(items, partials) && partials != []
    ensures var m := |partials| - 1;
      ToldThroughout(s, items, partials) <==>
        ToldThroughout(s, items, partials[..m])
        && ToldOfAll(Passes(s, items, partials[..m]), items[..partials[m].n], partials[m].now, partials[m].silent)
  {
    hide ToldOfAll, Passes;
    var m := |partials| - 1;
    assert forall k :: 0 <= k < m ==> partials[..m][k] == partials[k] && partials[..m][..k] == partials[..k];
  }

  /**
   Whatever the timestamps, passes over a delivery tell of what one full pass that tells
   of everything would, exactly when no pass stored a new message without telling of it.
   */
  lemma ToldExactly(s: Store, items: seq<Item>, partials: seq<Partial>, now: int, silent: set<nat>)
    requires Fit(items, partials)
    ensures ToldInAll(s, items, partials, now, silent) == Told(s, items, now, {}) <==>
      ToldThroughout(s, items, partials) && ToldOfAll(Passes(s, items, partials), items, now, silent)
  {
    hide ToldThroughout, ToldOfAll, Fresh, Passes, Told, ToldOver;
    var found := FreshOver(s, items, partials);
    var before := Passes(s, items, partials);
    FreshOrFewer(before, items, now, silent);
    ToldIsFresh(before, items, now, silent);
    ToldIsFresh(s, items, now, {});
  }

  predicate Distinct(keys: seq<MessageKey>) {
    forall i, j :: 0 <= i < j < |keys| ==> keys[i] != keys[j]
  }

  lemma DistinctJoin(a: seq<MessageKey>, b: seq<MessageKey>, keys: set<MessageKey>)
    requires Distinct(a) && Distinct(b)
    requires (forall key :: key in a ==> key in keys) && forall key :: key in b ==> key !in keys
    ensures Distinct(a + b)
  {
    forall i, j | 0 <= i < |a| <= j < |a + b| ensures (a + b)[i] != (a + b)[j] {
      assert (a + b)[i] in a && (a + b)[j] in b;
    }
  }

  lemma {:induction false} FreshAreNew(keys: set<MessageKey>, items: seq<Item>, silent: set<nat>)
    ensures Distinct(Fresh(keys, items, silent))
    ensures forall key :: key in Fresh(keys, items, silent) ==> key in KeysIn(items) && key !in keys
  {
    if items != [] {
      FreshAreNew(keys, items[..|items| - 1], silent);
      KeysOfMore(items);
      hide KeysIn;
    }
  }

  lemma {:induction false} ToldOverAreNew(s: Store, items: seq<Item>, partials: seq<Partial>)
    requires Fit(items, partials)
    ensures Distinct(ToldOver(s, items, partials))
    ensures s.messages.Keys <= Passes(s, items, partials).messages.Keys
    ensures forall key :: key in ToldOver(s, items, partials) ==>
      key !in s.messages && key in Passes(s, items, partials).messages
  {
    if partials != [] {
      var m := |partials| - 1;
      var last, before := partials[m], Passes(s, items, partials[..m]);
      ToldOverAreNew(s, items, partials[..m]);
      hide Pass, Told, KeysIn;
      PassKeys(before, items[..last.n], last.now);
      ToldIsFresh(before, items[..last.n], last.now, last.silent);
      FreshAreNew(before.messages.Keys, items[..last.n], last.silent);
      DistinctJoin(ToldOver(s, items, partials[..m]), Told(before, items[..last.n], last.now, last.silent), before.messages.Keys);
    }
  }

  /** However often a delivery is passed over, no message is told of twice, and none that was stored before. */
  lemma ToldAtMostOnce(s: Store, items: seq<Item>, partials: seq<Partial>, now: int, silent: set<nat>)
    requires Fit(items, partials)
    ensures Distinct(ToldInAll(s, items, partials, now, silent))
    ensures forall key :: key in ToldInAll(s, items, partials, now, silent) ==> key !in s.messages
  {
    hide Told, ToldOver, Passes, KeysIn, Fresh;
    var before := Passes(s, items, partials);
    ToldOverAreNew(s, items, partials);
    ToldIsFresh(before, items, now, silent);
    FreshAreNew(before.messages.Keys, items, silent);
    DistinctJoin(ToldOver(s, items, partials), Told(before, items, now, silent), before.messages.Keys);
  }

  /** A message stored and not told of is told of by no later pass. */
  lemma UntoldStaysUntold(s: Store, items: seq<Item>, now: int, i: nat, partials: seq<Partial>, later: int, silent: set<nat>)
    requires i < |items| && IsNew(Pass(s, items[..i], now), items[i]) && Fit(items, partials)
    ensures var after := Pass(s, items[..i + 1], now);
      items[i].message.Key() !in Told(s, items[..i + 1], now, {i})
      && items[i].message.Key() !in ToldInAll(after, items, partials, later, silent)
  {
    var key, upTo := items[i].message.Key(), items[..i + 1];
    assert upTo[..i] == items[..i] && upTo[i] == items[i];
    PassKeys(s, items[..i], now);
    ToldIsFresh(s, items[..i], now, {i});
    FreshAreNew(s.messages.Keys, items[..i], {i});
    PassAbsorbs(s, upTo, now, now, i);
    ToldAtMostOnce(Pass(s, upTo, now), items, partials, later, silent);
  }

  // Statuses.

  /** What changes the messages of a store: an item of some delivery, or a message sent and then stored. */
  datatype Event =
    | Taken(item: Item, now: int)
    | Sent(conversation: ConversationKey, externalId: string, content: string, at: int)

  /** Stores a message that was sent, with no status yet; one whose id is held already is refused. */
  function Record(s: Store, conversation: ConversationKey, externalId: string, content: string, at: int): Store {
    var key := MessageKey(conversation.tenant, externalId);
    if key in s.messages then s
    else s.(
      last := if conversation in s.last then Upserted(s.last, conversation, at) else s.last,
      messages := s.messages[key := Message(conversation, true, content, at, None, None)])
  }

  /** A message sent is stored as outbound under its new id, and moves a conversation on that is known. */
  lemma RecordStores(s: Store, conversation: ConversationKey, externalId: string, content: string, at: int)
    ensures var (s', key) := (Record(s, conversation, externalId, content, at), MessageKey(conversation.tenant, externalId));
      && (key in s.messages ==> s' == s)
      && (key !in s.messages ==>
            && key in s'.messages && s'.messages[key].conversation == conversation && s'.messages[key].outbound
            && s'.messages[key].content == content && s'.messages[key].sentAt == at && s'.messages[key].status == None
            && (conversation in s.last ==>
                  s'.last[conversation] == if s.last[conversation] > at then s.last[conversation] else at))
      && SameElsewhere(s.messages, s'.messages, key) && SameElsewhere(s.last, s'.last, conversation)
      && s'.last.Keys == s.last.Keys && s'.media == s.media
  {
  }

  function Happened(s: Store, e: Event): Store {
    match e
    case Taken(item, now) => Do(s, item, now)
    case Sent(conversation, externalId, content, at) => Record(s, conversation, externalId, content, at)
  }

  function After(s: Store, events: seq<Event>): Store {
    if events == [] then s else Happened(After(s, events[..|events| - 1]), events[|events| - 1])
  }

  /** An update meant for a message of this conversation, whether it is stored yet or not. */
  predicate MeantFor(e: Event, conversation: ConversationKey, key: MessageKey) {
    && e.Taken? && e.item.OfStatus? && MessageKey(e.item.update.tenant, e.item.update.wamid) == key
    && (conversation.number.None? || conversation.number == e.item.update.number)
  }

  /** The greatest rank among that one and those of the updates meant for a message. */
  function Highest(rank: nat, events: seq<Event>, conversation: ConversationKey, key: MessageKey): nat {
    if events == [] then rank
    else
      var front, e := Highest(rank, events[..|events| - 1], conversation, key), events[|events| - 1];
      if MeantFor(e, conversation, key) && StatusRank(e.item.update.status) > front then StatusRank(e.item.update.status)
      else front
  }

  /** A stored outbound message stays, and its status is the greatest that was received for it, in any order. */
  lemma {:induction false} StatusFollows(s: Store, events: seq<Event>, key: MessageKey)
    requires key in s.messages && s.messages[key].outbound && s.messages[key].conversation.tenant == key.tenant
    ensures var message, end := s.messages[key], After(s, events).messages;
      key in end && end[key].outbound && end[key].conversation == message.conversation
      && RankOf(end[key]) == Highest(RankOf(message), events, message.conversation, key)
  {
    if events != [] {
      var n := |events| - 1;
      StatusFollows(s, events[..n], key);
      hide After, Highest;
      StatusStep(After(s, events[..n]), events[n], key);
      LastEvent(s, events);
      LastHighest(RankOf(s.messages[key]), events, s.messages[key].conversation, key);
    }
  }

  lemma LastEvent(s: Store, events: seq<Event>)
    requires events != []
    ensures After(s, events) == Happened(After(s, events[..|events| - 1]), events[|events| - 1])
  {
  }

  lemma LastHighest(rank: nat, events: seq<Event>, conversation: ConversationKey, key: MessageKey)
    requires events != []
    ensures var n := |events| - 1;
      Highest(rank, events, conversation, key) ==
      Highest(Highest(rank, events[..n], conversation, key), [events[n]], conversation, key)
  {
    var n := |events| - 1;
    assert [events[n]][..0] == [];
    assert Highest(Highest(rank, events[..n], conversation, key), [], conversation, key) == Highest(rank, events[..n], conversation, key);
  }

  lemma StatusStep(s: Store, e: Event, key: MessageKey)
    requires key in s.messages && s.messages[key].outbound && s.messages[key].conversation.tenant == key.tenant
    ensures var message, end := s.messages[key], Happened(s, e).messages;
      key in end && end[key].outbound && end[key].conversation == message.conversation
      && RankOf(end[key]) == Highest(RankOf(message), [e], message.conversation, key)
  {
    var message := s.messages[key];
    assert [e][..0] == [] && Highest(RankOf(message), [], message.conversation, key) == RankOf(message);
  }

  lemma {:induction false} AfterJoins(s: Store, events: seq<Event>, n: nat)
    requires n <= |events|
    ensures After(s, events) == After(After(s, events[..n]), events[n..])
  {
    hide Happened;
    if n == |events| {
      assert events[..n] == events && events[n..] == [];
    } else {
      var last := |events| - 1;
      AfterJoins(s, events[..last], n);
      assert events[..last][..n] == events[..n] && events[..last][n..] == events[n..][..last - n];
    }
  }

  /** The place in a run of events where a message was sent and then stored, its id being new. */
  predicate StoredAt(s: Store, events: seq<Event>, i: nat) {
    && i < |events| && events[i].Sent?
    && MessageKey(events[i].conversation.tenant, events[i].externalId) !in After(s, events[..i]).messages
  }

  /**
   Whatever deliveries, passes and sends go on, a message's status ends at the greatest
   rank received since it was stored, in any order, and at none when none was.
   */
  lemma StatusEndsHighest(s: Store, events: seq<Event>, i: nat)
    requires StoredAt(s, events, i)
    ensures var conversation := events[i].conversation;
      var key, end := MessageKey(conversation.tenant, events[i].externalId), After(s, events).messages;
      && key in end && end[key].outbound && end[key].conversation == conversation
      && RankOf(end[key]) == Highest(0, events[i + 1..], conversation, key)
  {
    var key := MessageKey(events[i].conversation.tenant, events[i].externalId);
    var upTo := events[..i + 1];
    assert upTo[..i] == events[..i] && upTo[i] == events[i];
    LastEvent(s, upTo);
    hide After;
    AfterJoins(s, events, i + 1);
    StatusFollows(After(s, upTo), events[i + 1..], key);
  }

  /** A message's status never falls. */
  lemma StatusNeverFalls(s: Store, events: seq<Event>, n: nat, key: MessageKey)
    requires n <= |events|
    requires var part := After(s, events[..n]).messages;
      key in part && part[key].outbound && part[key].conversation.tenant == key.tenant
    ensures key in After(s, events).messages
    ensures RankOf(After(s, events[..n]).messages[key]) <= RankOf(After(s, events).messages[key])
  {
    hide After;
    var part := After(s, events[..n]);
    AfterJoins(s, events, n);
    StatusFollows(part, events[n..], key);
    HighestIsGreatest(RankOf(part.messages[key]), events[n..], part.messages[key].conversation, key);
  }

  lemma {:induction false} HighestIsGreatest(rank: nat, events: seq<Event>, conversation: ConversationKey, key: MessageKey)
    ensures var highest := Highest(rank, events, conversation, key);
      && highest >= rank
      && (forall i :: 0 <= i < |events| && MeantFor(events[i], conversation, key) ==>
            highest >= StatusRank(events[i].item.update.status))
      && (highest == rank || exists i ::
            0 <= i < |events| && MeantFor(events[i], conversation, key) && StatusRank(events[i].item.update.status) == highest)
  {
    hide MeantFor, StatusRank;
    if events != [] {
      HighestIsGreatest(rank, events[..|events| - 1], conversation, key);
    }
  }

  lemma {:induction false} HighestJoins(events: seq<Event>, n: nat, conversation: ConversationKey, key: MessageKey)
    requires n <= |events|
    ensures var early, late := Highest(0, events[..n], conversation, key), Highest(0, events[n..], conversation, key);
      Highest(0, events, conversation, key) == if early > late then early else late
  {
    hide MeantFor, StatusRank;
    if n == |events| {
      assert events[..n] == events && events[n..] == [];
    } else {
      var last := |events| - 1;
      HighestJoins(events[..last], n, conversation, key);
      assert events[..last][..n] == events[..n] && events[..last][n..] == events[n..][..last - n];
    }
  }

  /**
   It ends at the greatest rank received at all exactly when none received before the
   message was stored is greater than those received since.
   */
  lemma HighestOfAllExactly(s: Store, events: seq<Event>, i: nat)
    requires StoredAt(s, events, i)
    ensures var conversation := events[i].conversation;
      var key := MessageKey(conversation.tenant, events[i].externalId);
      && key in After(s, events).messages
      && (RankOf(After(s, events).messages[key]) == Highest(0, events, conversation, key) <==>
            Highest(0, events[..i], conversation, key) <= Highest(0, events[i + 1..], conversation, key))
  {
    var conversation := events[i].conversation;
    var key := MessageKey(conversation.tenant, events[i].externalId);
    StatusEndsHighest(s, events, i);
    HighestJoins(events, i, conversation, key);
    HighestJoins(events[i..], 1, conversation, key);
    assert events[i..][1..] == events[i + 1..] && events[i..][..1] == [events[i]] && [events[i]][..0] == [];
    assert Highest(0, [], conversation, key) == 0;
    assert Highest(0, [events[i]], conversation, key) == 0;
  }

  /** An update that overtakes the storing of its message is lost: read before it and sent after it end at sent. */
  lemma EarlyUpdateIsLost(s: Store, conversation: ConversationKey, wamid: string, at: int)
    requires MessageKey(conversation.tenant, wamid) !in s.messages
    ensures var key := MessageKey(conversation.tenant, wamid);
      var update := status => Taken(OfStatus(Update(conversation.tenant, conversation.number, wamid, status, "")), at);
      var events := [update("read"), Sent(conversation, wamid, "", at), update("sent")];
      && key in After(s, events).messages && After(s, events).messages[key].status == Some("sent")
      && StatusRank("sent") < StatusRank("read") == Highest(0, events, conversation, key)
  {
    var key := MessageKey(conversation.tenant, wamid);
    var update := status => Taken(OfStatus(Update(conversation.tenant, conversation.number, wamid, status, "")), at);
    var read, sent, stored := update("read"), update("sent"), Sent(conversation, wamid, "", at);
    var events := [read, stored, sent];
    assert events[..2] == [read, stored] && events[..2][..1] == [read] && [read][..0] == [];
    assert After(s, []) == s && After(s, [read]) == s;
    assert Highest(0, [], conversation, key) == 0 && Highest(0, [read], conversation, key) == 4;
  }
}
