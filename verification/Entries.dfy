/** The list of entries a contact keeps under one repeater. */
module Entries {
  import opened Wrappers
  import opened Values

  datatype Entry = Entry(id: nat, cells: map<string, Cell>)

  /** The given entries in reverse, the i-th id with the i-th of them. */
  function NewestFirst(entries: seq<map<string, Cell>>, ids: seq<nat>): (stored: seq<Entry>)
    requires |ids| == |entries|
    ensures |stored| == |entries|
  {
    if entries == [] then []
    else
      var n := |entries| - 1;
      [Entry(ids[n], entries[n])] + NewestFirst(entries[..n], ids[..n])
  }

  lemma {:induction false} NewestFirstAt(entries: seq<map<string, Cell>>, ids: seq<nat>, at: nat)
    requires |ids| == |entries| && at < |entries|
    ensures NewestFirst(entries, ids)[|entries| - 1 - at] == Entry(ids[at], entries[at])
  {
    var n := |entries| - 1;
    if at < n {
      NewestFirstAt(entries[..n], ids[..n], at);
    } else if n > 0 {
      NewestFirstAt(entries[..n], ids[..n], 0);
    }
  }

  /** Fills the stored entries from the back. */
  method StoreNewestFirst(entries: seq<map<string, Cell>>, ids: seq<nat>) returns (stored: array<Entry>)
    requires |ids| == |entries|
    ensures fresh(stored) && stored[..] == NewestFirst(entries, ids)
  {
    stored := new Entry[|entries|](_ => Entry(0, map[]));
    for at := 0 to |entries|
      invariant forall k :: 0 <= k < at ==> stored[|entries| - 1 - k] == Entry(ids[k], entries[k])
    {
      stored[|entries| - 1 - at] := Entry(ids[at], entries[at]);
    }
    assert |entries| == 0 ==> NewestFirst(entries, ids) == [];
    forall i | 0 <= i < |entries|
      ensures stored[i] == NewestFirst(entries, ids)[i]
    {
      NewestFirstAt(entries, ids, |entries| - 1 - i);
      assert stored[|entries| - 1 - (|entries| - 1 - i)] == stored[i];
    }
  }

  /** The entries put on top of the list, if there is room for them. */
  function Added(list: seq<Entry>, stored: seq<Entry>, limit: nat): Option<seq<Entry>> {
    if |stored| > limit || |list| + |stored| > limit then None else Some(stored + list)
  }

  predicate Holds(list: seq<Entry>, id: nat) {
    exists i :: 0 <= i < |list| && list[i].id == id
  }

  /** The list with other cells under one id; none when it holds no such id. */
  function Updated(list: seq<Entry>, id: nat, cells: map<string, Cell>): Option<seq<Entry>> {
    if !Holds(list, id) then None
    else Some(seq(|list|, i requires 0 <= i < |list| => if list[i].id == id then Entry(id, cells) else list[i]))
  }

  function Without(list: seq<Entry>, id: nat): seq<Entry> {
    if list == [] then []
    else (if list[0].id == id then [] else [list[0]]) + Without(list[1..], id)
  }

  function Deleted(list: seq<Entry>, id: nat): Option<seq<Entry>> {
    if !Holds(list, id) then None else Some(Without(list, id))
  }

  /** A kept list holds something, nothing twice, no blank entry, and no more than the limit. */
  predicate SoundList(list: seq<Entry>, limit: nat) {
    && 0 < |list| <= limit
    && (forall i, j :: 0 <= i < j < |list| ==> list[i].id != list[j].id)
    && forall i :: 0 <= i < |list| ==> Cellful(list[i].cells)
  }

  predicate Cellful(cells: map<string, Cell>) {
    cells != map[] && forall name :: name in cells ==> !BlankCell(cells[name])
  }

  /** Adding under fresh ids keeps the list sound, the newest on top and the rest as they were. */
  lemma AddKeepsSound(list: seq<Entry>, entries: seq<map<string, Cell>>, ids: seq<nat>, limit: nat)
    requires (list == [] || SoundList(list, limit)) && |ids| == |entries| > 0
    requires forall i :: 0 <= i < |ids| ==> !Holds(list, ids[i])
    requires forall i, j :: 0 <= i < j < |ids| ==> ids[i] != ids[j]
    requires forall i :: 0 <= i < |entries| ==> Cellful(entries[i])
    ensures var added := Added(list, NewestFirst(entries, ids), limit);
      && (added.Some? <==> |list| + |entries| <= limit)
      && (added.Some? ==> SoundList(added.value, limit) && added.value[|entries|..] == list
                          && added.value[0] == Entry(ids[|ids| - 1], entries[|entries| - 1]))
  {
    hide Cellful, NewestFirst;
    var stored := NewestFirst(entries, ids);
    forall i | 0 <= i < |stored| ensures Cellful(stored[i].cells) && !Holds(list, stored[i].id) {
      NewestFirstAt(entries, ids, |entries| - 1 - i);
    }
    forall i, j | 0 <= i < j < |stored| ensures stored[i].id != stored[j].id {
      NewestFirstAt(entries, ids, |entries| - 1 - i);
      NewestFirstAt(entries, ids, |entries| - 1 - j);
    }
    NewestFirstAt(entries, ids, |ids| - 1);
    if |stored| + |list| <= limit {
      Stacked(stored, list, limit);
    }
  }

  lemma Stacked(stored: seq<Entry>, list: seq<Entry>, limit: nat)
    requires stored != [] && (list == [] || SoundList(list, limit)) && |stored| + |list| <= limit
    requires forall i, j :: 0 <= i < j < |stored| ==> stored[i].id != stored[j].id
    requires forall i :: 0 <= i < |stored| ==> Cellful(stored[i].cells) && !Holds(list, stored[i].id)
    ensures SoundList(stored + list, limit)
  {
    hide Cellful, Holds;
    var both := stored + list;
    forall i, j | 0 <= i < |stored| <= j < |both| ensures both[i].id != both[j].id {
      Elsewhere(list, both[i].id, j - |stored|);
    }
    CellfulList(stored, list, limit);
  }

  lemma Elsewhere(list: seq<Entry>, id: nat, at: nat)
    requires !Holds(list, id) && at < |list|
    ensures list[at].id != id
  {
  }

  lemma CellfulList(stored: seq<Entry>, list: seq<Entry>, limit: nat)
    requires list == [] || SoundList(list, limit)
    requires forall i :: 0 <= i < |stored| ==> Cellful(stored[i].cells)
    ensures forall i :: 0 <= i < |stored + list| ==> Cellful((stored + list)[i].cells)
  {
  }

  /** Updating keeps every id in its place and every other entry as it was. */
  lemma UpdateKeepsSound(list: seq<Entry>, id: nat, cells: map<string, Cell>, limit: nat)
    requires SoundList(list, limit) && Cellful(cells)
    ensures var updated := Updated(list, id, cells);
      && (updated.Some? <==> Holds(list, id))
      && (updated.Some? ==>
            && SoundList(updated.value, limit) && |updated.value| == |list|
            && forall i :: 0 <= i < |list| ==>
                 && updated.value[i].id == list[i].id
                 && updated.value[i].cells == if list[i].id == id then cells else list[i].cells)
  {
    hide Cellful;
  }

  lemma {:induction false} WithoutAt(list: seq<Entry>, at: nat)
    requires at < |list| && forall i, j :: 0 <= i < j < |list| ==> list[i].id != list[j].id
    ensures Without(list, list[at].id) == list[..at] + list[at + 1..]
  {
    hide Holds;
    var rest := list[1..];
    WithoutFirst(list, list[at].id);
    hide Without;
    if at == 0 {
      NotAmong(list);
      NoneWithout(rest, list[0].id);
    } else {
      WithoutAt(rest, at - 1);
      assert rest[at - 1] == list[at] && list[0].id != list[at].id;
      assert list[..at] == [list[0]] + rest[..at - 1] && rest[at..] == list[at + 1..];
    }
  }

  lemma WithoutFirst(list: seq<Entry>, id: nat)
    requires list != []
    ensures Without(list, id) == (if list[0].id == id then [] else [list[0]]) + Without(list[1..], id)
  {
  }

  /** The first of distinct ids is not among the rest. */
  lemma NotAmong(list: seq<Entry>)
    requires list != [] && forall i, j :: 0 <= i < j < |list| ==> list[i].id != list[j].id
    ensures !Holds(list[1..], list[0].id)
  {
  }

  lemma {:induction false} NoneWithout(list: seq<Entry>, id: nat)
    requires !Holds(list, id)
    ensures Without(list, id) == list
  {
    if list != [] {
      assert forall i :: 0 <= i < |list| - 1 ==> list[1..][i] == list[i + 1];
      NoneWithout(list[1..], id);
    }
  }

  /** Deleting takes out one entry and keeps the rest in order; a list of one is left with nothing to keep. */
  lemma DeleteKeepsSound(list: seq<Entry>, at: nat, limit: nat)
    requires SoundList(list, limit) && at < |list|
    ensures var deleted := Deleted(list, list[at].id);
      && deleted == Some(list[..at] + list[at + 1..])
      && (deleted.value == [] || SoundList(deleted.value, limit))
  {
    hide Cellful, Without;
    WithoutAt(list, at);
    var kept := list[..at] + list[at + 1..];
    assert forall i :: 0 <= i < |kept| ==> kept[i] == list[if i < at then i else i + 1];
  }
}
