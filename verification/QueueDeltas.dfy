/** The one-item records the handlers publish, and the listing a client edits with them. */
module QueueDeltas {
  import opened Wrappers
  import opened QueueOrder
  import opened RoomQueue

  /** A PlaylistItem as clients see it. */
  datatype Shown = Shown(item: Item, votes: nat)

  datatype QueueRecord =
    | Snapshot(items: seq<Shown>)
    | ItemAdded(added: Shown)
    | ItemUpdated(updated: Shown, position: nat)
    | ItemRemoved(id: nat)

  // ---------------------------------------------------------------- the client's queue

  function Drop(q: seq<Shown>, id: nat): seq<Shown>
  {
    if q == [] then [] else if q[0].item.id == id then Drop(q[1..], id) else [q[0]] + Drop(q[1..], id)
  }

  function InsertAt(q: seq<Shown>, position: nat, x: Shown): seq<Shown>
  {
    var at := if position <= |q| then position else |q|;
    q[..at] + [x] + q[at..]
  }

  /** Updates move or insert at their position, additions append, removals drop. */
  function Edit(q: seq<Shown>, record: QueueRecord): seq<Shown>
  {
    match record
    case Snapshot(items) => items
    case ItemAdded(x) => Drop(q, x.item.id) + [x]
    case ItemUpdated(x, position) => InsertAt(Drop(q, x.item.id), position, x)
    case ItemRemoved(id) => Drop(q, id)
  }

  // ---------------------------------------------------------------- the server's listing

  function Show(s: seq<Row>): (q: seq<Shown>)
    ensures |q| == |s| && forall i :: 0 <= i < |s| ==> q[i] == Shown(s[i].item, s[i].votes)
  {
    seq(|s|, i requires 0 <= i < |s| => Shown(s[i].item, s[i].votes))
  }

  /** The ordered playlist query. */
  ghost function Listing(r: Room, enabled: set<Source>): (s: seq<Row>)
    requires Keyed(r)
    ensures Lists(s, Rows(r, Visible(r, enabled)))
  {
    KeyedRowsHaveNoTies(r, Visible(r, enabled));
    Order(Rows(r, Visible(r, enabled)))
  }

  /** The record for one item: its new place in the listing, or its removal when it is not listed. */
  predicate IsDelta(listing: seq<Shown>, id: nat, record: QueueRecord)
  {
    if exists i :: 0 <= i < |listing| && listing[i].item.id == id
    then record.ItemUpdated? && record.position < |listing| && listing[record.position] == record.updated
         && record.updated.item.id == id && forall i :: 0 <= i < record.position ==> listing[i].item.id != id
    else record == ItemRemoved(id)
  }

  /** The handlers' search for the touched item in the listing they just read. */
  method CompactDelta(playlistItems: seq<Shown>, id: nat) returns (compactEvent: QueueRecord)
    ensures IsDelta(playlistItems, id, compactEvent)
  {
    var found := false;
    compactEvent := ItemRemoved(id);
    var position := 0;
    while position < |playlistItems| && !found
      invariant 0 <= position <= |playlistItems|
      invariant !found ==> compactEvent == ItemRemoved(id)
      invariant !found ==> forall i :: 0 <= i < position ==> playlistItems[i].item.id != id
      invariant found ==> IsDelta(playlistItems, id, compactEvent)
    {
      if playlistItems[position].item.id == id {
        compactEvent := ItemUpdated(playlistItems[position], position);
        found := true;
      }
      position := position + 1;
    }
  }

  // ---------------------------------------------------------------- faithfulness

  /** r and s agree on everything a listing shows of items other than id. */
  ghost predicate SameBut(r: Room, s: Room, id: nat)
  {
    && r.items - {id} == s.items - {id}
    && forall v: Vote :: v.item != id ==> (v in r.votes <==> v in s.votes)
  }

  function Without(s: seq<Row>, id: nat): seq<Row>
  {
    if s == [] then [] else if s[0].item.id == id then Without(s[1..], id) else [s[0]] + Without(s[1..], id)
  }

  lemma {:induction false} DropShown(s: seq<Row>, id: nat)
    ensures Drop(Show(s), id) == Show(Without(s, id))
  {
    if s != [] {
      DropShown(s[1..], id);
      assert Show(s)[1..] == Show(s[1..]);
    }
  }

  lemma {:induction false} WithoutMembers(s: seq<Row>, id: nat)
    ensures forall r: Row :: r in Without(s, id) <==> r in s && r.item.id != id
  {
    if s != [] {
      WithoutMembers(s[1..], id);
      assert forall r: Row :: r in s <==> r == s[0] || r in s[1..];
    }
  }

  lemma {:induction false} WithoutSorted(s: seq<Row>, id: nat)
    requires Sorted(s)
    ensures Sorted(Without(s, id))
  {
    hide Before;
    if s != [] {
      WithoutSorted(s[1..], id);
      WithoutMembers(s[1..], id);
      forall r | r in Without(s[1..], id) ensures Before(s[0], r) {
        var i :| 0 <= i < |s[1..]| && s[1..][i] == r;
        assert s[i + 1] == r;
      }
    }
  }

  lemma WithoutLists(s: seq<Row>, rows: set<Row>, id: nat)
    requires Lists(s, rows)
    ensures Lists(Without(s, id), set r | r in rows && r.item.id != id)
  {
    hide Without, Sorted;
    WithoutMembers(s, id);
    WithoutSorted(s, id);
  }

  /** The rows of other items are the same before and after. */
  lemma OtherRows(r: Room, ids: set<nat>, s: Room, ids': set<nat>, id: nat)
    requires SameBut(r, s, id) && Keyed(r) && Keyed(s)
    requires ids <= r.items.Keys && ids' <= s.items.Keys && ids - {id} == ids' - {id}
    ensures (set x | x in Rows(r, ids) && x.item.id != id) == (set x | x in Rows(s, ids') && x.item.id != id)
  {
    OtherRow(r, ids, s, ids', id);
    OtherRow(s, ids', r, ids, id);
  }

  lemma OtherRow(r: Room, ids: set<nat>, s: Room, ids': set<nat>, id: nat)
    requires SameBut(r, s, id) && Keyed(r)
    requires ids <= r.items.Keys && ids' <= s.items.Keys && ids - {id} == ids' - {id}
    ensures forall x :: x in Rows(r, ids) && x.item.id != id ==> x in Rows(s, ids')
  {
    forall x | x in Rows(r, ids) && x.item.id != id
      ensures x in Rows(s, ids')
    {
      var k :| k in ids && x == RowOf(r, k);
      assert k in r.items - {id} && k in ids - {id};
      assert (r.items - {id})[k] == (s.items - {id})[k];
      assert VotesFor(r.votes, k) == VotesFor(s.votes, k);
      assert k in ids' && x == RowOf(s, k);
    }
  }

  lemma OtherIds(r: Room, s: Room, id: nat, enabled: set<Source>)
    requires SameBut(r, s, id)
    ensures Visible(r, enabled) - {id} == Visible(s, enabled) - {id}
    ensures Playable(r, enabled) - {id} == Playable(s, enabled) - {id}
  {
    forall k | k != id
      ensures k in r.items <==> k in s.items
      ensures k in r.items ==> r.items[k] == s.items[k]
    {
      assert k in r.items <==> k in r.items - {id};
      assert k in s.items <==> k in s.items - {id};
    }
  }

  /** Dropping the touched item leaves the same order before and after. */
  lemma SameOrderOfOthers(r: Room, s: Room, id: nat, enabled: set<Source>)
    requires Keyed(r) && Keyed(s) && SameBut(r, s, id)
    ensures Without(Listing(r, enabled), id) == Without(Listing(s, enabled), id)
  {
    var rows, rows' := Rows(r, Visible(r, enabled)), Rows(s, Visible(s, enabled));
    OtherIds(r, s, id, enabled);
    OtherRows(r, Visible(r, enabled), s, Visible(s, enabled), id);
    WithoutLists(Listing(r, enabled), rows, id);
    WithoutLists(Listing(s, enabled), rows', id);
    OrderIsUnique(Without(Listing(r, enabled), id), Without(Listing(s, enabled), id),
                  set x | x in rows && x.item.id != id);
  }

  ghost predicate DistinctIds(q: seq<Shown>)
  {
    forall i, j :: 0 <= i < j < |q| ==> q[i].item.id != q[j].item.id
  }

  lemma {:induction false} DropAbsent(q: seq<Shown>, id: nat)
    requires forall x :: x in q ==> x.item.id != id
    ensures Drop(q, id) == q
  {
    if q != [] { DropAbsent(q[1..], id); }
  }

  lemma {:induction false} DropThenInsert(q: seq<Shown>, i: nat)
    requires DistinctIds(q) && i < |q|
    ensures InsertAt(Drop(q, q[i].item.id), i, q[i]) == q
    ensures |Drop(q, q[i].item.id)| == |q| - 1
  {
    if i == 0 {
      assert forall x :: x in q[1..] ==> x.item.id != q[0].item.id;
      DropAbsent(q[1..], q[0].item.id);
    } else {
      DropThenInsert(q[1..], i - 1);
      var rest := Drop(q[1..], q[i].item.id);
      assert Drop(q, q[i].item.id) == [q[0]] + rest;
      assert InsertAt([q[0]] + rest, i, q[i]) == [q[0]] + InsertAt(rest, i - 1, q[i]);
    }
  }

  lemma ListingHasDistinctIds(r: Room, enabled: set<Source>)
    requires Keyed(r)
    ensures DistinctIds(Show(Listing(r, enabled)))
  {
    var s := Listing(r, enabled);
    forall i, j | 0 <= i < j < |s|
      ensures s[i].item.id != s[j].item.id
    {
      assert s[i] in s && s[j] in s && Before(s[i], s[j]);
      var a :| a in Visible(r, enabled) && s[i] == RowOf(r, a);
      var b :| b in Visible(r, enabled) && s[j] == RowOf(r, b);
    }
  }

  /** Two queues that differ in one item only: its record turns one into the other. */
  lemma EditReaches(before: seq<Shown>, after: seq<Shown>, id: nat, record: QueueRecord)
    requires Drop(before, id) == Drop(after, id) && DistinctIds(after) && IsDelta(after, id, record)
    ensures Edit(before, record) == after
  {
    if record.ItemUpdated? {
      DropThenInsert(after, record.position);
    } else {
      DropAbsent(after, id);
    }
  }

  /** The record for the one touched item turns the old listing into exactly the new one. */
  lemma DeltaIsFaithful(r: Room, s: Room, id: nat, record: QueueRecord, enabled: set<Source>)
    requires Keyed(r) && Keyed(s) && SameBut(r, s, id)
    requires IsDelta(Show(Listing(s, enabled)), id, record)
    ensures Edit(Show(Listing(r, enabled)), record) == Show(Listing(s, enabled))
  {
    hide *;
    SameOrderOfOthers(r, s, id, enabled);
    DropShown(Listing(r, enabled), id);
    DropShown(Listing(s, enabled), id);
    ListingHasDistinctIds(s, enabled);
    EditReaches(Show(Listing(r, enabled)), Show(Listing(s, enabled)), id, record);
  }

  // ---------------------------------------------------------------- positions

  /** ROW_NUMBER() - 1 of a row in the ordered listing. */
  ghost function RowNumber(rows: set<Row>, x: Row): nat
  {
    |set y | y in rows && Before(y, x)|
  }

  lemma {:induction false} PrefixSize(s: seq<Row>, i: nat)
    requires Sorted(s) && i <= |s|
    ensures |set k | 0 <= k < i :: s[k]| == i
  {
    var prefix := set k | 0 <= k < i :: s[k];
    if i == 0 {
      assert prefix == {};
    } else {
      PrefixSize(s, i - 1);
      var shorter := set k | 0 <= k < i - 1 :: s[k];
      assert prefix == shorter + {s[i - 1]};
      assert forall k :: 0 <= k < i - 1 ==> Before(s[k], s[i - 1]);
      assert s[i - 1] !in shorter;
    }
  }

  /** The database's row number is the place in the listing. */
  lemma RowNumberIsIndex(s: seq<Row>, rows: set<Row>, i: nat)
    requires Lists(s, rows) && i < |s|
    ensures RowNumber(rows, s[i]) == i
  {
    var earlier := set y | y in rows && Before(y, s[i]);
    var prefix := set k | 0 <= k < i :: s[k];
    forall y | y in earlier ensures y in prefix {
      assert y in s;
      var k :| 0 <= k < |s| && s[k] == y;
      assert k < i;
    }
    assert earlier == prefix by { assert forall k :: 0 <= k < i ==> s[k] in rows && Before(s[k], s[i]); }
    PrefixSize(s, i);
  }

  /** The record built from the position query: the row at its row number, or a removal when it is not listed. */
  ghost function PositionRecord(r: Room, id: nat, enabled: set<Source>): QueueRecord
  {
    if id in Visible(r, enabled)
    then ItemUpdated(Shown(RowOf(r, id).item, RowOf(r, id).votes),
                     RowNumber(Rows(r, Visible(r, enabled)), RowOf(r, id)))
    else ItemRemoved(id)
  }

  lemma PositionRecordIsDelta(r: Room, id: nat, enabled: set<Source>)
    requires Keyed(r)
    ensures IsDelta(Show(Listing(r, enabled)), id, PositionRecord(r, id, enabled))
  {
    var s, rows := Listing(r, enabled), Rows(r, Visible(r, enabled));
    ListingHasDistinctIds(r, enabled);
    forall i | 0 <= i < |s| ensures s[i].item.id in Visible(r, enabled) {
      assert s[i] in s && s[i] in rows;
    }
    if id in Visible(r, enabled) {
      assert RowOf(r, id) in rows && RowOf(r, id) in s;
      var i :| 0 <= i < |s| && s[i] == RowOf(r, id);
      RowNumberIsIndex(s, rows, i);
    }
  }

  lemma SortedSnoc(s: seq<Row>, x: Row)
    requires Sorted(s) && forall i :: 0 <= i < |s| ==> Before(s[i], x)
    ensures Sorted(s + [x])
  {
    hide Before;
  }

  /** A row that every other row precedes is listed last. */
  lemma LastRow(rows: set<Row>, x: Row)
    requires NoTies(rows) && x in rows && forall y :: y in rows && y != x ==> Before(y, x)
    ensures Order(rows) == Order(rows - {x}) + [x]
  {
    var s := Order(rows - {x});
    assert forall i :: 0 <= i < |s| ==> s[i] in rows - {x};
    SortedSnoc(s, x);
    hide Before, Order;
    OrderIsUnique(Order(rows), s + [x], rows);
  }

  // ---------------------------------------------------------------- the operations

  lemma VoteDelta(r: Room, id: nat, user: nat, record: QueueRecord, enabled: set<Source>, now: int)
    requires Keyed(r)
    requires IsDelta(Show(Listing(VoteStatement(r, id, user, now), enabled)), id, record)
    ensures Edit(Show(Listing(r, enabled)), record) == Show(Listing(VoteStatement(r, id, user, now), enabled))
  {
    DeltaIsFaithful(r, VoteStatement(r, id, user, now), id, record, enabled);
  }

  lemma RemoveDelta(r: Room, id: nat, enabled: set<Source>, now: int)
    requires Keyed(r)
    ensures Edit(Show(Listing(r, enabled)), ItemRemoved(id)) == Show(Listing(RemoveStatement(r, id, now), enabled))
  {
    var s := RemoveStatement(r, id, now);
    assert r.items - {id} == s.items - {id};
    var q := Show(Listing(s, enabled));
    forall i | 0 <= i < |q| ensures q[i].item.id != id {
      assert Listing(s, enabled)[i] in Listing(s, enabled);
    }
    DeltaIsFaithful(r, s, id, ItemRemoved(id), enabled);
  }

  lemma AddTouchesOne(r: Room, item: Item, user: nat, addVote: bool, now: int, enabled: set<Source>)
    requires AddStatement(r, item, user, addVote, now, enabled).Success?
    ensures var result := AddStatement(r, item, user, addVote, now, enabled).value;
            SameBut(r, result.room, result.id)
  {
    var result := AddStatement(r, item, user, addVote, now, enabled).value;
    assert r.items - {result.id} == result.room.items - {result.id};
  }

  lemma AddDelta(r: Room, item: Item, user: nat, addVote: bool, now: int, record: QueueRecord, enabled: set<Source>)
    requires Stamped(r, now) && AddStatement(r, item, user, addVote, now, enabled).Success?
    requires var result := AddStatement(r, item, user, addVote, now, enabled).value;
             IsDelta(Show(Listing(result.room, enabled)), result.id, record)
    ensures Edit(Show(Listing(r, enabled)), record) ==
            Show(Listing(AddStatement(r, item, user, addVote, now, enabled).value.room, enabled))
  {
    var result := AddStatement(r, item, user, addVote, now, enabled).value;
    assert Stamped(result.room, now + 1) && Keyed(r) && Keyed(result.room);
    hide *;
    AddTouchesOne(r, item, user, addVote, now, enabled);
    DeltaIsFaithful(r, result.room, result.id, record, enabled);
  }

  /** Skip and expiry: the record is for the item that was current. */
  lemma AdvanceTouchesOne(r: Room, removeOnPlay: bool, now: int, enabled: set<Source>)
    requires Stamped(r, now) && r.playback.current.Some?
    ensures SameBut(r, AdvanceStatement(r, removeOnPlay, now, enabled), r.playback.current.value)
  {
    var s := AdvanceStatement(r, removeOnPlay, now, enabled);
    SettledRows(r, removeOnPlay, now, enabled);
    hide AdvanceStatement;
    assert r.items - {r.playback.current.value} == s.items - {r.playback.current.value};
  }

  lemma AdvanceDelta(r: Room, removeOnPlay: bool, now: int, record: QueueRecord, enabled: set<Source>)
    requires Stamped(r, now) && r.playback.current.Some?
    requires IsDelta(Show(Listing(AdvanceStatement(r, removeOnPlay, now, enabled), enabled)), r.playback.current.value,
             record)
    ensures Edit(Show(Listing(r, enabled)), record) ==
            Show(Listing(AdvanceStatement(r, removeOnPlay, now, enabled), enabled))
  {
    var s := AdvanceStatement(r, removeOnPlay, now, enabled);
    assert Stamped(s, now + 1) && Keyed(r) && Keyed(s);
    hide *;
    AdvanceTouchesOne(r, removeOnPlay, now, enabled);
    DeltaIsFaithful(r, s, r.playback.current.value, record, enabled);
  }

  /** Skip and expiry with the position query. */
  lemma AdvancePublishesDelta(r: Room, removeOnPlay: bool, now: int, enabled: set<Source>)
    requires Stamped(r, now) && r.playback.current.Some?
    ensures var s := AdvanceStatement(r, removeOnPlay, now, enabled);
            Edit(Show(Listing(r, enabled)), PositionRecord(s, r.playback.current.value, enabled)) ==
              Show(Listing(s, enabled))
  {
    var s := AdvanceStatement(r, removeOnPlay, now, enabled);
    PositionRecordIsDelta(s, r.playback.current.value, enabled);
    AdvanceDelta(r, removeOnPlay, now, PositionRecord(s, r.playback.current.value, enabled), enabled);
  }

  /** An unvoted item that is newer than every other item comes last. */
  lemma NewestUnvotedIsLast(r: Room, ids: set<nat>, id: nat)
    requires Keyed(r) && id in ids && ids <= r.items.Keys && VotesFor(r.votes, id) == {}
    requires forall k :: k in ids && k != id ==> r.items[k].addedAt < r.items[id].addedAt
    ensures NoTies(Rows(r, ids)) && NoTies(Rows(r, ids - {id}))
    ensures Order(Rows(r, ids)) == Order(Rows(r, ids - {id})) + [RowOf(r, id)]
  {
    var rows, x := Rows(r, ids), RowOf(r, id);
    KeyedRowsHaveNoTies(r, ids);
    KeyedRowsHaveNoTies(r, ids - {id});
    assert x in rows;
    forall y | y in rows && y != x ensures Before(y, x) {
      var k :| k in ids && y == RowOf(r, k);
    }
    assert rows - {x} == Rows(r, ids - {id}) by {
      assert forall k :: k in ids - {id} ==> RowOf(r, k) != x;
    }
    LastRow(rows, x);
  }

  lemma AddedRoom(r: Room, item: Item, user: nat, now: int, enabled: set<Source>)
    requires AddStatement(r, item, user, false, now, enabled).Success?
    requires AddStatement(r, item, user, false, now, enabled).value.outcome.Added?
    ensures item.id !in r.items && item.source in enabled && !Live(item)
    ensures AddStatement(r, item, user, false, now, enabled).value.room ==
            r.(items := r.items[item.id := item.(addedAt := now)])
  {
  }

  lemma AbsentFromListing(r: Room, id: nat, enabled: set<Source>)
    requires Keyed(r) && id !in r.items
    ensures forall y :: y in Show(Listing(r, enabled)) ==> y.item.id != id
  {
    var s := Listing(r, enabled);
    forall i | 0 <= i < |s| ensures s[i].item.id != id {
      assert s[i] in s;
    }
  }

  lemma InsertedRows(r: Room, s: Room, item: Item, enabled: set<Source>)
    requires item.id !in r.items && s == r.(items := r.items[item.id := item])
    ensures Visible(s, enabled) - {item.id} == Visible(r, enabled)
    ensures Rows(s, Visible(r, enabled)) == Rows(r, Visible(r, enabled))
  {
    hide LastVote;
    assert Visible(r, enabled) == Visible(s, enabled) - {item.id};
    forall k | k in Visible(r, enabled) ensures RowOf(r, k) == RowOf(s, k) {}
  }

  /** Inserting an unvoted, newest item appends its row to the listing. */
  lemma InsertedIsListedLast(r: Room, s: Room, item: Item, enabled: set<Source>)
    requires Stamped(r, item.addedAt) && item.id !in r.items && item.source in enabled
    requires !Live(item) && VotesFor(r.votes, item.id) == {}
    requires s == r.(items := r.items[item.id := item]) && Keyed(s)
    ensures Listing(s, enabled) == Listing(r, enabled) + [Row(item, 0, None)]
  {
    InsertedRows(r, s, item, enabled);
    assert RowOf(s, item.id) == Row(item, 0, None) && item.id in Visible(s, enabled);
    hide Rows, RowOf, LastVote, VotesFor;
    NewestUnvotedIsLast(s, Visible(s, enabled), item.id);
  }

  lemma ShowSnoc(s: seq<Row>, x: Item)
    ensures Show(s + [Row(x, 0, None)]) == Show(s) + [Shown(x, 0)]
  {
  }

  /** Imports publish only the added item: unvoted and newest, it is listed last. */
  lemma ImportAppends(r: Room, item: Item, user: nat, now: int, enabled: set<Source>)
    requires Stamped(r, now) && VotesFor(r.votes, item.id) == {}
    requires AddStatement(r, item, user, false, now, enabled).Success?
    requires AddStatement(r, item, user, false, now, enabled).value.outcome.Added?
    ensures var before := Show(Listing(r, enabled));
            var after := Show(Listing(AddStatement(r, item, user, false, now, enabled).value.room, enabled));
            var x := Shown(item.(addedAt := now), 0);
            Edit(before, ItemAdded(x)) == after == before + [x]
  {
    hide AddStatement, Visible, Rows, Keyed, Listing, VotesFor;
    AddedRoom(r, item, user, now, enabled);
    var x, s := item.(addedAt := now), r.(items := r.items[item.id := item.(addedAt := now)]);
    assert Keyed(r) && Keyed(s) && Stamped(s, now + 1) by { StampedIsKeyed(r, now); }
    InsertedIsListedLast(r, s, x, enabled);
    AbsentFromListing(r, item.id, enabled);
    DropAbsent(Show(Listing(r, enabled)), item.id);
    ShowSnoc(Listing(r, enabled), x);
  }

  lemma StampedIsKeyed(r: Room, now: int)
    requires Stamped(r, now)
    ensures Keyed(r)
  {
  }
}
