/** Which item comes first, told from the stored votes and added times alone. */
module ListingOrder {
  import opened Wrappers
  import opened QueueOrder
  import opened RoomQueue
  import opened QueueDeltas
  import opened QueueOperations

  function VoteCount(r: Room, id: nat): nat
  {
    |set v | v in r.votes && v.item == id|
  }

  /** Some vote for b is later than every vote for a. */
  ghost predicate VotedEarlier(r: Room, a: nat, b: nat)
  {
    exists w :: w in r.votes && w.item == b && forall v :: v in r.votes && v.item == a ==> v.at < w.at
  }

  /** More votes, then the earlier last vote, then the earlier added time. */
  ghost predicate ComesFirst(r: Room, a: nat, b: nat)
    requires a in r.items && b in r.items
  {
    || VoteCount(r, a) > VoteCount(r, b)
    || (VoteCount(r, a) == VoteCount(r, b) &&
        (VotedEarlier(r, a, b) || (!VotedEarlier(r, b, a) && r.items[a].addedAt < r.items[b].addedAt)))
  }

  ghost predicate Listed(r: Room, enabled: set<Source>, id: nat)
    requires Keyed(r)
  {
    exists i :: 0 <= i < |Listing(r, enabled)| && Listing(r, enabled)[i].item.id == id
  }

  ghost predicate ListedBefore(r: Room, enabled: set<Source>, a: nat, b: nat)
    requires Keyed(r)
  {
    exists i, j :: 0 <= i < j < |Listing(r, enabled)| &&
                   Listing(r, enabled)[i].item.id == a && Listing(r, enabled)[j].item.id == b
  }

  lemma LastsCompare(r: Room, a: nat, b: nat)
    requires VotesFor(r.votes, a) == {} <==> VotesFor(r.votes, b) == {}
    ensures Earlier(LastVote(VotesFor(r.votes, a)), LastVote(VotesFor(r.votes, b))) <==> VotedEarlier(r, a, b)
  {
    var forA, forB := VotesFor(r.votes, a), VotesFor(r.votes, b);
    assert forall v: Vote :: v in forA <==> v in r.votes && v.item == a;
    assert forall v: Vote :: v in forB <==> v in r.votes && v.item == b;
    var x, y := LastVote(forA), LastVote(forB);
    if Earlier(x, y) {
      var w :| w in forB && w.at == y.value;
      assert forall v :: v in r.votes && v.item == a ==> v in forA && v.at < w.at;
    }
    if VotedEarlier(r, a, b) {
      var w :| w in r.votes && w.item == b && forall v :: v in r.votes && v.item == a ==> v.at < w.at;
      assert w in forB;
      var v :| v in forA && v.at == x.value;
    }
  }

  lemma CountsAre(r: Room, id: nat)
    ensures |VotesFor(r.votes, id)| == VoteCount(r, id)
    ensures VoteCount(r, id) == 0 <==> VotesFor(r.votes, id) == {}
  {
    assert VotesFor(r.votes, id) == set v | v in r.votes && v.item == id;
  }

  /** With equal counts neither was voted earlier exactly when the last votes are at the same time. */
  lemma SameLasts(r: Room, a: nat, b: nat)
    requires VotesFor(r.votes, a) == {} <==> VotesFor(r.votes, b) == {}
    ensures LastVote(VotesFor(r.votes, a)) == LastVote(VotesFor(r.votes, b))
       <==> !VotedEarlier(r, a, b) && !VotedEarlier(r, b, a)
  {
    hide LastVote, VotesFor, VotedEarlier;
    LastsCompare(r, a, b);
    LastsCompare(r, b, a);
  }

  lemma RowsCompare(r: Room, a: nat, b: nat)
    requires Keyed(r) && a in r.items && b in r.items
    ensures Before(RowOf(r, a), RowOf(r, b)) <==> ComesFirst(r, a, b)
  {
    CountsAre(r, a);
    CountsAre(r, b);
    hide VotesFor, VotedEarlier, VoteCount, LastVote;
    if VoteCount(r, a) == VoteCount(r, b) {
      LastsCompare(r, a, b);
      SameLasts(r, a, b);
    }
  }

  lemma PlaceOf(r: Room, enabled: set<Source>, i: nat) returns (id: nat)
    requires Keyed(r) && i < |Listing(r, enabled)|
    ensures id in Visible(r, enabled) && Listing(r, enabled)[i] == RowOf(r, id)
    ensures Listing(r, enabled)[i].item.id == id
  {
    var row := Listing(r, enabled)[i];
    assert row in Rows(r, Visible(r, enabled));
    id :| id in Visible(r, enabled) && RowOf(r, id) == row;
  }

  lemma HasPlace(r: Room, enabled: set<Source>, id: nat) returns (i: nat)
    requires Keyed(r) && id in Visible(r, enabled)
    ensures i < |Listing(r, enabled)| && Listing(r, enabled)[i] == RowOf(r, id)
    ensures Listing(r, enabled)[i].item.id == id
  {
    assert RowOf(r, id) in Rows(r, Visible(r, enabled));
    assert RowOf(r, id) in Listing(r, enabled);
    i :| 0 <= i < |Listing(r, enabled)| && Listing(r, enabled)[i] == RowOf(r, id);
  }

  /** Listed is exactly what is stored, from an enabled provider and not a live video; each row shows the stored item
      with the number of its votes. */
  lemma ListedIs(r: Room, enabled: set<Source>)
    requires Keyed(r)
    ensures forall id: nat :: Listed(r, enabled, id) <==>
              && id in r.items && r.items[id].source in enabled
              && (r.items[id].source.YouTube? ==> r.items[id].duration > 0)
    ensures forall i :: 0 <= i < |Listing(r, enabled)| ==>
              var row := Listing(r, enabled)[i];
              row.item.id in r.items && row.item == r.items[row.item.id] && row.votes == VoteCount(r, row.item.id)
  {
    forall id: nat
      ensures Listed(r, enabled, id) <==> id in Visible(r, enabled)
    {
      if id in Visible(r, enabled) { var i := HasPlace(r, enabled, id); }
      if Listed(r, enabled, id) {
        var i :| 0 <= i < |Listing(r, enabled)| && Listing(r, enabled)[i].item.id == id;
        var found := PlaceOf(r, enabled, i);
      }
    }
    forall i | 0 <= i < |Listing(r, enabled)|
      ensures var row := Listing(r, enabled)[i];
              row.item.id in r.items && row.item == r.items[row.item.id] && row.votes == VoteCount(r, row.item.id)
    {
      var id := PlaceOf(r, enabled, i);
      CountsAre(r, id);
    }
  }

  /** Of two listed items the one with more votes comes first; with as many votes each the one whose last vote is
      earlier, and with none or at the same time the one that was added earlier.
      No item is listed twice. */
  lemma ListedInOrder(r: Room, enabled: set<Source>, a: nat, b: nat)
    requires Keyed(r) && a in Visible(r, enabled) && b in Visible(r, enabled)
    ensures ListedBefore(r, enabled, a, b) <==> ComesFirst(r, a, b)
  {
    var i := HasPlace(r, enabled, a);
    var j := HasPlace(r, enabled, b);
    RowsCompare(r, a, b);
    RowsCompare(r, b, a);
    hide Visible, ComesFirst, RowOf;
    if i < j {
      assert ListedBefore(r, enabled, a, b);
    } else {
      assert a != b ==> Before(RowOf(r, b), RowOf(r, a));
      if ListedBefore(r, enabled, a, b) {
        var k, m :| 0 <= k < m < |Listing(r, enabled)| &&
                    Listing(r, enabled)[k].item.id == a && Listing(r, enabled)[m].item.id == b;
        var x := PlaceOf(r, enabled, k);
        var y := PlaceOf(r, enabled, m);
      }
    }
  }

  /** What is played next is the item that comes first among those it is chosen from. */
  lemma HeadComesFirst(r: Room, ids: set<nat>, h: nat)
    requires Keyed(r) && ids <= r.items.Keys
    ensures Head(r, ids) == Some(h) <==> h in ids && forall a :: a in ids && a != h ==> ComesFirst(r, h, a)
  {
    KeyedRowsHaveNoTies(r, ids);
    forall a | a in ids && h in ids
      ensures RowOf(r, a) in Rows(r, ids) && (Before(RowOf(r, h), RowOf(r, a)) <==> ComesFirst(r, h, a))
    {
      RowsCompare(r, h, a);
    }
    hide Before, ComesFirst;
    if h in ids && forall a :: a in ids && a != h ==> ComesFirst(r, h, a) {
      assert IsFirst(RowOf(r, h), Rows(r, ids));
      FirstIsUnique(Rows(r, ids), RowOf(r, h));
    }
    if Head(r, ids) == Some(h) {
      var first := First(Rows(r, ids));
      var id :| id in ids && RowOf(r, id) == first;
      assert id == h;
      forall a | a in ids && a != h ensures ComesFirst(r, h, a) {
        assert RowOf(r, a) in Rows(r, ids) && RowOf(r, a).item.id == a;
      }
    }
  }

  // ---------------------------------------------------------------- voting

  /** A new vote at a time when all others are earlier. */
  ghost predicate FreshVote(r: Room, id: nat, user: nat, now: int)
  {
    && id in r.items && !HasVote(r, id, user)
    && forall v :: v in r.votes ==> v.at < now
  }

  lemma FreshVoteAdds(r: Room, id: nat, user: nat, now: int)
    requires FreshVote(r, id, user, now)
    ensures VoteStatement(r, id, user, now) == r.(votes := r.votes + {Vote(id, user, now)})
    ensures VoteCount(VoteStatement(r, id, user, now), id) == VoteCount(r, id) + 1
  {
    var s := VoteStatement(r, id, user, now);
    var before := set v | v in r.votes && v.item == id;
    assert (set v | v in s.votes && v.item == id) == before + {Vote(id, user, now)};
  }

  /** The comparison depends on nothing but the two items and their votes. */
  lemma ComparesTheSame(r: Room, s: Room, a: nat, b: nat)
    requires a in r.items && b in r.items && a in s.items && b in s.items
    requires r.items[a] == s.items[a] && r.items[b] == s.items[b]
    requires forall v: Vote :: v.item == a || v.item == b ==> (v in r.votes <==> v in s.votes)
    ensures ComesFirst(r, a, b) <==> ComesFirst(s, a, b)
  {
    hide VotedEarlier, VoteCount;
    CountsTheSame(r, s, a);
    CountsTheSame(r, s, b);
    EarlierTheSame(r, s, a, b);
    EarlierTheSame(r, s, b, a);
  }

  lemma CountsTheSame(r: Room, s: Room, id: nat)
    requires forall v: Vote :: v.item == id ==> (v in r.votes <==> v in s.votes)
    ensures VoteCount(r, id) == VoteCount(s, id)
  {
    assert (set v | v in r.votes && v.item == id) == set v | v in s.votes && v.item == id;
  }

  lemma EarlierTheSame(r: Room, s: Room, a: nat, b: nat)
    requires forall v: Vote :: v.item == a || v.item == b ==> (v in r.votes <==> v in s.votes)
    ensures VotedEarlier(r, a, b) <==> VotedEarlier(s, a, b)
  {
  }

  lemma VotedCompares(r: Room, id: nat, user: nat, now: int, b: nat)
    requires FreshVote(r, id, user, now) && b in r.items && b != id
    ensures ComesFirst(VoteStatement(r, id, user, now), b, id) <==> VoteCount(r, b) > VoteCount(r, id)
    ensures ComesFirst(VoteStatement(r, id, user, now), id, b) <==> VoteCount(r, b) <= VoteCount(r, id)
  {
    FreshVoteAdds(r, id, user, now);
    var s := VoteStatement(r, id, user, now);
    var vote := Vote(id, user, now);
    assert (set v | v in s.votes && v.item == b) == set v | v in r.votes && v.item == b;
    assert VotedEarlier(s, b, id) by { assert vote in s.votes; }
    assert !VotedEarlier(s, id, b) by {
      assert vote in s.votes && vote.item == id;
      assert forall w :: w in s.votes && w.item == b ==> !(vote.at < w.at);
    }
    hide VotedEarlier, VoteCount;
  }

  /** A new vote puts its item behind every listed item that already had more votes than it, before every other one,
      and leaves the order of the others as it was. */
  lemma VoteMoves(r: Room, enabled: set<Source>, id: nat, user: nat, now: int)
    requires Keyed(r) && id in Visible(r, enabled) && FreshVote(r, id, user, now)
    ensures var s := VoteStatement(r, id, user, now);
            && Keyed(s) && Visible(s, enabled) == Visible(r, enabled)
            && (forall b :: b in Visible(r, enabled) && b != id ==>
                  if VoteCount(r, b) >= VoteCount(s, id) then ListedBefore(s, enabled, b, id)
                  else ListedBefore(s, enabled, id, b))
            && forall a, b :: a in Visible(r, enabled) && b in Visible(r, enabled) && a != b && a != id && b != id ==>
                 (ListedBefore(s, enabled, a, b) <==> ListedBefore(r, enabled, a, b))
  {
    var s := VoteStatement(r, id, user, now);
    FreshVoteAdds(r, id, user, now);
    assert Visible(s, enabled) == Visible(r, enabled);
    forall b | b in Visible(r, enabled) && b != id
      ensures if VoteCount(r, b) >= VoteCount(s, id) then ListedBefore(s, enabled, b, id)
              else ListedBefore(s, enabled, id, b)
    {
      VotedCompares(r, id, user, now, b);
      hide VoteCount, VoteStatement, ComesFirst, Visible, ListedBefore;
      ListedInOrder(s, enabled, b, id);
      ListedInOrder(s, enabled, id, b);
    }
    forall a, b | a in Visible(r, enabled) && b in Visible(r, enabled) && a != b && a != id && b != id
      ensures ListedBefore(s, enabled, a, b) <==> ListedBefore(r, enabled, a, b)
    {
      ComparesTheSame(r, s, a, b);
      ListedInOrder(s, enabled, a, b);
      ListedInOrder(r, enabled, a, b);
    }
  }

  // ---------------------------------------------------------------- playing

  /** id may be played and comes before everything else that may. */
  ghost predicate ComesFirstOfAll(r: Room, enabled: set<Source>, id: nat)
  {
    && id in r.items && r.items[id].source in enabled
    && forall a :: a in r.items && r.items[a].source in enabled && a != id ==> ComesFirst(r, id, a)
  }

  lemma PlayableHead(r: Room, enabled: set<Source>, id: nat)
    requires Keyed(r)
    ensures Head(r, Playable(r, enabled)) == Some(id) <==> ComesFirstOfAll(r, enabled, id)
  {
    HeadComesFirst(r, Playable(r, enabled), id);
    hide Head, ComesFirst;
  }

  lemma FirstTheSame(r: Room, s: Room, enabled: set<Source>, id: nat)
    requires r.items == s.items && r.votes == s.votes
    ensures ComesFirstOfAll(r, enabled, id) <==> ComesFirstOfAll(s, enabled, id)
  {
    forall a, b | a in r.items && b in r.items
      ensures ComesFirst(r, a, b) <==> ComesFirst(s, a, b)
    {
      ComparesTheSame(r, s, a, b);
    }
    hide ComesFirst;
  }

  /** What had been playing loses its votes and goes or becomes the last one added; then whatever comes first among what
      is left is played from the start. */
  lemma AdvancePlaysFirst(r: Room, removeOnPlay: bool, now: int, enabled: set<Source>, current: nat, next: nat)
    requires Stamped(r, now) && r.playback.current == Some(current) && current in r.items
    ensures var s := AdvanceStatement(r, removeOnPlay, now, enabled);
            && s.items.Keys == (if removeOnPlay then r.items.Keys - {current} else r.items.Keys)
            && (forall id :: id in s.items && id != current ==> s.items[id] == r.items[id])
            && (current in s.items ==> s.items[current] == r.items[current].(addedAt := now))
            && (forall v: Vote :: v in s.votes <==> v in r.votes && v.item != current)
            && (forall v: SkipVote :: v in s.skips <==> v in r.skips && v.item != current)
            && s.playback.positionMs == 0 && s.playback.updatedAt == now
            && (s.playback.playing <==> s.playback.current.Some?)
            && (s.playback.current == Some(next) <==> ComesFirstOfAll(s, enabled, next))
            && (s.playback.current == None <==> forall id :: id in s.items ==> s.items[id].source !in enabled)
  {
    var s, settled := AdvanceStatement(r, removeOnPlay, now, enabled), Settled(r, removeOnPlay, now);
    SelectedIsHead(r, removeOnPlay, now, enabled);
    SettledRows(r, removeOnPlay, now, enabled);
    PlayableHead(settled, enabled, next);
    HeadIsAnItem(settled, Playable(settled, enabled));
    FirstTheSame(settled, s, enabled, next);
    var head := Head(settled, Playable(settled, enabled));
    assert s.playback == Playback(head, head.Some?, 0, now);
    assert forall id :: id in Playable(settled, enabled) <==> id in s.items && s.items[id].source in enabled;
    hide ComesFirstOfAll, Candidates, SelectedNext, Head, AdvanceStatement, Playable;
    assert s.items == settled.items && s.votes == settled.votes && s.skips == settled.skips;
  }
}
