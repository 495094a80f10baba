/** Exactly when every client ends in the stored order, handlers that overtake each other included. */
module QueueConvergence {
  import opened Wrappers
  import opened QueueOrder
  import opened RoomQueue
  import opened QueueDeltas
  import opened Compaction
  import opened Subscription
  import opened QueueRecords
  import opened LiveQueue
  import opened QueueRuns
  import QueueInvariant

  // ---------------------------------------------------------------- what tells a run apart

  predicate AnyWhole(slots: seq<Slot>)
  {
    exists i :: 0 <= i < |slots| && slots[i].whole
  }

  /** Some handler read its listing after another statement than its own. */
  predicate AnyLate(slots: seq<Slot>)
  {
    exists i :: 0 <= i < |slots| && slots[i].readAt != slots[i].storedAt + 1
  }

  /** The records taken are those of the last statements, in the order of the statements. */
  predicate Ordered(slots: seq<Slot>, stores: nat)
  {
    |slots| <= stores && forall i :: 0 <= i < |slots| ==> slots[i].storedAt == stores - |slots| + i
  }

  /** From some record delivered whole on, only records prepared at once and in order follow, up to the last statement.
      In particular if the last record is delivered whole and was read after the last statement. */
  predicate Settled(slots: seq<Slot>, stores: nat)
  {
    Track(None, slots) == Some(stores)
  }

  /** ahead: how many of the statements whose records were taken the snapshot holds already, if they are
      the last ones. */
  datatype Traits = Traits(ahead: int, whole: bool, late: bool, ordered: bool, settled: bool)

  function TraitsOf(s: State): Traits
  {
    var slots, stores := Schedule(s), |s.handlers|;
    Traits(s.snapshotAt - (stores - |slots|), AnyWhole(slots), AnyLate(slots), Ordered(slots, stores),
      Settled(slots, stores))
  }

  /** The client shows the stored order. */
  ghost predicate Shows(s: State, enabled: set<Source>)
    requires Stamped(s.room, s.now) && s.snapshot.Some?
  {
    Fold(View(s.snapshot.value, [], map[], []), s.system.sub.messages).queue == Show(Listing(s.room, enabled))
  }

  /** Every run of this kind ends, once the connection is caught up, with a client that shows the stored order. */
  ghost predicate AlwaysShows(traits: Traits)
  {
    forall room, now, actions, readCount, enabled | Stamped(room, now) && QueueInvariant.Inv(room) ::
      var end := LiveQueue.Run(Start(room, now, enabled), actions, readCount, enabled);
      CaughtUp(end) && TraitsOf(end) == traits ==> Shows(end, enabled)
  }

  // ---------------------------------------------------------------- enough

  lemma {:induction false} TrackKnown(shown: Option<nat>, slots: seq<Slot>)
    requires Track(None, slots).Some?
    ensures Track(shown, slots) == Track(None, slots)
    decreases |slots|
  {
    if slots[0].whole {
      assert Next(shown, slots[0]) == Next(None, slots[0]);
    } else {
      assert Next(None, slots[0]) == None;
      TrackKnown(Next(shown, slots[0]), slots[1..]);
    }
  }

  /** Records in order and prepared at once lead to the last statement, from the one before them, from their first,
      or from anywhere if one is delivered whole. */
  lemma {:induction false} InOrderTracks(shown: Option<nat>, slots: seq<Slot>, stores: nat)
    requires Ordered(slots, stores) && !AnyLate(slots)
    requires shown == Some(stores - |slots|) || (slots != [] && shown == Some(stores - |slots| + 1)) || AnyWhole(slots)
    ensures Track(shown, slots) == Some(stores)
    decreases |slots|
  {
    if slots != [] {
      var first, rest := slots[0], slots[1..];
      assert first.storedAt == stores - |slots| + 0 && first.readAt == first.storedAt + 1;
      assert forall i :: 0 <= i < |rest| ==> rest[i] == slots[i + 1];
      if Next(shown, first) == None {
        var i :| 0 <= i < |slots| && slots[i].whole;
        assert rest[i - 1].whole;
      }
      InOrderTracks(Next(shown, first), rest, stores);
    }
  }

  /** The condition on the traits of a run. */
  predicate Safe(traits: Traits)
  {
    traits.settled || (!traits.late && traits.ordered && (0 <= traits.ahead <= 1 || traits.whole))
  }

  lemma SafeTracks(s: State)
    requires Safe(TraitsOf(s)) && s.snapshotAt <= |s.handlers|
    ensures Track(Some(s.snapshotAt), Schedule(s)) == Some(|s.handlers|)
  {
    hide Track, Schedule;
    if Settled(Schedule(s), |s.handlers|) {
      TrackKnown(Some(s.snapshotAt), Schedule(s));
    } else {
      InOrderTracks(Some(s.snapshotAt), Schedule(s), |s.handlers|);
    }
  }

  lemma SafeShows(room: Room, now: int, actions: seq<Action>, readCount: nat, enabled: set<Source>)
    requires Stamped(room, now) && QueueInvariant.Inv(room)
    requires var end := LiveQueue.Run(Start(room, now, enabled), actions, readCount, enabled);
             CaughtUp(end) && Safe(TraitsOf(end))
    ensures Shows(LiveQueue.Run(Start(room, now, enabled), actions, readCount, enabled), enabled)
  {
    hide LiveQueue.Run, Safe, TraitsOf, Listing, Fold, Keyed, Track, Schedule, StoreInv, StreamInv, ConnectionInv,
         AllCarry;
    var end := LiveQueue.Run(Start(room, now, enabled), actions, readCount, enabled);
    StartIsFine(room, now, enabled);
    LiveQueue.RunKeeps(Start(room, now, enabled), actions, readCount, enabled);
    ListingsCount(end, enabled);
    SafeTracks(end);
    ClientShowsListing(room, now, actions, readCount, enabled, View(end.snapshot.value, [], map[], []));
  }

  lemma ListingsCount(s: State, enabled: set<Source>)
    requires StoreInv(s, enabled)
    ensures |s.listings| == |s.handlers| + 1
  {
  }

  // ---------------------------------------------------------------- a room whose clients go wrong

  const PROVIDERS: set<Source> := {SoundCloud}

  function Song(id: nat): Item { Item(id, SoundCloud, id, 100, 0, id, false, 0) }

  /** n songs in the order of their IDs; the first two have a vote. */
  function Songs(n: nat): Room
  {
    Room(map id: nat | 1 <= id <= n :: Song(id), {Vote(1, 0, 0), Vote(2, 0, 1)}, {}, Playback(None, false, 0, 0))
  }

  /** Of four songs the fourth is voted to the third place. */
  function Voted(at: int): Room
  {
    Songs(4).(votes := {Vote(1, 0, 0), Vote(2, 0, 1), Vote(4, 0, at)})
  }

  /** Then the first is removed. */
  function Left(at: int): Room
  {
    Room(map[2 := Song(2), 3 := Song(3), 4 := Song(4)], {Vote(2, 0, 1), Vote(4, 0, at)}, {},
      Playback(None, false, 0, 0))
  }

  const FIRST := Shown(Song(1), 1)
  const SECOND := Shown(Song(2), 1)
  const THIRD := Shown(Song(3), 0)
  const FOURTH := Shown(Song(4), 0)
  const RAISED := Shown(Song(4), 1)

  lemma SongsAreFine(n: nat, now: int)
    requires 2 <= n < now
    ensures Stamped(Songs(n), now) && Keyed(Songs(n)) && QueueInvariant.Inv(Songs(n))
  {
  }

  lemma OneSongLess(n: nat, now: int)
    requires n > 2
    ensures RemoveStatement(Songs(n), n, now) == Songs(n - 1)
  {
    assert Songs(n).items - {n} == Songs(n - 1).items;
    assert (set v | v in Songs(n).votes && v.item != n) == Songs(n).votes;
  }

  lemma VoteForFourth(at: int)
    ensures VoteStatement(Songs(4), 4, 0, at) == Voted(at) != Songs(4)
  {
    assert {Vote(1, 0, 0), Vote(2, 0, 1)} + {Vote(4, 0, at)} == {Vote(1, 0, 0), Vote(2, 0, 1), Vote(4, 0, at)};
    assert Vote(4, 0, at) in Voted(at).votes && Vote(4, 0, at) !in Songs(4).votes;
  }

  lemma RemoveFirst(at: int, now: int)
    ensures RemoveStatement(Voted(at), 1, now) == Left(at)
  {
    assert Voted(at).items - {1} == Left(at).items;
    assert (set v | v in Voted(at).votes && v.item != 1) == {Vote(2, 0, 1), Vote(4, 0, at)};
  }

  lemma FourKeyed(at: int)
    ensures Keyed(Songs(4)) && Keyed(Voted(at)) && Keyed(Left(at))
    ensures Songs(4).items.Keys == Voted(at).items.Keys == {1, 2, 3, 4}
    ensures Visible(Songs(4), PROVIDERS) == Visible(Voted(at), PROVIDERS) == {1, 2, 3, 4}
  {
  }

  lemma FourRows(r: Room)
    requires r.items.Keys == {1, 2, 3, 4}
    ensures Rows(r, {1, 2, 3, 4}) == {RowOf(r, 1), RowOf(r, 2), RowOf(r, 3), RowOf(r, 4)}
  {
    hide RowOf;
  }

  lemma SongRows(at: int)
    ensures forall r :: r == Songs(4) || r == Voted(at) ==>
              && 1 in r.items && RowOf(r, 1) == Row(Song(1), 1, Some(0)) && 2 in r.items
                 && RowOf(r, 2) == Row(Song(2), 1, Some(1))
              && 3 in r.items && RowOf(r, 3) == Row(Song(3), 0, None)
    ensures RowOf(Songs(4), 4) == Row(Song(4), 0, None) && RowOf(Voted(at), 4) == Row(Song(4), 1, Some(at))
  {
    forall r | r == Songs(4) || r == Voted(at)
      ensures VotesFor(r.votes, 1) == {Vote(1, 0, 0)} && VotesFor(r.votes, 2) == {Vote(2, 0, 1)}
              && VotesFor(r.votes, 3) == {}
    {
    }
    assert VotesFor(Songs(4).votes, 4) == {} && VotesFor(Voted(at).votes, 4) == {Vote(4, 0, at)};
  }

  lemma FourListed(r: Room, a: Row, b: Row, c: Row, d: Row)
    requires Keyed(r) && r.items.Keys == {1, 2, 3, 4} && Visible(r, PROVIDERS) == {1, 2, 3, 4}
    requires {RowOf(r, 1), RowOf(r, 2), RowOf(r, 3), RowOf(r, 4)} == {a, b, c, d}
    requires Before(a, b) && Before(b, c) && Before(c, d) && Before(a, c) && Before(a, d) && Before(b, d)
    ensures Listing(r, PROVIDERS) == [a, b, c, d]
  {
    hide RowOf, Listing, Visible, Before, Keyed;
    var s := [a, b, c, d];
    FourRows(r);
    assert forall x :: x in s <==> x == s[0] || x == s[1] || x == s[2] || x == s[3];
    FourSorted(a, b, c, d);
    OrderIsUnique(Listing(r, PROVIDERS), s, Rows(r, {1, 2, 3, 4}));
  }

  lemma FourSorted(a: Row, b: Row, c: Row, d: Row)
    requires Before(a, b) && Before(b, c) && Before(c, d) && Before(a, c) && Before(a, d) && Before(b, d)
    ensures Sorted([a, b, c, d])
  {
    hide Before;
  }

  lemma SongsBefore(at: int)
    requires at > 1
    ensures var a, b, c := Row(Song(1), 1, Some(0)), Row(Song(2), 1, Some(1)), Row(Song(3), 0, None);
            var d, e := Row(Song(4), 0, None), Row(Song(4), 1, Some(at));
            && Before(a, b) && Before(b, c) && Before(c, d) && Before(a, c) && Before(a, d) && Before(b, d)
            && Before(b, e) && Before(e, c) && Before(a, e)
  {
  }

  lemma SongListings(at: int)
    requires at > 1
    ensures Keyed(Songs(4)) && Show(Listing(Songs(4), PROVIDERS)) == [FIRST, SECOND, THIRD, FOURTH]
    ensures Keyed(Voted(at)) && Show(Listing(Voted(at), PROVIDERS)) == [FIRST, SECOND, RAISED, THIRD]
  {
    hide RowOf, Listing, Songs, Voted, Visible, Before, Keyed;
    var a, b, c := Row(Song(1), 1, Some(0)), Row(Song(2), 1, Some(1)), Row(Song(3), 0, None);
    var d, e := Row(Song(4), 0, None), Row(Song(4), 1, Some(at));
    SongsBefore(at);
    FourKeyed(at);
    SongRows(at);
    FourListed(Songs(4), a, b, c, d);
    assert {a, b, c, e} == {a, b, e, c};
    FourListed(Voted(at), a, b, e, c);
  }

  lemma LeftListing(at: int)
    requires at > 1
    ensures Keyed(Left(at)) && Show(Listing(Left(at), PROVIDERS)) == [SECOND, RAISED, THIRD]
  {
    hide Listing, Voted, RemoveStatement;
    FourKeyed(at);
    SongListings(at);
    RemoveFirst(at, at + 1);
    RemoveDelta(Voted(at), 1, PROVIDERS, at + 1);
    DropFirst([SECOND, RAISED, THIRD]);
    assert [FIRST, SECOND, RAISED, THIRD] == [FIRST] + [SECOND, RAISED, THIRD];
  }

  lemma DropFirst(rest: seq<Shown>)
    requires forall x :: x in rest ==> x.item.id != 1
    ensures Edit([FIRST] + rest, ItemRemoved(1)) == rest
  {
    assert ([FIRST] + rest)[1..] == rest;
    DropAbsent(rest, 1);
  }

  // ---------------------------------------------------------------- its statements

  /** The songs from the last down to the fifth are removed, the fourth is voted up, the first is removed. */
  function RoomAt(n: nat, v: nat): Room
    requires 4 <= n && v <= n - 2
  {
    if v <= n - 4 then Songs(n - v) else if v == n - 3 then Voted(2 * n - 3) else Left(2 * n - 3)
  }

  function ChangeAt(n: nat, i: nat): QueueInvariant.Step
    requires 4 <= n && i < n - 2
  {
    if i < n - 4 then QueueInvariant.Remove(n - i)
    else if i == n - 4 then QueueInvariant.CastVote(4, 0)
    else QueueInvariant.Remove(1)
  }

  function TaskAt(n: nat, i: nat): Task
    requires 4 <= n && i < n - 2
  {
    if i < n - 4 then Removing(n - i) else if i == n - 4 then Positioning(4) else Removing(1)
  }

  /** late makes one handler read its listing only after the next statement: the vote's, or, if the last two records
      are to be swapped, the one's before. */
  function ReadingAt(n: nat, late: bool, ordered: bool, i: nat): nat
    requires 4 <= n && i < n - 2
  {
    if late && n >= 6 && i == (if ordered then n - 4 else n - 5) then i + 2 else i + 1
  }

  function PlanOf(n: nat, late: bool, ordered: bool): (p: Plan)
    requires 4 <= n
    ensures Sized(p) && |p.changes| == n - 2 && p.now == n + 1
    ensures forall v :: 0 <= v <= n - 2 ==> p.rooms[v] == RoomAt(n, v)
    ensures forall i :: 0 <= i < n - 2 ==>
              p.changes[i] == ChangeAt(n, i) && p.tasks[i] == TaskAt(n, i)
                && p.readings[i] == ReadingAt(n, late, ordered, i)
  {
    Plan(seq(n - 1, v requires 0 <= v < n - 1 => RoomAt(n, v)),
         seq(n - 2, i requires 0 <= i < n - 2 => ChangeAt(n, i)),
         seq(n - 2, i requires 0 <= i < n - 2 => TaskAt(n, i)),
         seq(n - 2, i requires 0 <= i < n - 2 => ReadingAt(n, late, ordered, i)), n + 1)
  }

  lemma RoomsAreStamped(n: nat, v: nat)
    requires 4 <= n && v <= n - 2
    ensures Stamped(RoomAt(n, v), n + 1 + v)
  {
    if v <= n - 4 { SongsAreFine(n - v, n + 1 + v); }
  }

  lemma RemovalDoes(r: Room, id: nat, s: Room, now: int)
    requires Stamped(r, now) && id in r.items && RemoveStatement(r, id, now) == s
    ensures QueueInvariant.Apply(r, QueueInvariant.Remove(id), now, PROVIDERS) == s
    ensures TaskOf(r, QueueInvariant.Remove(id), false, now, PROVIDERS) == Some(Removing(id))
  {
    hide RemoveStatement, Stamped;
  }

  lemma VoteDoes(now: int)
    requires Stamped(Songs(4), now)
    ensures QueueInvariant.Apply(Songs(4), QueueInvariant.CastVote(4, 0), now, PROVIDERS) == Voted(now)
    ensures TaskOf(Songs(4), QueueInvariant.CastVote(4, 0), false, now, PROVIDERS) == Some(Positioning(4))
  {
    hide VoteStatement, Stamped, Songs, Voted;
    VoteForFourth(now);
  }

  lemma SongsAreThere(n: nat, at: int)
    ensures n > 0 ==> n in Songs(n).items
    ensures 1 in Voted(at).items
  {
  }

  lemma ChangesDo(n: nat, i: nat)
    requires 4 <= n && i < n - 2
    ensures Stamped(RoomAt(n, i), n + 1 + i)
    ensures QueueInvariant.Apply(RoomAt(n, i), ChangeAt(n, i), n + 1 + i, PROVIDERS) == RoomAt(n, i + 1)
    ensures TaskOf(RoomAt(n, i), ChangeAt(n, i), false, n + 1 + i, PROVIDERS) == Some(TaskAt(n, i))
  {
    hide Songs, Voted, Left, Stamped, RemoveStatement, TaskOf, QueueInvariant.Apply;
    SongsAreThere(n - i, 2 * n - 3);
    RoomsAreStamped(n, i);
    if i < n - 4 {
      OneSongLess(n - i, n + 1 + i);
      RemovalDoes(RoomAt(n, i), n - i, RoomAt(n, i + 1), n + 1 + i);
    } else if i == n - 4 {
      VoteDoes(n + 1 + i);
    } else {
      RemoveFirst(2 * n - 3, n + 1 + i);
      RemovalDoes(RoomAt(n, i), 1, RoomAt(n, i + 1), n + 1 + i);
    }
  }

  lemma PlanIsValid(n: nat, late: bool, ordered: bool)
    requires 4 <= n
    ensures Valid(PlanOf(n, late, ordered), PROVIDERS)
  {
    hide RoomAt, ChangeAt, TaskOf, QueueInvariant.Apply, Stamped, PlanOf;
    var p := PlanOf(n, late, ordered);
    forall i | 0 <= i < n - 2 ensures StepDoes(p, i, PROVIDERS) { ChangesDo(n, i); }
    forall v | 0 <= v < |p.rooms| ensures Stamped(p.rooms[v], p.now + v) { RoomsAreStamped(n, v); }
  }

  // ---------------------------------------------------------------- what its clients make of the records

  lemma LastListings(n: nat, late: bool, ordered: bool)
    requires 4 <= n
    ensures var p := PlanOf(n, late, ordered);
            && ListingAt(p, n - 4, PROVIDERS) == [FIRST, SECOND, THIRD, FOURTH]
            && ListingAt(p, n - 3, PROVIDERS) == [FIRST, SECOND, RAISED, THIRD]
            && ListingAt(p, n - 2, PROVIDERS) == [SECOND, RAISED, THIRD]
  {
    hide Listing, Songs, Voted, Left, PlanOf, Keyed;
    SongListings(2 * n - 3);
    LeftListing(2 * n - 3);
  }

  /** The record of a removal makes the listing before it the one behind it. */
  lemma RemovalPlays(n: nat, late: bool, ordered: bool, i: nat)
    requires 4 <= n && i < n - 4
    ensures var p := PlanOf(n, late, ordered);
            && EditOf(p, i, PROVIDERS) == ItemRemoved(n - i)
            && Edit(ListingAt(p, i, PROVIDERS), ItemRemoved(n - i)) == ListingAt(p, i + 1, PROVIDERS)
  {
    hide Listing, Songs, PlanOf, Edit, RemoveStatement, Keyed;
    SongsAreFine(n - i, n + 1);
    SongsAreFine(n - i - 1, n + 1);
    OneSongLess(n - i, n + 1);
    RemoveDelta(Songs(n - i), n - i, PROVIDERS, n + 1);
  }

  /** A song that is gone is not listed. */
  lemma GoneIsAbsent(n: nat, late: bool, ordered: bool, v: nat, id: nat)
    requires 4 <= n && v <= n - 2 && id > n - v && id > 4
    ensures forall x :: x in ListingAt(PlanOf(n, late, ordered), v, PROVIDERS) ==> x.item.id != id
  {
    assert id !in RoomAt(n, v).items;
    hide Listing, PlanOf, RoomAt, Keyed;
    RoomsAreStamped(n, v);
    AbsentFromListing(RoomAt(n, v), id, PROVIDERS);
  }

  // ---------------------------------------------------------------- its deliveries

  /** Handlers from, ..., to - 1, each record alone. */
  function Alone(from: nat, to: nat): (ds: seq<Delivery>)
    requires from <= to
    ensures |ds| == to - from && forall i :: 0 <= i < |ds| ==> ds[i] == Delivery(from + i, false)
  {
    seq(to - from, i requires 0 <= i < to - from => Delivery(from + i, false))
  }

  lemma {:induction false} PlayConcat(p: Plan, q: seq<Shown>, a: seq<Delivery>, b: seq<Delivery>)
    requires Sized(p) && forall i :: 0 <= i < |a| ==> a[i].handler < |p.changes|
    requires forall i :: 0 <= i < |b| ==> b[i].handler < |p.changes|
    ensures forall i :: 0 <= i < |a + b| ==> (a + b)[i].handler < |p.changes|
    ensures Play(p, q, a + b, PROVIDERS) == Play(p, Play(p, q, a, PROVIDERS), b, PROVIDERS)
    decreases |a|
  {
    hide Played;
    if a == [] {
      assert a + b == b;
    } else {
      assert (a + b)[0] == a[0] && (a + b)[1..] == a[1..] + b;
      assert forall i :: 0 <= i < |a[1..]| ==> a[1..][i] == a[i + 1];
      PlayConcat(p, Played(p, q, a[0], PROVIDERS), a[1..], b);
    }
  }

  lemma PlayOne(p: Plan, q: seq<Shown>, d: Delivery, rest: seq<Delivery>)
    requires Sized(p) && d.handler < |p.changes| && forall i :: 0 <= i < |rest| ==> rest[i].handler < |p.changes|
    ensures forall i :: 0 <= i < |[d] + rest| ==> ([d] + rest)[i].handler < |p.changes|
    ensures Play(p, q, [d] + rest, PROVIDERS) == Play(p, Played(p, q, d, PROVIDERS), rest, PROVIDERS)
    ensures Play(p, q, [], PROVIDERS) == q
  {
    hide Played;
    assert ([d] + rest)[1..] == rest;
  }

  /** Removals that the snapshot holds already change nothing. */
  lemma {:induction false} HeldChangesNothing(n: nat, late: bool, ordered: bool, v: nat, i: nat, j: nat)
    requires 4 <= n && i <= j <= v <= n - 2 && j <= n - 4
    ensures var p := PlanOf(n, late, ordered);
            Play(p, ListingAt(p, v, PROVIDERS), Alone(i, j), PROVIDERS) == ListingAt(p, v, PROVIDERS)
    decreases j - i
  {
    hide PlanOf, ListingAt, Edit;
    var p := PlanOf(n, late, ordered);
    var q := ListingAt(p, v, PROVIDERS);
    if i < j {
      RemovalPlays(n, late, ordered, i);
      GoneIsAbsent(n, late, ordered, v, n - i);
      DropIsEdit(q, n - i);
      assert Alone(i, j) == [Delivery(i, false)] + Alone(i + 1, j);
      PlayOne(p, q, Delivery(i, false), Alone(i + 1, j));
      HeldChangesNothing(n, late, ordered, v, i + 1, j);
    } else {
      assert Alone(i, j) == [];
    }
  }

  lemma DropIsEdit(q: seq<Shown>, id: nat)
    requires forall x :: x in q ==> x.item.id != id
    ensures Edit(q, ItemRemoved(id)) == q
  {
    DropAbsent(q, id);
  }

  /** The last two records: of the vote and of the removal of the first song. */
  function LastTwo(n: nat, ordered: bool): (ds: seq<Delivery>)
    requires 4 <= n
    ensures |ds| == 2 && ds[0].handler < n - 2 && ds[1].handler < n - 2
  {
    if ordered then [Delivery(n - 4, false), Delivery(n - 3, false)]
      else [Delivery(n - 3, false), Delivery(n - 4, false)]
  }

  lemma LastEdits(n: nat, late: bool, ordered: bool)
    requires 4 <= n
    ensures var p := PlanOf(n, late, ordered);
            && EditOf(p, n - 4, PROVIDERS) == ItemUpdated(RAISED, if late && ordered && n >= 6 then 1 else 2)
            && EditOf(p, n - 3, PROVIDERS) == ItemRemoved(1)
  {
    hide ListingAt, PlanOf;
    LastListings(n, late, ordered);
    var p, voted, left := PlanOf(n, late, ordered), [FIRST, SECOND, RAISED, THIRD], [SECOND, RAISED, THIRD];
    assert voted[2] == RAISED && left[1] == RAISED && voted[0] == FIRST && voted[1] == SECOND && left[0] == SECOND;
    assert IsDelta(voted, 4, ItemUpdated(RAISED, 2)) && IsDelta(left, 4, ItemUpdated(RAISED, 1));
    DeltaIsUnique(voted, 4, Place(voted, 4), ItemUpdated(RAISED, 2));
    DeltaIsUnique(left, 4, Place(left, 4), ItemUpdated(RAISED, 1));
  }

  lemma TwoPlayed(n: nat, late: bool, ordered: bool, q: seq<Shown>)
    requires 4 <= n
    ensures var p := PlanOf(n, late, ordered);
            var vote, removal := EditOf(p, n - 4, PROVIDERS), EditOf(p, n - 3, PROVIDERS);
            Play(p, q, LastTwo(n, ordered), PROVIDERS) ==
              if ordered then Edit(Edit(q, vote), removal) else Edit(Edit(q, removal), vote)
  {
    hide PlanOf, EditOf, Edit;
    var p := PlanOf(n, late, ordered);
    var a, b := LastTwo(n, ordered)[0], LastTwo(n, ordered)[1];
    var w := Played(p, q, a, PROVIDERS);
    PlayOne(p, q, a, [b]);
    PlayOne(p, w, b, []);
    PlayOne(p, Played(p, w, b, PROVIDERS), b, []);
    assert [a] + [b] == LastTwo(n, ordered) && [b] + [] == [b];
  }

  /** Read late, the vote's record puts the fourth song before the second. */
  lemma LateEdits()
    ensures Edit([FIRST, SECOND, THIRD, FOURTH], ItemUpdated(RAISED, 1)) == [FIRST] + [RAISED, SECOND, THIRD]
    ensures Edit([FIRST] + [RAISED, SECOND, THIRD], ItemRemoved(1)) == [RAISED, SECOND, THIRD]
  {
    DropFourth([FIRST, SECOND, THIRD]);
    assert [FIRST, SECOND, THIRD] + [FOURTH] == [FIRST, SECOND, THIRD, FOURTH];
    assert InsertAt([FIRST, SECOND, THIRD], 1, RAISED) == [FIRST] + [RAISED, SECOND, THIRD];
    DropFirst([RAISED, SECOND, THIRD]);
  }

  /** Behind the removal, it puts the fourth song behind the third. */
  lemma SwappedEdits()
    ensures Edit([FIRST, SECOND, THIRD, FOURTH], ItemRemoved(1)) == [SECOND, THIRD, FOURTH]
    ensures Edit([SECOND, THIRD, FOURTH], ItemUpdated(RAISED, 2)) == [SECOND, THIRD, RAISED]
  {
    DropFirst([SECOND, THIRD, FOURTH]);
    assert [FIRST, SECOND, THIRD, FOURTH] == [FIRST] + [SECOND, THIRD, FOURTH];
    DropFourth([SECOND, THIRD]);
    assert [SECOND, THIRD] + [FOURTH] == [SECOND, THIRD, FOURTH];
    assert InsertAt([SECOND, THIRD], 2, RAISED) == [SECOND, THIRD, RAISED];
  }

  /** So it does over a snapshot that holds both already. */
  lemma HeldEdits()
    ensures Edit([SECOND, RAISED, THIRD], ItemUpdated(RAISED, 2)) == [SECOND, THIRD, RAISED]
    ensures Edit([SECOND, THIRD, RAISED], ItemRemoved(1)) == [SECOND, THIRD, RAISED]
  {
    var q := [SECOND, RAISED, THIRD];
    assert q[1..] == [RAISED, THIRD] && q[1..][1..] == [THIRD];
    DropAbsent([THIRD], 4);
    assert Drop([RAISED, THIRD], 4) == [THIRD] && Drop(q, 4) == [SECOND] + [THIRD] == [SECOND, THIRD];
    assert InsertAt([SECOND, THIRD], 2, RAISED) == [SECOND, THIRD, RAISED];
    DropIsEdit([SECOND, THIRD, RAISED], 1);
  }

  lemma {:induction false} DropFourth(front: seq<Shown>)
    requires forall x :: x in front ==> x.item.id != 4
    ensures Drop(front + [FOURTH], 4) == front
  {
    DropLast(front, FOURTH);
  }

  lemma WrongOrders()
    ensures [RAISED, SECOND, THIRD] != [SECOND, RAISED, THIRD] && [SECOND, THIRD, RAISED] != [SECOND, RAISED, THIRD]
  {
    assert [RAISED, SECOND, THIRD][0] == RAISED && [SECOND, RAISED, THIRD][0] == SECOND;
    assert [SECOND, THIRD, RAISED][1] == THIRD && [SECOND, RAISED, THIRD][1] == RAISED;
  }

  // ---------------------------------------------------------------- the traits of its runs

  lemma {:induction false} NoneStays(slots: seq<Slot>)
    requires !AnyWhole(slots)
    ensures Track(None, slots) == None
    decreases |slots|
  {
    if slots != [] {
      assert !slots[0].whole;
      assert forall i :: 0 <= i < |slots[1..]| ==> slots[1..][i] == slots[i + 1];
      NoneStays(slots[1..]);
    }
  }

  lemma {:induction false} TrackConcat(shown: Option<nat>, a: seq<Slot>, b: seq<Slot>)
    ensures Track(shown, a + b) == Track(Track(shown, a), b)
    decreases |a|
  {
    if a == [] {
      assert a + b == b;
    } else {
      assert (a + b)[0] == a[0] && (a + b)[1..] == a[1..] + b;
      TrackConcat(Next(shown, a[0]), a[1..], b);
    }
  }

  lemma TrackTwo(shown: Option<nat>, x: Slot, y: Slot)
    ensures Track(shown, [x, y]) == Next(Next(shown, x), y)
  {
    hide Next;
    assert [x, y][1..] == [y] && [y][1..] == [];
    assert Track(Next(shown, x), [y]) == Track(Next(Next(shown, x), y), []);
  }

  /** Two lone last records, the first one late or the two swapped: nothing is known at the end. */
  lemma LastTwoUnsettle(slots: seq<Slot>, stores: nat)
    requires |slots| >= 2 && stores >= 2 && !slots[|slots| - 2].whole && !slots[|slots| - 1].whole
    requires slots[|slots| - 2].readAt != slots[|slots| - 2].storedAt + 1 ||
             (slots[|slots| - 2] == Slot(stores - 1, stores, false)
               && slots[|slots| - 1] == Slot(stores - 2, stores - 1, false))
    ensures !Settled(slots, stores)
  {
    var front, x, y := slots[..|slots| - 2], slots[|slots| - 2], slots[|slots| - 1];
    assert slots == front + [x, y];
    TrackConcat(None, front, [x, y]);
    TrackTwo(Track(None, front), x, y);
  }

  /** The first k removals, taken alone; the removal of the sixth song, taken whole or alone; that of the fifth,
      alone; and the last two. The m removals in between are never published. */
  function Deliveries(k: nat, m: nat, whole: bool, ordered: bool): (ds: seq<Delivery>)
    ensures |ds| == k + 4 && (forall i :: 0 <= i < k ==> ds[i] == Delivery(i, false))
    ensures ds[k] == Delivery(k + m, whole) && ds[k + 1] == Delivery(k + m + 1, false)
    ensures ds[k + 2] == LastTwo(k + m + 6, ordered)[0] && ds[k + 3] == LastTwo(k + m + 6, ordered)[1]
    ensures forall i :: 0 <= i < |ds| ==> ds[i].handler < k + m + 4
  {
    Alone(0, k) + ([Delivery(k + m, whole)] + ([Delivery(k + m + 1, false)] + LastTwo(k + m + 6, ordered)))
  }

  lemma DeliveriesAreDue(k: nat, m: nat, whole: bool, late: bool, ordered: bool)
    ensures Deliverable(PlanOf(k + m + 6, late, ordered), Deliveries(k, m, whole, ordered))
  {
    hide PlanOf, Deliveries;
  }

  predicate AreDelivered(slots: seq<Slot>, k: nat, m: nat, whole: bool, late: bool, ordered: bool)
  {
    var n := k + m;
    && |slots| == k + 4 && (forall i :: 0 <= i < k ==> slots[i] == Slot(i, i + 1, false))
    && slots[k] == Slot(n, n + 1, whole)
    && slots[k + 1] == Slot(n + 1, if late && !ordered then n + 3 else n + 2, false)
    && slots[k + 2] == (if ordered then Slot(n + 2, if late then n + 4 else n + 3, false)
       else Slot(n + 3, n + 4, false))
    && slots[k + 3] == (if ordered then Slot(n + 3, n + 4, false) else Slot(n + 2, n + 3, false))
  }

  lemma DeliveredSlots(k: nat, m: nat, whole: bool, late: bool, ordered: bool)
    ensures AreDelivered(SlotsOf(PlanOf(k + m + 6, late, ordered), Deliveries(k, m, whole, ordered)), k, m, whole, late,
            ordered)
  {
    hide PlanOf, Deliveries, SlotsOf;
    DeliveriesAreDue(k, m, whole, late, ordered);
  }

  lemma TellWhole(slots: seq<Slot>, k: nat, m: nat, whole: bool, late: bool, ordered: bool)
    requires AreDelivered(slots, k, m, whole, late, ordered)
    ensures AnyWhole(slots) == whole
  {
    assert slots[k].whole == whole;
    forall i | 0 <= i < |slots| ensures i != k ==> !slots[i].whole {}
  }

  lemma TellLate(slots: seq<Slot>, k: nat, m: nat, whole: bool, late: bool, ordered: bool)
    requires AreDelivered(slots, k, m, whole, late, ordered)
    ensures AnyLate(slots) == late
  {
    var i := if ordered then k + 2 else k + 1;
    assert slots[i].readAt == slots[i].storedAt + if late then 2 else 1;
    forall j | 0 <= j < |slots| ensures j != i ==> slots[j].readAt == slots[j].storedAt + 1 {}
  }

  lemma TellOrdered(slots: seq<Slot>, k: nat, m: nat, whole: bool, late: bool, ordered: bool)
    requires AreDelivered(slots, k, m, whole, late, ordered) && (k == 0 || m == 0)
    ensures Ordered(slots, k + m + 4) == ordered
  {
    assert slots[k + 2].storedAt == if ordered then k + m + 2 else k + m + 3;
    if ordered {
      forall i | 0 <= i < |slots| ensures slots[i].storedAt == m + i {}
    }
  }

  lemma TellSettled(slots: seq<Slot>, k: nat, m: nat, whole: bool, late: bool, ordered: bool)
    requires AreDelivered(slots, k, m, whole, late, ordered)
    ensures late || !ordered || !whole ==> !Settled(slots, k + m + 4)
  {
    TellWhole(slots, k, m, whole, late, ordered);
    hide Track, AnyWhole;
    if !whole {
      NoneStays(slots);
    } else if late || !ordered {
      LastTwoUnsettle(slots, k + m + 4);
    }
  }

  lemma DeliveriesTell(k: nat, m: nat, whole: bool, late: bool, ordered: bool)
    requires k == 0 || m == 0
    ensures Deliverable(PlanOf(k + m + 6, late, ordered), Deliveries(k, m, whole, ordered))
    ensures var slots := SlotsOf(PlanOf(k + m + 6, late, ordered), Deliveries(k, m, whole, ordered));
            && |slots| == k + 4 && AnyWhole(slots) == whole && AnyLate(slots) == late
            && Ordered(slots, k + m + 4) == ordered && (late || !ordered || !whole ==> !Settled(slots, k + m + 4))
  {
    hide PlanOf, Deliveries, SlotsOf, Deliverable, AreDelivered, AnyWhole, AnyLate, Ordered, Settled;
    DeliveriesAreDue(k, m, whole, late, ordered);
    DeliveredSlots(k, m, whole, late, ordered);
    var slots := SlotsOf(PlanOf(k + m + 6, late, ordered), Deliveries(k, m, whole, ordered));
    TellWhole(slots, k, m, whole, late, ordered);
    TellLate(slots, k, m, whole, late, ordered);
    TellOrdered(slots, k, m, whole, late, ordered);
    TellSettled(slots, k, m, whole, late, ordered);
  }

  // ---------------------------------------------------------------- what its clients show

  ghost predicate Holds(q: seq<Shown>, id: nat)
  {
    exists i :: 0 <= i < |q| && q[i].item.id == id
  }

  lemma {:induction false} DropHolds(q: seq<Shown>, id: nat, other: nat)
    requires Holds(q, id) && id != other
    ensures Holds(Drop(q, other), id)
  {
    var i :| 0 <= i < |q| && q[i].item.id == id;
    var rest := Drop(q[1..], other);
    if i > 0 {
      assert q[1..][i - 1].item.id == id;
      DropHolds(q[1..], id, other);
      var j :| 0 <= j < |rest| && rest[j].item.id == id;
      assert ([q[0]] + rest)[j + 1] == rest[j];
    } else {
      assert Drop(q, other) == [q[0]] + rest && ([q[0]] + rest)[0] == q[0];
    }
  }

  lemma InsertHolds(q: seq<Shown>, id: nat, position: nat, x: Shown)
    requires Holds(q, id)
    ensures Holds(InsertAt(q, position, x), id)
  {
    var i :| 0 <= i < |q| && q[i].item.id == id;
    var at := if position <= |q| then position else |q|;
    var j := if i < at then i else i + 1;
    assert InsertAt(q, position, x)[j] == q[i];
  }

  /** The records of other songs do not take a song away. */
  lemma OthersHold(q: seq<Shown>, id: nat, position: nat, other: nat)
    requires Holds(q, id) && id != other && id > 4
    ensures Holds(Edit(q, ItemRemoved(other)), id) && Holds(Edit(q, ItemUpdated(RAISED, position)), id)
  {
    DropHolds(q, id, other);
    DropHolds(q, id, 4);
    InsertHolds(Drop(q, 4), id, position, RAISED);
  }

  lemma SongIsListed(n: nat, late: bool, ordered: bool)
    requires 5 <= n
    ensures Holds(ListingAt(PlanOf(n, late, ordered), 0, PROVIDERS), n)
  {
    assert n in Visible(Songs(n), PROVIDERS) && Songs(n).items[n] == Song(n);
    hide Songs, PlanOf, Visible;
    SongsAreFine(n, n + 1);
    var s := Listing(Songs(n), PROVIDERS);
    assert RowOf(Songs(n), n) in Rows(Songs(n), Visible(Songs(n), PROVIDERS)) && RowOf(Songs(n), n) in s;
    var i :| 0 <= i < |s| && s[i] == RowOf(Songs(n), n);
    assert Show(s)[i].item.id == n;
  }

  lemma PlayedAlone(p: Plan, q: seq<Shown>, i: nat)
    requires Sized(p) && i < |p.changes|
    ensures Played(p, q, Delivery(i, false), PROVIDERS) == Edit(q, EditOf(p, i, PROVIDERS))
  {
  }

  lemma FirstPlayed(k: nat, m: nat, whole: bool, late: bool, ordered: bool)
    requires k == 0 || m == 0
    ensures var n := k + m + 6;
            var p, ds := PlanOf(n, late, ordered), Deliveries(k, m, whole, ordered);
            var q := ListingAt(p, k, PROVIDERS);
            var w := Played(p, q, Delivery(k + m, whole), PROVIDERS);
            && Play(p, q, ds, PROVIDERS) ==
                 Play(p, Played(p, w, Delivery(k + m + 1, false), PROVIDERS), LastTwo(n, ordered), PROVIDERS)
  {
    hide PlanOf, ListingAt, Played, Play;
    var n := k + m + 6;
    var p := PlanOf(n, late, ordered);
    var q, a, b := ListingAt(p, k, PROVIDERS), Delivery(k + m, whole), Delivery(k + m + 1, false);
    HeldChangesNothing(n, late, ordered, k, 0, k);
    PlayConcat(p, q, Alone(0, k), [a] + ([b] + LastTwo(n, ordered)));
    PlayOne(p, q, a, [b] + LastTwo(n, ordered));
    PlayOne(p, Played(p, q, a, PROVIDERS), b, LastTwo(n, ordered));
  }

  /** With every record published, or one taken whole, the client has the four songs in order before the last two. */
  lemma ThenFourSongs(k: nat, m: nat, whole: bool, late: bool, ordered: bool)
    requires m == 0 || (k == 0 && whole)
    ensures var n := k + m + 6; var p := PlanOf(n, late, ordered);
      var w := Played(p, ListingAt(p, k, PROVIDERS), Delivery(k + m, whole), PROVIDERS);
      Played(p, w, Delivery(k + m + 1, false), PROVIDERS) == [FIRST, SECOND, THIRD, FOURTH]
  {
    hide PlanOf, ListingAt, Edit;
    var n := k + m + 6;
    RemovalPlays(n, late, ordered, k + m);
    RemovalPlays(n, late, ordered, k + m + 1);
    LastListings(n, late, ordered);
  }

  lemma OverlapIsWrong(k: nat, m: nat, whole: bool, late: bool, ordered: bool)
    requires (m == 0 || (k == 0 && whole)) && (late || !ordered)
    ensures var p, ds := PlanOf(k + m + 6, late, ordered), Deliveries(k, m, whole, ordered);
            && Play(p, ListingAt(p, k, PROVIDERS), ds, PROVIDERS) != [SECOND, RAISED, THIRD]
  {
    hide PlanOf, ListingAt, Played, Play, Edit, Deliveries;
    FirstPlayed(k, m, whole, late, ordered);
    ThenFourSongs(k, m, whole, late, ordered);
    TwoPlayed(k + m + 6, late, ordered, [FIRST, SECOND, THIRD, FOURTH]);
    LastEdits(k + m + 6, late, ordered);
    LateEdits();
    SwappedEdits();
    WrongOrders();
  }

  /** A removal that is never published, with nothing taken whole, leaves its song with the client. */
  lemma LostIsWrong(m: nat, late: bool, ordered: bool)
    requires m > 0
    ensures var p, ds := PlanOf(m + 6, late, ordered), Deliveries(0, m, false, ordered);
            && Play(p, ListingAt(p, 0, PROVIDERS), ds, PROVIDERS) != [SECOND, RAISED, THIRD]
  {
    hide PlanOf, ListingAt, Played, Play, Edit, Deliveries, Holds;
    var n := m + 6;
    var p := PlanOf(n, late, ordered);
    var q := ListingAt(p, 0, PROVIDERS);
    FirstPlayed(0, m, false, late, ordered);
    SongIsListed(n, late, ordered);
    RemovalPlays(n, late, ordered, m);
    RemovalPlays(n, late, ordered, m + 1);
    PlayedAlone(p, q, m);
    var w := Edit(q, ItemRemoved(6));
    PlayedAlone(p, w, m + 1);
    var x := Edit(w, ItemRemoved(5));
    OthersHold(q, n, 0, 6);
    OthersHold(w, n, 0, 5);
    TwoPlayed(n, late, ordered, x);
    LastEdits(n, late, ordered);
    LastTwoHold(x, n, if late && ordered then 1 else 2);
    FinalHoldsNot(n);
  }

  lemma LastTwoHold(q: seq<Shown>, id: nat, position: nat)
    requires Holds(q, id) && id > 4
    ensures Holds(Edit(Edit(q, ItemUpdated(RAISED, position)), ItemRemoved(1)), id)
    ensures Holds(Edit(Edit(q, ItemRemoved(1)), ItemUpdated(RAISED, position)), id)
  {
    hide Edit, Holds;
    OthersHold(q, id, position, 1);
    OthersHold(Edit(q, ItemUpdated(RAISED, position)), id, position, 1);
    OthersHold(Edit(q, ItemRemoved(1)), id, position, 1);
  }

  lemma FinalHoldsNot(id: nat)
    requires id > 4
    ensures !Holds([SECOND, RAISED, THIRD], id)
  {
    var q := [SECOND, RAISED, THIRD];
    assert q[0] == SECOND && q[1] == RAISED && q[2] == THIRD;
  }

  // ---------------------------------------------------------------- the runs that go wrong

  /** A run of the plan that ends with another order than the stored one. */
  lemma WrongRun(n: nat, k: nat, late: bool, ordered: bool, ds: seq<Delivery>, traits: Traits)
    requires 4 <= n && k <= n - 2 && Deliverable(PlanOf(n, late, ordered), ds)
    requires var p := PlanOf(n, late, ordered); var slots := SlotsOf(p, ds);
      && Play(p, ListingAt(p, k, PROVIDERS), ds, PROVIDERS) != [SECOND, RAISED, THIRD]
      && traits == Traits(k - (n - 2 - |slots|), AnyWhole(slots), AnyLate(slots), Ordered(slots, n - 2),
         Settled(slots, n - 2))
    ensures !AlwaysShows(traits)
  {
    hide PlanOf, Play, SlotsOf, LiveQueue.Run, CaughtUp, Listing, Songs, Left, Schedule, Fold, Script, AnyWhole,
         AnyLate, Ordered, Settled, Stamped, QueueInvariant.Inv, Valid;
    PlanIsValid(n, late, ordered);
    var p := PlanOf(n, late, ordered);
    SongsAreFine(n, n + 1);
    LeftListing(2 * n - 3);
    var end := PlayedOut(p, k, ds, PROVIDERS);
    assert p.rooms[0] == Songs(n) && p.rooms[n - 2] == Left(2 * n - 3);
    assert TraitsOf(end) == traits && !Shows(end, PROVIDERS);
    assert CaughtUp(LiveQueue.Run(Start(Songs(n), n + 1, PROVIDERS), Script(p, k, ds, PROVIDERS), READ_COUNT,
           PROVIDERS));
  }

  lemma OverlapAt(k: nat, m: nat, traits: Traits)
    requires (k == 0 || m == 0) && traits.ahead == k - m && !traits.settled && (traits.late || !traits.ordered)
    ensures !AlwaysShows(traits)
  {
    hide PlanOf, Play, SlotsOf, Deliveries, AnyWhole, AnyLate, Ordered, Settled, AlwaysShows, Deliverable, ListingAt;
    DeliveriesTell(k, m, traits.whole, traits.late, traits.ordered);
    if m == 0 || traits.whole {
      OverlapIsWrong(k, m, traits.whole, traits.late, traits.ordered);
    } else {
      LostIsWrong(m, traits.late, traits.ordered);
    }
    WrongRun(k + m + 6, k, traits.late, traits.ordered, Deliveries(k, m, traits.whole, traits.ordered), traits);
  }

  /** A handler reads its listing behind another statement, or two handlers append in the other order. */
  lemma OverlapDiverges(traits: Traits)
    requires !traits.settled && (traits.late || !traits.ordered)
    ensures !AlwaysShows(traits)
  {
    hide AlwaysShows;
    if traits.ahead >= 0 { OverlapAt(traits.ahead, 0, traits); } else { OverlapAt(0, -traits.ahead, traits); }
  }

  /** A record is missing, and nothing is taken whole. */
  lemma MissingDiverges(traits: Traits)
    requires traits.ahead < 0 && !traits.whole && !traits.late && traits.ordered && !traits.settled
    ensures !AlwaysShows(traits)
  {
    hide PlanOf, Play, SlotsOf, Deliveries, AnyWhole, AnyLate, Ordered, Settled, AlwaysShows, Deliverable, ListingAt;
    var m := -traits.ahead;
    DeliveriesTell(0, m, false, false, true);
    LostIsWrong(m, false, true);
    WrongRun(m + 6, 0, false, true, Deliveries(0, m, false, true), traits);
  }

  lemma AllInOrder(n: nat)
    requires 4 <= n
    ensures Deliverable(PlanOf(n, false, true), Alone(0, n - 2))
            && Alone(0, n - 2) == Alone(0, n - 4) + LastTwo(n, true)
    ensures var slots := SlotsOf(PlanOf(n, false, true), Alone(0, n - 2));
            && |slots| == n - 2 && !AnyWhole(slots) && !AnyLate(slots) && Ordered(slots, n - 2)
               && !Settled(slots, n - 2)
  {
    hide PlanOf, SlotsOf, Track;
    var slots := SlotsOf(PlanOf(n, false, true), Alone(0, n - 2));
    NoneStays(slots);
  }

  /** Everything is in order, but the snapshot is two or more updates ahead and nothing is taken whole. */
  lemma AheadDiverges(traits: Traits)
    requires traits.ahead >= 2 && !traits.whole && !traits.late && traits.ordered && !traits.settled
    ensures !AlwaysShows(traits)
  {
    hide PlanOf, Play, Played, SlotsOf, AnyWhole, AnyLate, Ordered, Settled, AlwaysShows, ListingAt, Edit;
    var n := traits.ahead + 2;
    var p := PlanOf(n, false, true);
    var q := ListingAt(p, n - 2, PROVIDERS);
    AllInOrder(n);
    HeldChangesNothing(n, false, true, n - 2, 0, n - 4);
    PlayConcat(p, q, Alone(0, n - 4), LastTwo(n, true));
    LastListings(n, false, true);
    TwoPlayed(n, false, true, q);
    LastEdits(n, false, true);
    HeldEdits();
    WrongOrders();
    WrongRun(n, n - 2, false, true, Alone(0, n - 2), traits);
  }

  /** Over all runs of handlers, appenders and a connection, with anything read late, appended out of order,
      missing or trimmed: a client is sure to end in the stored order if and only if its records settle it, or
      none was read late or appended out of order and either the snapshot was at most one update ahead or one was
      delivered whole. */
  lemma ShowsIff(traits: Traits)
    ensures AlwaysShows(traits) <==> Safe(traits)
  {
    if Safe(traits) {
      forall room, now, actions, readCount, enabled | Stamped(room, now) && QueueInvariant.Inv(room)
        ensures var end := LiveQueue.Run(Start(room, now, enabled), actions, readCount, enabled);
                CaughtUp(end) && TraitsOf(end) == traits ==> Shows(end, enabled)
      {
        var end := LiveQueue.Run(Start(room, now, enabled), actions, readCount, enabled);
        hide LiveQueue.Run, CaughtUp, TraitsOf, Listing, Fold, Keyed, QueueInvariant.Inv;
        if CaughtUp(end) && TraitsOf(end) == traits { SafeShows(room, now, actions, readCount, enabled); }
      }
    } else if traits.late || !traits.ordered {
      OverlapDiverges(traits);
    } else if traits.ahead < 0 {
      MissingDiverges(traits);
    } else {
      AheadDiverges(traits);
    }
  }
}
