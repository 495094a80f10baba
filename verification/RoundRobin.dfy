/** Without remove-on-play, advancing rotates the queue: every item gets its turn. */
module RoundRobin {
  import opened Wrappers
  import opened QueueOrder
  import opened RoomQueue
  import opened QueueDeltas

  /** The playable items in queue order. */
  ghost function Turns(r: Room, enabled: set<Source>): (s: seq<Row>)
    requires Keyed(r)
    ensures Lists(s, Rows(r, Playable(r, enabled)))
  {
    KeyedRowsHaveNoTies(r, Playable(r, enabled));
    Order(Rows(r, Playable(r, enabled)))
  }

  function Ids(s: seq<Row>): (ids: seq<nat>)
    ensures |ids| == |s| && forall i :: 0 <= i < |s| ==> ids[i] == s[i].item.id
  {
    seq(|s|, (i: int) requires 0 <= i < |s| => s[i].item.id)
  }

  /** The order in which the items will be played: the others as queued, the playing item last. */
  ghost function Cycle(r: Room, enabled: set<Source>): seq<nat>
    requires Keyed(r) && r.playback.current.Some?
  {
    Ids(Without(Turns(r, enabled), r.playback.current.value)) + [r.playback.current.value]
  }

  /** The items played by advances at the given times. */
  ghost function Played(r: Room, times: seq<int>, enabled: set<Source>): seq<Option<nat>>
    requires Clock(r, times)
    decreases |times|
  {
    if times == [] then []
    else
      var s := AdvanceStatement(r, false, times[0], enabled);
      [s.playback.current] + Played(s, times[1..], enabled)
  }

  ghost predicate Clock(r: Room, times: seq<int>)
  {
    && Keyed(r)
    && (forall i, j :: 0 <= i < j < |times| ==> times[i] < times[j])
    && (times != [] ==> Stamped(r, times[0]))
  }

  ghost predicate PlaysEligible(r: Room, enabled: set<Source>)
  {
    r.playback.current.Some? && r.playback.current.value in Playable(r, enabled)
  }

  /** One advance: the playing item goes behind all others and the head plays. */
  lemma AdvanceRotates(r: Room, now: int, enabled: set<Source>)
    requires Stamped(r, now) && PlaysEligible(r, enabled)
    ensures var s := AdvanceStatement(r, false, now, enabled);
            && PlaysEligible(s, enabled) && Playable(s, enabled) == Playable(r, enabled)
            && Ids(Turns(s, enabled)) == Cycle(r, enabled)
            && s.playback.current == Some(Cycle(r, enabled)[0])
  {
    var c := r.playback.current.value;
    var s := AdvanceStatement(r, false, now, enabled);
    StatementRefinesProcedure(r, false, now, enabled);
    SettledRows(r, false, now, enabled);
    var ids := Playable(s, enabled);
    SettledTurns(r, s, now, enabled);
    assert Rows(s, ids) == Rows(Settled(r, false, now), Playable(Settled(r, false, now), enabled));
    var q := Turns(s, enabled);
    assert RowOf(s, c) in Rows(s, ids) && q[0] in q;
    assert First(Rows(s, ids)) == q[0];
  }

  lemma SettledTurns(r: Room, s: Room, now: int, enabled: set<Source>)
    requires Stamped(r, now) && PlaysEligible(r, enabled)
    requires Keyed(s) && s == Settled(r, false, now).(playback := s.playback)
    ensures Playable(s, enabled) == Playable(r, enabled)
    ensures Ids(Turns(s, enabled)) == Cycle(r, enabled)
  {
    var c := r.playback.current.value;
    assert Playable(s, enabled) == Playable(r, enabled);
    assert r.items - {c} == s.items - {c};
    NewestUnvotedIsLast(s, Playable(s, enabled), c);
    SameTurnsOfOthers(r, s, c, enabled);
    var front := Order(Rows(s, Playable(s, enabled) - {c}));
    WithoutLast(front, RowOf(s, c));
    IdsOfLast(front, RowOf(s, c));
  }

  lemma SameTurnsOfOthers(r: Room, s: Room, c: nat, enabled: set<Source>)
    requires Keyed(r) && Keyed(s) && SameBut(r, s, c)
    ensures Without(Turns(r, enabled), c) == Without(Turns(s, enabled), c)
  {
    var rows, rows' := Rows(r, Playable(r, enabled)), Rows(s, Playable(s, enabled));
    OtherIds(r, s, c, enabled);
    OtherRows(r, Playable(r, enabled), s, Playable(s, enabled), c);
    WithoutLists(Turns(r, enabled), rows, c);
    WithoutLists(Turns(s, enabled), rows', c);
    OrderIsUnique(Without(Turns(r, enabled), c), Without(Turns(s, enabled), c), set x | x in rows && x.item.id != c);
  }

  lemma IdsOfLast(s: seq<Row>, x: Row)
    ensures Ids(s + [x]) == Ids(s) + [x.item.id]
  {
  }

  lemma {:induction false} WithoutLast(s: seq<Row>, x: Row)
    requires forall y :: y in s ==> y.item.id != x.item.id
    ensures Without(s + [x], x.item.id) == s
  {
    if s != [] {
      assert (s + [x])[1..] == s[1..] + [x];
      WithoutLast(s[1..], x);
    }
  }

  function Rotated(q: seq<nat>): (t: seq<nat>)
    requires q != []
    ensures |t| == |q|
  {
    q[1..] + [q[0]]
  }

  /** The i-th turn when q is gone through again and again. */
  function Turn(q: seq<nat>, i: nat): nat
    requires q != []
  {
    if i < |q| then q[i] else Turn(q, i - |q|)
  }

  lemma {:induction false} TurnOfRotated(q: seq<nat>, i: nat)
    requires q != []
    ensures Turn(Rotated(q), i) == Turn(q, i + 1)
  {
    if i >= |q| { TurnOfRotated(q, i - |q|); }
  }

  lemma TurnsHaveDistinctIds(r: Room, enabled: set<Source>)
    requires Keyed(r)
    ensures forall i, j :: 0 <= i < j < |Turns(r, enabled)| ==> Ids(Turns(r, enabled))[i] != Ids(Turns(r, enabled))[j]
  {
    var s := Turns(r, enabled);
    forall i, j | 0 <= i < j < |s| ensures s[i].item.id != s[j].item.id {
      assert s[i] in s && s[j] in s && Before(s[i], s[j]);
    }
  }

  lemma {:induction false} WithoutAbsent(s: seq<Row>, id: nat)
    requires forall y :: y in s ==> y.item.id != id
    ensures Without(s, id) == s
  {
    if s != [] { WithoutAbsent(s[1..], id); }
  }

  ghost predicate HeadPlays(r: Room, enabled: set<Source>)
    requires Keyed(r)
  {
    PlaysEligible(r, enabled) && Turns(r, enabled) != [] && r.playback.current == Some(Ids(Turns(r, enabled))[0])
  }

  lemma CycleFromHead(r: Room, enabled: set<Source>)
    requires Keyed(r) && HeadPlays(r, enabled)
    ensures Cycle(r, enabled) == Rotated(Ids(Turns(r, enabled)))
  {
    var s := Turns(r, enabled);
    TurnsHaveDistinctIds(r, enabled);
    forall y | y in s[1..] ensures y.item.id != s[0].item.id {
      var i :| 0 <= i < |s[1..]| && s[1..][i] == y;
      assert Ids(s)[0] != Ids(s)[i + 1];
    }
    WithoutAbsent(s[1..], s[0].item.id);
    assert Ids(s[1..]) == Ids(s)[1..];
  }

  lemma AdvanceKeepsHead(r: Room, now: int, enabled: set<Source>)
    requires Stamped(r, now) && PlaysEligible(r, enabled)
    ensures HeadPlays(AdvanceStatement(r, false, now, enabled), enabled)
  {
    AdvanceRotates(r, now, enabled);
  }

  lemma ClockTail(r: Room, times: seq<int>, enabled: set<Source>)
    requires Clock(r, times) && times != []
    ensures Clock(AdvanceStatement(r, false, times[0], enabled), times[1..])
  {
  }

  lemma AdvanceFromHead(r: Room, now: int, enabled: set<Source>)
    requires Stamped(r, now) && HeadPlays(r, enabled)
    ensures var s, q := AdvanceStatement(r, false, now, enabled), Ids(Turns(r, enabled));
            HeadPlays(s, enabled) && Ids(Turns(s, enabled)) == Rotated(q) && s.playback.current == Some(Turn(q, 1))
  {
    AdvanceRotates(r, now, enabled);
    AdvanceKeepsHead(r, now, enabled);
    CycleFromHead(r, enabled);
    TurnOfRotated(Ids(Turns(r, enabled)), 0);
  }

  lemma OneTurnOn(first: Option<nat>, rest: seq<Option<nat>>, q: seq<nat>)
    requires q != [] && first == Some(Turn(q, 1))
    requires forall i :: 0 <= i < |rest| ==> rest[i] == Some(Turn(Rotated(q), i + 1))
    ensures forall i :: 0 <= i < |[first] + rest| ==> ([first] + rest)[i] == Some(Turn(q, i + 1))
  {
    forall i | 0 <= i < |rest| ensures rest[i] == Some(Turn(q, i + 2)) {
      TurnOfRotated(q, i + 1);
    }
  }

  /** When the head is playing, the items follow one another around the queue q. */
  lemma {:induction false} PlayedFromHead(r: Room, times: seq<int>, enabled: set<Source>, q: seq<nat>)
    requires Clock(r, times) && HeadPlays(r, enabled) && q == Ids(Turns(r, enabled))
    ensures |Played(r, times, enabled)| == |times|
    ensures forall i :: 0 <= i < |times| ==> Played(r, times, enabled)[i] == Some(Turn(q, i + 1))
    decreases |times|
  {
    if times != [] {
      var s := AdvanceStatement(r, false, times[0], enabled);
      AdvanceFromHead(r, times[0], enabled);
      ClockTail(r, times, enabled);
      var p := Played(s, times[1..], enabled);
      assert Played(r, times, enabled) == [s.playback.current] + p;
      hide *;
      PlayedFromHead(s, times[1..], enabled, Rotated(q));
      OneTurnOn(s.playback.current, p, q);
    }
  }

  /** Any number of advances plays the items cyclically: the others as queued, then the one that was playing. */
  lemma PlayedCyclically(r: Room, times: seq<int>, enabled: set<Source>)
    requires Clock(r, times) && PlaysEligible(r, enabled)
    ensures |Played(r, times, enabled)| == |times|
    ensures forall i :: 0 <= i < |times| ==>
              Played(r, times, enabled)[i] == Some(Turn(Cycle(r, enabled), i))
  {
    hide AdvanceStatement, Stamped;
    if times != [] {
      var q, s := Cycle(r, enabled), AdvanceStatement(r, false, times[0], enabled);
      AdvanceRotates(r, times[0], enabled);
      AdvanceKeepsHead(r, times[0], enabled);
      ClockTail(r, times, enabled);
      PlayedFromHead(s, times[1..], enabled, q);
      var p := Played(s, times[1..], enabled);
      assert Played(r, times, enabled) == [s.playback.current] + p;
      assert forall i :: 0 <= i < |p| ==> p[i] == Some(Turn(q, i + 1));
    }
  }

  lemma CycleHolds(r: Room, enabled: set<Source>, id: nat)
    requires Keyed(r) && PlaysEligible(r, enabled)
    ensures id in Cycle(r, enabled) <==> id in Playable(r, enabled)
  {
    var s, c, ids := Turns(r, enabled), r.playback.current.value, Playable(r, enabled);
    hide Turns, Playable, LastVote, VotesFor, Sorted, Without;
    var w, q := Without(s, c), Cycle(r, enabled);
    WithoutLists(s, Rows(r, ids), c);
    assert q[|w|] == c;
    if id in q && id != c {
      var i :| 0 <= i < |w| && Ids(w)[i] == id;
      assert w[i] in w && w[i] in Rows(r, ids);
    }
    if id in ids && id != c {
      assert RowOf(r, id) in Rows(r, ids) && RowOf(r, id) in w;
      var i :| 0 <= i < |w| && w[i] == RowOf(r, id);
      assert q[i] == id;
    }
  }

  lemma CycleIsDistinct(r: Room, enabled: set<Source>, i: nat, j: nat)
    requires Keyed(r) && PlaysEligible(r, enabled) && i < j < |Cycle(r, enabled)|
    ensures Cycle(r, enabled)[i] != Cycle(r, enabled)[j]
  {
    var s, c, ids := Turns(r, enabled), r.playback.current.value, Playable(r, enabled);
    hide Turns, Playable, LastVote, VotesFor, Without;
    var w := Without(s, c);
    WithoutLists(s, Rows(r, ids), c);
    assert w[i] in w;
    if j < |w| { assert w[j] in w && Before(w[i], w[j]); }
  }

  /** The cycle holds every playable item once. */
  lemma CycleIsFair(r: Room, enabled: set<Source>)
    requires Keyed(r) && PlaysEligible(r, enabled)
    ensures |Cycle(r, enabled)| == |Playable(r, enabled)|
    ensures forall id :: id in Cycle(r, enabled) <==> id in Playable(r, enabled)
    ensures forall i, j :: 0 <= i < j < |Cycle(r, enabled)| ==> Cycle(r, enabled)[i] != Cycle(r, enabled)[j]
  {
    hide Cycle, Playable, Keyed;
    forall id ensures id in Cycle(r, enabled) <==> id in Playable(r, enabled) { CycleHolds(r, enabled, id); }
    forall i, j | 0 <= i < j < |Cycle(r, enabled)| ensures Cycle(r, enabled)[i] != Cycle(r, enabled)[j] {
      CycleIsDistinct(r, enabled, i, j);
    }
    DistinctSize(Cycle(r, enabled), Playable(r, enabled));
  }

  lemma {:induction false} DistinctSize(q: seq<nat>, ids: set<nat>)
    requires forall i, j :: 0 <= i < j < |q| ==> q[i] != q[j]
    requires forall id :: id in q <==> id in ids
    ensures |q| == |ids|
  {
    if q == [] {
      assert ids == {};
    } else {
      var last := q[|q| - 1];
      var front := q[..|q| - 1];
      assert last in ids;
      forall id ensures id in front <==> id in ids - {last} {
        if id in front { var i :| 0 <= i < |front| && front[i] == id; assert q[i] == id; }
        if id in ids - {last} { var i :| 0 <= i < |q| && q[i] == id; assert front[i] == id; }
      }
      DistinctSize(front, ids - {last});
    }
  }

  /** N advances over N eligible items play every one of them exactly once. */
  lemma EveryItemOnce(r: Room, times: seq<int>, enabled: set<Source>)
    requires Clock(r, times) && PlaysEligible(r, enabled) && |times| == |Playable(r, enabled)|
    ensures var played := Played(r, times, enabled);
            && |played| == |times|
            && (forall id :: id in Playable(r, enabled) <==> Some(id) in played)
            && (forall i, j :: 0 <= i < j < |played| ==> played[i] != played[j])
  {
    var played, q := Played(r, times, enabled), Cycle(r, enabled);
    PlayedCyclically(r, times, enabled);
    CycleIsFair(r, enabled);
    assert forall i :: 0 <= i < |played| ==> played[i] == Some(q[i]);
    forall id ensures id in Playable(r, enabled) <==> Some(id) in played {
      if id in q { var i :| 0 <= i < |q| && q[i] == id; assert played[i] == Some(id); }
      if Some(id) in played { var i :| 0 <= i < |played| && played[i] == Some(id); assert q[i] == id; }
    }
  }
}
