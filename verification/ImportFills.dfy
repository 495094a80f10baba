/** What an import that nobody disturbs puts into the queue, and in which order. */
module ImportFills {
  import opened Wrappers
  import opened QueueOrder
  import opened RoomQueue
  import opened ImportedQueue
  import QueueInvariant
  import QueueOperations
  import ListingOrder
  import PlaylistImport
  import ImportProgress

  /** The items can all be added: their providers are enabled, none is a live video, and no two of them or of the room's
      share an ID or stand for duplicates. */
  ghost predicate Importable(room: Room, items: seq<Item>, enabled: set<Source>)
  {
    && (forall i :: 0 <= i < |items| ==>
          items[i].source in enabled && !Live(items[i]) && items[i].id !in room.items
          && !QueueOperations.Guarded(room, items[i]))
    && (forall i, j :: 0 <= i < j < |items| ==>
          items[i].id != items[j].id && !QueueInvariant.SameGuard(items[j], items[i]))
  }

  function Rounds(rounds: nat): seq<Action>
  {
    if rounds == 0 then []
    else [Worker(PlaylistImport.TryClaim(0))] +
         ([Worker(PlaylistImport.AddItem(0))] + ([Worker(PlaylistImport.Finish(0))] + Rounds(rounds - 1)))
  }

  lemma RunCons(s: State, action: Action, rest: seq<Action>, user: nat, enabled: set<Source>)
    requires Stamped(s.room, s.now)
    ensures Run(s, [action] + rest, user, enabled) == Run(Act(s, action, user, enabled), rest, user, enabled)
  {
    assert ([action] + rest)[1..] == rest;
    hide Act;
  }

  /** The first count items are in the room, added one after the other from time from on, and the rest is as it was. */
  ghost predicate Filled(room: Room, items: seq<Item>, from: int, count: nat, s: Room)
    requires count <= |items|
  {
    && (forall i :: 0 <= i < count ==>
          items[i].id in s.items && s.items[items[i].id] == items[i].(addedAt := from + i))
    && (forall id :: id in room.items ==> id in s.items && s.items[id] == room.items[id])
    && (forall id :: id in s.items ==> id in room.items || exists i :: 0 <= i < count && items[i].id == id)
    && s.votes == room.votes && s.skips == room.skips && s.playback == room.playback
  }

  lemma StandsAlone(room: Room, items: seq<Item>, from: int, count: nat, s: Room, enabled: set<Source>)
    requires Importable(room, items, enabled) && count < |items| && Filled(room, items, from, count, s)
    ensures items[count].id !in s.items && !QueueOperations.Guarded(s, items[count])
  {
    forall id | id in s.items ensures id != items[count].id && !QueueInvariant.SameGuard(items[count], s.items[id]) {
      if id in room.items {
        assert !QueueInvariant.SameGuard(items[count], room.items[id]);
      } else {
        var i :| 0 <= i < count && items[i].id == id;
        assert !QueueInvariant.SameGuard(items[count], items[i]);
      }
    }
  }

  lemma OneMoreFills(room: Room, items: seq<Item>, from: int, count: nat, s: Room, t: Room)
    requires count < |items| && Filled(room, items, from, count, s) && items[count].id !in s.items
    requires t == s.(items := s.items[items[count].id := items[count].(addedAt := from + count)])
    ensures Filled(room, items, from, count + 1, t)
  {
    forall id | id in t.items ensures id in room.items || exists i :: 0 <= i < count + 1 && items[i].id == id {
      if id == items[count].id {
        assert items[count].id == id;
      } else {
        assert id in s.items;
      }
    }
  }

  lemma OneIsAdded(room: Room, items: seq<Item>, from: int, count: nat, s: Room, user: nat, enabled: set<Source>)
    requires Importable(room, items, enabled) && count < |items| && Filled(room, items, from, count, s)
    requires Stamped(s, from + count)
    ensures var result := AddStatement(s, items[count], user, false, from + count, enabled);
            result.Success? && result.value.outcome.Added? && Filled(room, items, from, count + 1, result.value.room)
  {
    var item := items[count];
    assert item.source in enabled && !Live(item);
    StandsAlone(room, items, from, count, s, enabled);
    hide Importable, Filled, AddStatement, Stamped;
    var result := AddStatement(s, item, user, false, from + count, enabled);
    QueueOperations.AddSucceedsIff(s, item, user, false, from + count, enabled);
    QueueOperations.AddOutcome(s, item, user, false, from + count, enabled);
    hide QueueOperations.HasVote;
    assert result.value.room.votes == s.votes;
    OneMoreFills(room, items, from, count, s, result.value.room);
  }

  // ---------------------------------------------------------------- the rounds

  /** count items are imported, the next one is due. */
  ghost predicate Half(start: State, s: State, count: nat, enabled: set<Source>)
  {
    && count <= |start.items| == |s.items| && s.items == start.items && Importable(start.room, s.items, enabled)
    && Filled(start.room, s.items, start.now, count, s.room)
    && s.now == start.now + count && Stamped(s.room, s.now)
    && s.core.size == |s.items| && |s.core.completed| == count && ImportProgress.Fresh(s.core)
  }

  lemma RoundIs(s: State, item: Item, user: nat, enabled: set<Source>)
    requires Stamped(s.room, s.now) && ImportProgress.Fresh(s.core)
    requires s.core.size <= |s.items| && |s.core.completed| < |s.items| && item == s.items[|s.core.completed|]
    requires AddStatement(s.room, item, user, false, s.now, enabled).Success?
    ensures var result := AddStatement(s.room, item, user, false, s.now, enabled).value;
            var claimed := Act(s, Worker(PlaylistImport.TryClaim(0)), user, enabled);
            var added := Act(claimed, Worker(PlaylistImport.AddItem(0)), user, enabled);
            var core := PlaylistImport.Apply(PlaylistImport.Apply(PlaylistImport.Apply(s.core,
                          PlaylistImport.TryClaim(0)), PlaylistImport.AddItem(0)), PlaylistImport.Finish(0));
            Act(added, Worker(PlaylistImport.Finish(0)), user, enabled) ==
              s.(core := core, room := result.room, now := s.now + 1,
                 history := s.history + [Reported(item.id, result.outcome)])
  {
    var claimed := PlaylistImport.Apply(s.core, PlaylistImport.TryClaim(0));
    assert 0 in claimed.workers && claimed.workers[0].Claimed? && claimed.workers[0].position == |s.core.completed|;
    hide AddStatement, PlaylistImport.Apply, PlaylistImport.Inv, Stamped;
  }

  /** All items are imported. */
  ghost predicate Done(start: State, s: State)
  {
    && s.core.phase.Over? && !s.core.abandoned && |s.core.completed| == |start.items|
    && Filled(start.room, start.items, start.now, |start.items|, s.room)
    && s.now == start.now + |start.items| && Stamped(s.room, s.now)
  }

  lemma NextHalf(start: State, s: State, count: nat, user: nat, enabled: set<Source>, rest: seq<Action>)
    returns (t: State)
    requires Half(start, s, count, enabled) && count < |start.items|
    ensures Stamped(t.room, t.now)
    ensures Run(s, [Worker(PlaylistImport.TryClaim(0))] +
                   ([Worker(PlaylistImport.AddItem(0))] + ([Worker(PlaylistImport.Finish(0))] + rest)), user, enabled)
            == Run(t, rest, user, enabled)
    ensures if count + 1 < |start.items| then Half(start, t, count + 1, enabled) else Done(start, t)
  {
    hide Filled, Importable, AddStatement, ImportProgress.Fresh, PlaylistImport.Apply, Stamped, Run;
    var claimed := Act(s, Worker(PlaylistImport.TryClaim(0)), user, enabled);
    var added := Act(claimed, Worker(PlaylistImport.AddItem(0)), user, enabled);
    t := Act(added, Worker(PlaylistImport.Finish(0)), user, enabled);
    OneIsAdded(start.room, s.items, start.now, count, s.room, user, enabled);
    RoundIs(s, s.items[count], user, enabled);
    ImportProgress.RoundLeaves(s.core);
    RunCons(s, Worker(PlaylistImport.TryClaim(0)), [Worker(PlaylistImport.AddItem(0))] +
                                                     ([Worker(PlaylistImport.Finish(0))] + rest), user, enabled);
    RunCons(claimed, Worker(PlaylistImport.AddItem(0)), [Worker(PlaylistImport.Finish(0))] + rest, user, enabled);
    RunCons(added, Worker(PlaylistImport.Finish(0)), rest, user, enabled);
    hide Act;
  }

  lemma {:induction false} RoundsFill(start: State, s: State, count: nat, user: nat, enabled: set<Source>)
    requires Half(start, s, count, enabled) && count < |start.items|
    ensures Done(start, Run(s, Rounds(|start.items| - count), user, enabled))
    decreases |start.items| - count
  {
    hide *;
    var rounds := |start.items| - count;
    var t := NextHalf(start, s, count, user, enabled, Rounds(rounds - 1));
    RoundsAre(rounds);
    if count + 1 < |start.items| {
      RoundsFill(start, t, count + 1, user, enabled);
    } else {
      RunNothing(t, user, enabled);
    }
  }

  lemma RoundsAre(rounds: nat)
    ensures rounds > 0 ==>
              Rounds(rounds) ==
              [Worker(PlaylistImport.TryClaim(0))] +
              ([Worker(PlaylistImport.AddItem(0))] + ([Worker(PlaylistImport.Finish(0))] + Rounds(rounds - 1)))
  {
  }

  lemma RunNothing(s: State, user: nat, enabled: set<Source>)
    requires Stamped(s.room, s.now)
    ensures Run(s, Rounds(0), user, enabled) == s
  {
  }

  lemma StartIsHalf(start: State, user: nat, enabled: set<Source>) returns (s: State)
    requires start.core == PlaylistImport.START && start.items != [] && Importable(start.room, start.items, enabled)
    requires Stamped(start.room, start.now)
    ensures s == Act(Act(start, Worker(PlaylistImport.Stage(|start.items|)), user, enabled),
                     Worker(PlaylistImport.Create(|start.items|)), user, enabled)
    ensures Half(start, s, 0, enabled)
  {
    var count := |start.items|;
    ImportProgress.CreatedIsFresh(count);
    s := Act(Act(start, Worker(PlaylistImport.Stage(count)), user, enabled), Worker(PlaylistImport.Create(count)), user,
             enabled);
    hide PlaylistImport.Apply, ImportProgress.Fresh, Importable, Stamped;
    assert Filled(start.room, start.items, start.now, 0, s.room);
  }

  /** An import that nobody disturbs puts all its items into the queue, one after the other, and changes nothing
      else. */
  lemma ImportFillsQueue(room: Room, items: seq<Item>, now: int, user: nat, enabled: set<Source>)
    requires items != [] && Importable(room, items, enabled) && Stamped(room, now)
    ensures var start := State(PlaylistImport.START, room, items, now, []);
            Done(start, Run(start, [Worker(PlaylistImport.Stage(|items|))] +
                                   ([Worker(PlaylistImport.Create(|items|))] + Rounds(|items|)), user, enabled))
  {
    hide AddStatement, Importable, PlaylistImport.Apply;
    var start := State(PlaylistImport.START, room, items, now, []);
    var staged := Act(start, Worker(PlaylistImport.Stage(|items|)), user, enabled);
    RunCons(start, Worker(PlaylistImport.Stage(|items|)), [Worker(PlaylistImport.Create(|items|))] + Rounds(|items|),
            user, enabled);
    RunCons(staged, Worker(PlaylistImport.Create(|items|)), Rounds(|items|), user, enabled);
    var created := StartIsHalf(start, user, enabled);
    hide *;
    RoundsFill(start, created, 0, user, enabled);
  }

  /** The imported items are listed in the order of the playlist, behind everything that was listed before. */
  lemma ImportedInOrder(start: State, s: State, enabled: set<Source>, j: nat)
    requires Importable(start.room, start.items, enabled) && Stamped(start.room, start.now) && Done(start, s)
    requires QueueInvariant.VotesBelong(start.room) && j < |start.items|
    ensures forall i :: 0 <= i < j ==>
              ListingOrder.ListedBefore(s.room, enabled, start.items[i].id, start.items[j].id)
    ensures forall id :: id in Visible(start.room, enabled) ==>
              ListingOrder.ListedBefore(s.room, enabled, id, start.items[j].id)
  {
    var last := start.items[j].id;
    NoVotes(s.room, last);
    forall i | 0 <= i < j
      ensures ListingOrder.ListedBefore(s.room, enabled, start.items[i].id, last)
    {
      NoVotes(s.room, start.items[i].id);
      ListingOrder.ListedInOrder(s.room, enabled, start.items[i].id, last);
    }
    forall id | id in Visible(start.room, enabled)
      ensures ListingOrder.ListedBefore(s.room, enabled, id, last)
    {
      UnvotedComesLast(s.room, id, last);
      ListingOrder.ListedInOrder(s.room, enabled, id, last);
    }
  }

  lemma NoVotes(r: Room, id: nat)
    requires forall v :: v in r.votes ==> v.item != id
    ensures ListingOrder.VoteCount(r, id) == 0
  {
    assert (set v | v in r.votes && v.item == id) == {};
  }

  lemma UnvotedComesLast(r: Room, a: nat, b: nat)
    requires a in r.items && b in r.items && r.items[a].addedAt < r.items[b].addedAt
    requires forall v :: v in r.votes ==> v.item != b
    ensures ListingOrder.ComesFirst(r, a, b)
  {
    NoVotes(r, b);
    if ListingOrder.VoteCount(r, a) == 0 {
      var votes := set v | v in r.votes && v.item == a;
      assert forall w :: w in r.votes && w.item == a ==> w in votes;
    }
  }

  /** A worker whose add fails adds nothing and leaves its item to the next claim. */
  lemma FailedAddIsLeft(s: State, worker: nat, user: nat, enabled: set<Source>)
    requires Stamped(s.room, s.now) && Adds(s, PlaylistImport.AddItem(worker))
    requires var item := s.items[s.core.workers[worker].position];
             item.source !in enabled || Live(item)
    ensures Act(s, Worker(PlaylistImport.AddItem(worker)), user, enabled) ==
            s.(core := s.core.(workers := s.core.workers - {worker}))
  {
  }
}
