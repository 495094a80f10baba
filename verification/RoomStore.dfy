/** The rows of one room, changed in place. Each method takes the sequential steps a statement stands for
    and leaves exactly the state the statement leaves. */
module RoomStore {
  import opened Wrappers
  import opened QueueOrder
  import opened RoomQueue
  import opened QueueInvariant

  /** Adding resolves to at most one stored row, so the statement's choice of row is no choice. */
  lemma DuplicateIsUnique(r: Room, item: Item, addVote: bool, a: nat, b: nat)
    requires GuardsHold(r) && Resolves(r, item, addVote, a) && Resolves(r, item, addVote, b)
    ensures a == b
  {
  }

  /** best is the row that precedes all others of these items. */
  ghost predicate BestOf(r: Room, ids: set<nat>, best: Row)
  {
    ids <= r.items.Keys && IsFirst(best, Rows(r, ids))
  }

  lemma OnlyRowIsFirst(r: Room, id: nat)
    requires id in r.items
    ensures BestOf(r, {id}, RowOf(r, id))
  {
  }

  lemma BestOfMore(r: Room, ids: set<nat>, best: Row, id: nat)
    requires Keyed(r) && id in r.items && BestOf(r, ids, best)
    ensures BestOf(r, ids + {id}, if Before(RowOf(r, id), best) then RowOf(r, id) else best)
  {
    KeyedRowsHaveNoTies(r, ids + {id});
    assert RowOf(r, id) in Rows(r, ids + {id});
    assert Rows(r, ids + {id}) == Rows(r, ids) + {RowOf(r, id)};
    FirstOfMore(Rows(r, ids), best, RowOf(r, id));
  }

  lemma FirstIsHead(r: Room, ids: set<nat>, best: Row)
    requires Keyed(r) && BestOf(r, ids, best)
    ensures ids <= r.items.Keys && Head(r, ids) == Some(best.item.id)
  {
    KeyedRowsHaveNoTies(r, ids);
    FirstIsUnique(Rows(r, ids), best);
  }

  lemma NoHead(r: Room, ids: set<nat>)
    requires ids <= r.items.Keys && Keyed(r)
    ensures ids == {} ==> Head(r, ids) == None
  {
  }

  /** last is MAX over the votes' times. */
  ghost predicate IsLast(last: Option<int>, votes: set<Vote>)
  {
    match last
    case None => votes == {}
    case Some(at) => (exists v :: v in votes && v.at == at) && forall v :: v in votes ==> v.at <= at
  }

  lemma LastOfMore(last: Option<int>, votes: set<Vote>, v: Vote)
    requires IsLast(last, votes)
    ensures IsLast(if last.None? || v.at > last.value then Some(v.at) else last, votes + {v})
  {
    assert v in votes + {v};
    if last.Some? && v.at <= last.value {
      var w :| w in votes && w.at == last.value;
      assert w in votes + {v};
    }
  }

  lemma LastIsUnique(last: Option<int>, votes: set<Vote>)
    requires IsLast(last, votes)
    ensures last == LastVote(votes)
  {
  }

  class Store {
    var items: map<nat, Item>
    var votes: set<Vote>
    var skips: set<SkipVote>
    var playback: Playback

    function State(): (r: Room)
      reads this
      ensures r.items == items
    {
      Room(items, votes, skips, playback)
    }

    constructor (now: int)
      ensures State() == Room(map[], {}, {}, Playback(None, false, 0, now))
      ensures Inv(State()) && Stamped(State(), now)
    {
      items, votes, skips := map[], {}, {};
      playback := Playback(None, false, 0, now);
    }

    /** COUNT and MAX over the joined votes of one item. */
    method Aggregate(id: nat) returns (row: Row)
      requires id in items
      ensures row == RowOf(State(), id)
    {
      var joined := VotesFor(votes, id);
      var rest := joined;
      var last: Option<int> := None;
      ghost var done: set<Vote> := {};
      assert IsLast(last, done);
      hide IsLast, LastVote, VotesFor;
      while rest != {}
        invariant done + rest == joined && IsLast(last, done)
        decreases |rest|
      {
        var v :| v in rest;
        LastOfMore(last, done, v);
        rest, done := rest - {v}, done + {v};
        if last.None? || v.at > last.value {
          last := Some(v.at);
        }
      }
      assert done == joined;
      LastIsUnique(last, joined);
      row := Row(items[id], |joined|, last);
    }

    /** The queue order's head, with LIMIT 1. */
    method HeadOf(ids: set<nat>) returns (head: Option<nat>)
      requires ids <= items.Keys && Keyed(State())
      ensures head == Head(State(), ids)
    {
      hide *;
      ghost var r := State();
      NoHead(r, ids);
      if ids == {} {
        return None;
      }
      var first :| first in ids;
      var best := Aggregate(first);
      var rest := ids - {first};
      ghost var done := {first};
      OnlyRowIsFirst(r, first);
      while rest != {}
        invariant done + rest == ids && BestOf(r, done, best)
        decreases |rest|
      {
        var id :| id in rest;
        var row := Aggregate(id);
        BestOfMore(r, done, best, id);
        rest, done := rest - {id}, done + {id};
        if Before(row, best) {
          best := row;
        }
      }
      assert done == ids;
      FirstIsHead(r, ids, best);
      return Some(best.item.id);
    }

    method ClearVotes(id: nat)
      modifies this
      ensures State() == WithoutItemVotes(old(State()), id)
    {
      skips := set v | v in skips && v.item != id;
      votes := set v | v in votes && v.item != id;
    }

    /** Clear the current item's votes, remove or requeue it, play the head of the queue. */
    method Advance(removeOnPlay: bool, now: int, enabled: set<Source>)
      requires Stamped(State(), now)
      modifies this
      ensures State() == AdvanceStatement(old(State()), removeOnPlay, now, enabled)
      ensures old(Inv(State())) ==> Inv(State())
    {
      ghost var before := State();
      StatementRefinesProcedure(before, removeOnPlay, now, enabled);
      if before.playback.current.None? { IdleSelectsNothing(before, now, enabled); }
      if Inv(before) { AdvanceKeeps(before, removeOnPlay, now, enabled); }
      SettledRows(before, removeOnPlay, now, enabled);
      SettledIsStamped(before, removeOnPlay, now);
      var idle := playback.current.None?;
      if !idle {
        var current := playback.current.value;
        ClearVotes(current);
        if removeOnPlay {
          items := items - {current};
        } else if current in items {
          items := items[current := items[current].(addedAt := now)];
        }
      }
      assert State() == Settled(before, removeOnPlay, now);
      var next := None;
      // With nothing current, NOT (remove_on_play AND a.id = NULL) is unknown and keeps no candidate.
      if !(idle && removeOnPlay) {
        next := HeadOf(Playable(State(), enabled));
      }
      playback := Playback(next, next.Some?, 0, now);
    }

    method InsertVote(id: nat, user: nat, now: int) returns (inserted: bool)
      modifies this
      ensures State() == WithVote(old(State()), id, user, now) && inserted == (State() != old(State()))
    {
      inserted := !exists v :: v in votes && v.item == id && v.user == user;
      if inserted {
        votes := votes + {Vote(id, user, now)};
      }
    }

    /** The stored row a new one resolves to: the same import item, or the guarded duplicate. */
    method FindDuplicate(item: Item, addVote: bool) returns (found: Option<nat>)
      ensures found.None? ==> !HasDuplicate(State(), item, addVote)
      ensures found.Some? ==> Resolves(State(), item, addVote, found.value)
    {
      if !addVote && item.id in items {
        assert Resolves(State(), item, addVote, item.id);
        return Some(item.id);
      }
      if item.guarded {
        var rest := items.Keys;
        while rest != {}
          invariant rest <= items.Keys
          invariant forall k :: k in items.Keys - rest ==> !Resolves(State(), item, addVote, k)
          decreases |rest|
        {
          var k :| k in rest;
          if items[k].guarded && items[k].source == item.source && items[k].sourceId == item.sourceId {
            return Some(k);
          }
          rest := rest - {k};
        }
        assert items.Keys - rest == items.Keys;
      }
      return None;
    }

    method Add(item: Item, user: nat, addVote: bool, now: int, enabled: set<Source>)
      returns (added: Result<(nat, AddOutcome)>)
      requires Inv(State()) && Stamped(State(), now)
      modifies this
      ensures Inv(State())
      ensures var result := AddStatement(old(State()), item, user, addVote, now, enabled);
              if result.Failure? then added.Failure? && State() == old(State())
              else State() == result.value.room && added == Success((result.value.id, result.value.outcome))
    {
      ghost var r := State();
      ghost var result := AddStatement(r, item, user, addVote, now, enabled);
      if result.Success? { AddKeeps(r, item, user, addVote, now, enabled); }
      if Live(item) || item.source !in enabled {
        return Failure;
      }
      var existing := FindDuplicate(item, addVote);
      if existing.Some? {
        DuplicateIsUnique(r, item, addVote, existing.value, result.value.id);
        var inserted := false;
        if addVote {
          inserted := InsertVote(existing.value, user, now);
        }
        return Success((existing.value, if addVote && existing.value == item.id then Added
                                        else if inserted then DuplicateVoted else DuplicateAlreadyVoted));
      }
      if item.id in items {
        return Failure;
      }
      items := items[item.id := item.(addedAt := now)];
      if addVote {
        var _ := InsertVote(item.id, user, now);
      }
      return Success((item.id, Added));
    }

    method Remove(id: nat, now: int)
      modifies this
      ensures State() == RemoveStatement(old(State()), id, now)
    {
      ClearVotes(id);
      if playback.current == Some(id) {
        playback := Playback(None, false, 0, now);
      }
      items := items - {id};
    }

    /** Item by item: drop its votes, stop it if it plays, delete it. */
    method ExpireMetadata(now: int)
      modifies this
      ensures State() == ExpireStatement(old(State()), now)
    {
      ghost var r := State();
      var expired := Expired(State(), now);
      var rest := expired;
      while rest != {}
        invariant rest <= expired
        invariant items == r.items - (expired - rest)
        invariant votes == set v | v in r.votes && v.item !in expired - rest
        invariant skips == set v | v in r.skips && v.item !in expired - rest
        invariant playback == if r.playback.current.Some? && r.playback.current.value in expired - rest
                              then Playback(None, false, 0, now) else r.playback
        decreases |rest|
      {
        var id :| id in rest;
        Remove(id, now);
        rest := rest - {id};
      }
      assert expired - rest == expired;
    }

    method StartIfIdle(now: int, enabled: set<Source>) returns (started: bool)
      requires Keyed(State())
      modifies this
      ensures State() == StartIfIdleStatement(old(State()), now, enabled)
    {
      started := false;
      if playback.current.None? || playback.current.value !in Playable(State(), enabled) {
        var head := HeadOf(Playable(State(), enabled));
        if head.Some? {
          playback := Playback(head, true, 0, now);
          started := true;
        }
      }
    }
  }
}
