/** What the add and start statements mean across calls. */
module QueueOperations {
  import opened Wrappers
  import opened QueueOrder
  import opened RoomQueue
  import opened QueueInvariant

  predicate HasVote(r: Room, id: nat, user: nat)
  {
    exists v :: v in r.votes && v.item == id && v.user == user
  }

  lemma VoteIsThere(r: Room, id: nat, user: nat, now: int)
    ensures HasVote(WithVote(r, id, user, now), id, user)
    ensures WithVote(r, id, user, now).items == r.items && WithVote(r, id, user, now).playback == r.playback
    ensures forall v: Vote :: v.item != id || v.user != user ==>
            (v in WithVote(r, id, user, now).votes <==> v in r.votes)
    ensures WithVote(r, id, user, now) == r <==> HasVote(r, id, user)
  {
    if !HasVote(r, id, user) {
      assert Vote(id, user, now) in WithVote(r, id, user, now).votes && Vote(id, user, now) !in r.votes;
    }
  }

  ghost predicate Stored(r: Room, item: Item, now: int, result: AddResult)
  {
    item.id !in r.items && result.id == item.id && result.room.items == r.items[item.id := item.(addedAt := now)]
  }

  ghost predicate Merged(r: Room, item: Item, result: AddResult)
  {
    result.id in r.items && result.room.items == r.items
      && (result.id == item.id || SameGuard(item, r.items[result.id]))
  }

  /** An add stores the item or merges it into a stored one, leaves every other item and vote alone, and the vote it
      asks for is there afterwards; the outcome tells which of this happened. */
  lemma AddOutcome(r: Room, item: Item, user: nat, addVote: bool, now: int, enabled: set<Source>)
    requires AddStatement(r, item, user, addVote, now, enabled).Success?
    ensures var result := AddStatement(r, item, user, addVote, now, enabled).value;
            && (Stored(r, item, now, result) || Merged(r, item, result))
            && (result.outcome.Added? <==>
                  Stored(r, item, now, result) || (addVote && item.id in r.items && result.id == item.id))
            && (addVote ==> HasVote(result.room, result.id, user))
            && (result.outcome.DuplicateVoted? <==> result.id != item.id && addVote && !HasVote(r, result.id, user))
            && (result.outcome.DuplicateAlreadyVoted? ==> result.room == r)
            && (forall v: Vote :: v.item != result.id || v.user != user || !addVote ==>
                  (v in result.room.votes <==> v in r.votes))
            && result.room.playback == r.playback && result.room.skips == r.skips
  {
    var result := AddStatement(r, item, user, addVote, now, enabled).value;
    var stored := if item.id !in r.items then r.(items := result.room.items) else r;
    VoteIsThere(stored, result.id, user, now);
  }

  ghost predicate Guarded(r: Room, item: Item)
  {
    exists existing :: existing in r.items && SameGuard(item, r.items[existing])
  }

  /** An add fails exactly for a disabled provider, a live video, and a stored ID that is added anew without standing
      for a duplicate; it stores the item exactly when neither its ID nor a guarded duplicate is stored. */
  lemma AddSucceedsIff(r: Room, item: Item, user: nat, addVote: bool, now: int, enabled: set<Source>)
    ensures var result := AddStatement(r, item, user, addVote, now, enabled);
            && (result.Success? <==>
                  && item.source in enabled && (item.source.YouTube? ==> item.duration > 0)
                  && (item.id in r.items && addVote ==> Guarded(r, item)))
            && (result.Success? ==>
                  (Stored(r, item, now, result.value) <==> item.id !in r.items && !Guarded(r, item)))
  {
    if Guarded(r, item) {
      var existing :| existing in r.items && SameGuard(item, r.items[existing]);
      assert Resolves(r, item, addVote, existing) || Resolves(r, item, addVote, item.id);
    }
    assert item.id in r.items && !addVote ==> Resolves(r, item, addVote, item.id);
  }

  /** In a room without duplicates, adding the same source again under another ID never stores a second item: it votes
      for the first one. */
  lemma SecondAddMerges(r: Room, item: Item, again: Item, user: nat, other: nat, now: int, later: int,
                        enabled: set<Source>)
    requires QueueInvariant.Inv(r) && SameGuard(item, again) && again.id !in r.items && again.id != item.id
    requires var first := AddStatement(r, item, user, true, now, enabled);
             first.Success? && first.value.outcome.Added?
    ensures var first := AddStatement(r, item, user, true, now, enabled).value;
            var second := AddStatement(first.room, again, other, true, later, enabled);
            if Live(again) then second.Failure?
            else second.Success? && second.value.id == item.id && second.value.room.items == first.room.items
                 && HasVote(second.value.room, item.id, other)
  {
    var first := AddStatement(r, item, user, true, now, enabled).value;
    AddOutcome(r, item, user, true, now, enabled);
    AddKeeps(r, item, user, true, now, enabled);
    assert Resolves(first.room, again, true, item.id);
    if !Live(again) { AddOutcome(first.room, again, other, true, later, enabled); }
  }

  /** A start leaves a room idle exactly when nothing can be played, leaves a room that is not idle alone, and a second
      start changes nothing. */
  lemma StartEndsIdleness(r: Room, now: int, later: int, enabled: set<Source>)
    requires Keyed(r)
    ensures var s := StartIfIdleStatement(r, now, enabled);
            && (Idle(s, enabled) <==> Playable(r, enabled) == {})
            && (!Idle(r, enabled) ==> s == r)
            && (Idle(r, enabled) && Playable(r, enabled) != {} ==>
                  s == r.(playback := Playback(Head(r, Playable(r, enabled)), true, 0, now)))
            && Keyed(s) && (Playable(r, enabled) != {} ==> StartIfIdleStatement(s, later, enabled) == s)
  {
    HeadIsAnItem(r, Playable(r, enabled));
    var s := StartIfIdleStatement(r, now, enabled);
    assert s.items == r.items && Playable(s, enabled) == Playable(r, enabled);
  }

  const DAYS_25_IN_MILLISECONDS := 2_160_000_000

  /** The votes and skip votes of the items that are gone are gone too, and they alone; a room that played one
      is stopped. */
  ghost predicate ItemsGone(r: Room, s: Room, now: int)
  {
    && (forall id :: id in s.items ==> id in r.items && s.items[id] == r.items[id])
    && (forall v: Vote :: v in s.votes <==> v in r.votes && (v.item in r.items ==> v.item in s.items))
    && (forall v: SkipVote :: v in s.skips <==> v in r.skips && (v.item in r.items ==> v.item in s.items))
    && s.playback == if r.playback.current.Some? && r.playback.current.value in r.items.Keys - s.items.Keys
                     then Playback(None, false, 0, now) else r.playback
  }

  /** An expiry takes out exactly the YouTube items whose metadata is at least 25 days old, a removal exactly the one
      item; each with all that belongs to it. */
  lemma RemovalsAreExact(r: Room, now: int, id: nat)
    requires id in r.items
    ensures var s := ExpireStatement(r, now);
            && ItemsGone(r, s, now)
            && (id !in s.items <==>
                  r.items[id].source.YouTube? && now - r.items[id].metadataAt >= DAYS_25_IN_MILLISECONDS)
    ensures var s := RemoveStatement(r, id, now);
            ItemsGone(r, s, now) && s.items.Keys == r.items.Keys - {id}
  {
  }

  /** A skip vote for a stored item is there afterwards, one for another item is not stored, and nothing else
      changes. */
  lemma SkipVoteIsStored(r: Room, id: nat, user: nat)
    ensures var s := SkipVoteStatement(r, id, user);
            && s == r.(skips := s.skips)
            && forall v: SkipVote :: v in s.skips <==> v in r.skips || (v == SkipVote(id, user) && id in r.items)
  {
  }
}
