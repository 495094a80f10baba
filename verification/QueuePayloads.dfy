/** What a client is sent about the queue for each statement, alone or among others in a batch. */
module QueuePayloads {
  import opened Wrappers
  import opened QueueOrder
  import opened RoomQueue
  import opened QueueDeltas
  import opened QueueRecords
  import Compaction
  import QueueInvariant
  import QueueOperations

  /** The place of one item in the listing, or its removal. */
  ghost predicate IsPlace(listing: seq<Shown>, id: nat, body: Compaction.Body)
  {
    body.Queue? && IsDelta(listing, id, body.edit)
  }

  /** What a statement's record, built from some listing, sends: alone the one item it touched and in a batch that
      listing; always the listing for an expiry, a retried import and a vote that is there already; and never more than
      the one item for an advance and an import's new item. */
  lemma SentFor(r: Room, step: QueueInvariant.Step, again: bool, now: int, enabled: set<Source>, listing: seq<Shown>,
                id: nat)
    requires Stamped(r, now) && TaskOf(r, step, again, now, enabled).Some?
    ensures var e := AsEvent(Built(TaskOf(r, step, again, now, enabled).value, listing), id);
            var alone, batched := Compaction.Convert(e).body, Compaction.Convert(Compaction.Promote(e)).body;
            var whole := Compaction.Queue(Snapshot(listing));
            match step
            case Add(item, user, addVote) =>
              var result := AddStatement(r, item, user, addVote, now, enabled).value;
              if !addVote && !again
              then alone == batched == Compaction.Queue(ItemAdded(Shown(item.(addedAt := now), 0)))
              else batched == whole &&
                   (if !addVote || result.outcome.DuplicateAlreadyVoted? then alone == whole
                    else IsPlace(listing, result.id, alone))
            case CastVote(item, _) => IsPlace(listing, item, alone) && batched == whole
            case Remove(item) => alone == Compaction.Queue(ItemRemoved(item)) && batched == whole
            case ExpireMetadata => alone == batched == whole
            case Advance(_) => IsPlace(listing, r.playback.current.value, alone) && batched == alone
            case _ => false
  {
    hide AddStatement, Stamped, Place, IsDelta;
  }

  /** Nothing is sent about the queue exactly for skip votes and starts, a failed add, an import's item that was there
      already, a vote that was there already or is for no item, a removal of nothing, and an advance with nothing
      current. */
  lemma SilentIff(r: Room, step: QueueInvariant.Step, again: bool, now: int, enabled: set<Source>)
    requires Stamped(r, now)
    ensures TaskOf(r, step, again, now, enabled).None? <==>
            match step
            case Add(item, user, addVote) =>
              var result := AddStatement(r, item, user, addVote, now, enabled);
              result.Failure? || (!addVote && !again && !result.value.outcome.Added?)
            case CastVote(item, user) => item !in r.items || QueueOperations.HasVote(r, item, user)
            case CastSkipVote(_, _) => true
            case Remove(item) => item !in r.items && !again
            case ExpireMetadata => false
            case Advance(_) => r.playback.current.None?
            case StartIfIdle => true
  {
    hide AddStatement, Stamped;
    if step.CastVote? { QueueOperations.VoteIsThere(r, step.id, step.user, now); }
  }
}
