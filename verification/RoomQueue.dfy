/** One room's queue, votes and playback, and what each prepared statement makes of them.
    A statement reads only the rows as they were before it (PostgreSQL manual, section 7.8.4). */
module RoomQueue {
  import opened Wrappers
  import opened QueueOrder

  datatype Vote = Vote(item: nat, user: nat, at: int)

  datatype SkipVote = SkipVote(item: nat, user: nat)

  datatype Playback = Playback(current: Option<nat>, playing: bool, positionMs: int, updatedAt: int)

  datatype Room = Room(items: map<nat, Item>, votes: set<Vote>, skips: set<SkipVote>, playback: Playback)

  // ---------------------------------------------------------------- aggregates

  function VotesFor(votes: set<Vote>, id: nat): set<Vote>
  {
    set v | v in votes && v.item == id
  }

  /** MAX over the vote times, NULL when there are none. */
  ghost function LastVote(votes: set<Vote>): (last: Option<int>)
    ensures last.None? <==> votes == {}
    ensures last.Some? ==> (exists v :: v in votes && v.at == last.value)
    ensures last.Some? ==> forall v :: v in votes ==> v.at <= last.value
  {
    if votes == {} then None
    else
      var v :| v in votes;
      var rest := LastVote(votes - {v});
      if rest.None? || v.at > rest.value then Some(v.at) else rest
  }

  ghost function RowOf(r: Room, id: nat): Row
    requires id in r.items
  {
    Row(r.items[id], |VotesFor(r.votes, id)|, LastVote(VotesFor(r.votes, id)))
  }

  ghost function Rows(r: Room, ids: set<nat>): set<Row>
    requires ids <= r.items.Keys
  {
    set id | id in ids :: RowOf(r, id)
  }

  /** Rows carry their key, and no two share an added time. */
  ghost predicate Keyed(r: Room)
  {
    && (forall id :: id in r.items ==> r.items[id].id == id)
    && (forall a, b :: a in r.items && b in r.items && a != b ==> r.items[a].addedAt != r.items[b].addedAt)
  }

  /** NOW() is later than every stored added time. */
  ghost predicate Stamped(r: Room, now: int)
  {
    Keyed(r) && forall id :: id in r.items ==> r.items[id].addedAt < now
  }

  lemma KeyedRowsHaveNoTies(r: Room, ids: set<nat>)
    requires Keyed(r) && ids <= r.items.Keys
    ensures NoTies(Rows(r, ids))
  {
  }

  /** The items that may be played: their provider is enabled. */
  function Playable(r: Room, enabled: set<Source>): (ids: set<nat>)
    ensures ids <= r.items.Keys
  {
    set id | id in r.items && r.items[id].source in enabled
  }

  predicate Live(item: Item) { item.source.YouTube? && item.duration <= 0 }

  /** The items that are listed: playable, and not a live video. */
  function Visible(r: Room, enabled: set<Source>): (ids: set<nat>)
    ensures ids <= Playable(r, enabled)
  {
    set id | id in r.items && r.items[id].source in enabled && !Live(r.items[id])
  }

  /** The head of the queue order among ids. */
  ghost function Head(r: Room, ids: set<nat>): Option<nat>
    requires ids <= r.items.Keys && Keyed(r)
  {
    KeyedRowsHaveNoTies(r, ids);
    if ids == {} then None
    else
      var some :| some in ids;
      assert RowOf(r, some) in Rows(r, ids);
      Some(First(Rows(r, ids)).item.id)
  }

  // ---------------------------------------------------------------- advancing

  function WithoutItemVotes(r: Room, id: nat): Room
  {
    r.(votes := (set v | v in r.votes && v.item != id), skips := (set v | v in r.skips && v.item != id))
  }

  function WithoutItem(r: Room, id: nat): Room
  {
    r.(items := r.items - {id})
  }

  function Requeued(r: Room, id: nat, now: int): Room
    requires id in r.items
  {
    r.(items := r.items[id := r.items[id].(addedAt := now)])
  }

  function Playing(r: Room, next: Option<nat>, now: int): Room
  {
    r.(playback := Playback(next, next.Some?, 0, now))
  }

  /** SQL's three truth values; a WHERE clause keeps the rows for which it is True. */
  datatype Truth = True | False | Unknown

  function Of(b: bool): Truth { if b then True else False }

  function Equal(id: nat, current: Option<nat>): Truth
  {
    if current.None? then Unknown else Of(id == current.value)
  }

  function And(a: Truth, b: Truth): Truth
  {
    if a == False || b == False then False else if a == True && b == True then True else Unknown
  }

  function Not(a: Truth): Truth
  {
    match a case True => False case False => True case Unknown => Unknown
  }

  /** Of False, Unknown and True, AND is the least, and NOT keeps Unknown. */
  lemma TruthTable(a: Truth, b: Truth)
    ensures And(a, b) == And(b, a) && And(a, a) == a && And(True, a) == a && And(False, a) == False
    ensures Not(Not(a)) == a && Not(Unknown) == Unknown && Not(True) == False
  {
  }

  /** WHERE NOT (remove_on_play AND a.id = current_playlist_item_id). */
  predicate Kept(id: nat, current: Option<nat>, removeOnPlay: bool)
  {
    Not(And(Of(removeOnPlay), Equal(id, current))) == True
  }

  /** next_playlist_item_q: the joined row of one candidate, read before the statement's own writes. */
  ghost function CandidateRow(r: Room, removeOnPlay: bool, now: int, id: nat): Row
    requires id in r.items
  {
    var current := r.playback.current;
    var joined := set v | v in r.votes && v.item == id && Some(id) != current;
    Row(if Equal(id, current) == True && !removeOnPlay then r.items[id].(addedAt := now) else r.items[id],
        |joined|, LastVote(joined))
  }

  ghost function Candidates(r: Room, removeOnPlay: bool, now: int, enabled: set<Source>): set<Row>
  {
    set id | id in Playable(r, enabled) && Kept(id, r.playback.current, removeOnPlay)
      :: CandidateRow(r, removeOnPlay, now, id)
  }

  lemma CandidatesHaveNoTies(r: Room, removeOnPlay: bool, now: int, enabled: set<Source>)
    requires Stamped(r, now)
    ensures NoTies(Candidates(r, removeOnPlay, now, enabled))
  {
  }

  ghost function SelectedNext(r: Room, removeOnPlay: bool, now: int, enabled: set<Source>): Option<nat>
    requires Stamped(r, now)
  {
    CandidatesHaveNoTies(r, removeOnPlay, now, enabled);
    var candidates := Candidates(r, removeOnPlay, now, enabled);
    if candidates == {} then None else Some(First(candidates).item.id)
  }

  /** The skip and expired-playback statement: every part reads r, the state before it. */
  ghost function AdvanceStatement(r: Room, removeOnPlay: bool, now: int, enabled: set<Source>): (s: Room)
    requires Stamped(r, now)
    ensures Stamped(s, now + 1)
  {
    var current := r.playback.current;
    var next := SelectedNext(r, removeOnPlay, now, enabled);
    Room(map id | id in r.items && !(removeOnPlay && Some(id) == current)
           :: if Some(id) == current then r.items[id].(addedAt := now) else r.items[id],
         (set v | v in r.votes && Some(v.item) != current),
         (set v | v in r.skips && Some(v.item) != current),
         Playback(next, next.Some?, 0, now))
  }

  /** The queue once the current item's votes are cleared and it is removed or requeued. */
  function Settled(r: Room, removeOnPlay: bool, now: int): Room
  {
    match r.playback.current
    case None => r
    case Some(current) =>
      var cleared := WithoutItemVotes(r, current);
      if removeOnPlay then WithoutItem(cleared, current)
      else if current in r.items then Requeued(cleared, current, now)
      else cleared
  }

  lemma SettledIsStamped(r: Room, removeOnPlay: bool, now: int)
    requires Stamped(r, now)
    ensures Stamped(Settled(r, removeOnPlay, now), now + 1)
  {
  }

  /** One step after the other: clear the votes, remove or requeue, play the head of the queue. */
  ghost function AdvanceProcedure(r: Room, removeOnPlay: bool, now: int, enabled: set<Source>): Room
    requires Stamped(r, now)
  {
    var settled := Settled(r, removeOnPlay, now);
    SettledIsStamped(r, removeOnPlay, now);
    Playing(settled, Head(settled, Playable(settled, enabled)), now)
  }

  lemma CandidatesAreSettledRows(r: Room, removeOnPlay: bool, now: int, enabled: set<Source>)
    requires r.playback.current.Some? || !removeOnPlay
    ensures var settled := Settled(r, removeOnPlay, now);
            Candidates(r, removeOnPlay, now, enabled) == Rows(settled, Playable(settled, enabled))
  {
    var settled := Settled(r, removeOnPlay, now);
    var ids := Playable(settled, enabled);
    assert ids == set id | id in Playable(r, enabled) && Kept(id, r.playback.current, removeOnPlay);
    forall id | id in ids
      ensures CandidateRow(r, removeOnPlay, now, id) == RowOf(settled, id)
    {
      assert VotesFor(settled.votes, id) == set v | v in r.votes && v.item == id && Some(id) != r.playback.current;
    }
  }

  lemma SettledItems(r: Room, removeOnPlay: bool, now: int)
    ensures (map id | id in r.items && !(removeOnPlay && Some(id) == r.playback.current)
               :: if Some(id) == r.playback.current then r.items[id].(addedAt := now) else r.items[id])
            == Settled(r, removeOnPlay, now).items
  {
  }

  lemma SettledVotes(r: Room, removeOnPlay: bool, now: int)
    ensures (set v | v in r.votes && Some(v.item) != r.playback.current) == Settled(r, removeOnPlay, now).votes
    ensures (set v | v in r.skips && Some(v.item) != r.playback.current) == Settled(r, removeOnPlay, now).skips
  {
  }

  /** Votes, skip votes and queue rows: statement and procedure leave the same whatever is current. */
  lemma SettledRows(r: Room, removeOnPlay: bool, now: int, enabled: set<Source>)
    requires Stamped(r, now)
    ensures AdvanceStatement(r, removeOnPlay, now, enabled) ==
            Settled(r, removeOnPlay, now).(playback := AdvanceStatement(r, removeOnPlay, now, enabled).playback)
  {
    SettledItems(r, removeOnPlay, now);
    SettledVotes(r, removeOnPlay, now);
    hide Settled, SelectedNext, Stamped;
  }

  lemma HeadIsAnItem(r: Room, ids: set<nat>)
    requires ids <= r.items.Keys && Keyed(r)
    ensures Head(r, ids).None? <==> ids == {}
    ensures Head(r, ids).Some? ==> Head(r, ids).value in ids
  {
  }

  lemma SelectedIsHead(r: Room, removeOnPlay: bool, now: int, enabled: set<Source>)
    requires Stamped(r, now) && (r.playback.current.Some? || !removeOnPlay)
    ensures var settled := Settled(r, removeOnPlay, now);
            Keyed(settled) && SelectedNext(r, removeOnPlay, now, enabled) == Head(settled, Playable(settled, enabled))
  {
    var settled := Settled(r, removeOnPlay, now);
    var ids := Playable(settled, enabled);
    SettledIsStamped(r, removeOnPlay, now);
    CandidatesAreSettledRows(r, removeOnPlay, now, enabled);
    CandidatesHaveNoTies(r, removeOnPlay, now, enabled);
    RowsAreEmpty(settled, ids);
  }

  lemma RowsAreEmpty(r: Room, ids: set<nat>)
    requires ids <= r.items.Keys
    ensures Rows(r, ids) == {} <==> ids == {}
  {
    if ids != {} {
      var id :| id in ids;
      assert RowOf(r, id) in Rows(r, ids);
    }
  }

  lemma IdleSelectsNothing(r: Room, now: int, enabled: set<Source>)
    requires Stamped(r, now) && r.playback.current.None?
    ensures SelectedNext(r, true, now, enabled) == None
  {
    assert Candidates(r, true, now, enabled) == {};
  }

  /** The single statement and the sequential procedure select and leave the same, except that with
      remove-on-play a skip of an idle room plays nothing although an item is playable. */
  lemma StatementRefinesProcedure(r: Room, removeOnPlay: bool, now: int, enabled: set<Source>)
    requires Stamped(r, now)
    ensures AdvanceStatement(r, removeOnPlay, now, enabled) == AdvanceProcedure(r, removeOnPlay, now, enabled)
       <==> r.playback.current.Some? || !removeOnPlay || Playable(r, enabled) == {}
  {
    SettledRows(r, removeOnPlay, now, enabled);
    var s, settled := AdvanceStatement(r, removeOnPlay, now, enabled), Settled(r, removeOnPlay, now);
    var next := SelectedNext(r, removeOnPlay, now, enabled);
    assert s.playback == Playback(next, next.Some?, 0, now);
    SettledIsStamped(r, removeOnPlay, now);
    hide Candidates, SelectedNext, Head, AdvanceStatement, Stamped;
    if r.playback.current.Some? || !removeOnPlay {
      SelectedIsHead(r, removeOnPlay, now, enabled);
    } else {
      IdleSelectsNothing(r, now, enabled);
      HeadIsAnItem(settled, Playable(settled, enabled));
    }
  }

  // ---------------------------------------------------------------- the other statements

  datatype AddOutcome = Added | DuplicateVoted | DuplicateAlreadyVoted

  /** existing_import_item_q and the ON CONFLICT target: the stored row the new one resolves to, if any. */
  ghost predicate Resolves(r: Room, item: Item, addVote: bool, existing: nat)
  {
    && existing in r.items
    && ((!addVote && existing == item.id)
        || (item.guarded && r.items[existing].guarded && !(item.id in r.items && !addVote)
            && r.items[existing].source == item.source && r.items[existing].sourceId == item.sourceId))
  }

  ghost predicate HasDuplicate(r: Room, item: Item, addVote: bool)
  {
    exists existing :: Resolves(r, item, addVote, existing)
  }

  function WithVote(r: Room, id: nat, user: nat, now: int): Room
  {
    if exists v :: v in r.votes && v.item == id && v.user == user then r
    else r.(votes := r.votes + {Vote(id, user, now)})
  }

  /** What one add leaves, and which row and outcome it reports. */
  datatype AddResult = AddResult(room: Room, id: nat, outcome: AddOutcome)

  /** The add statement behind its check for live videos; item.guarded is NOT allow_duplicates.
      Failure: a live video, a disabled provider, or a plain insert that repeats a stored row's key.
      The statement takes a row of the added ID for an inserted one, unless an import found it stored. */
  ghost function AddStatement(r: Room, item: Item, user: nat, addVote: bool, now: int, enabled: set<Source>)
    : (result: Result<AddResult>)
    ensures Stamped(r, now) && result.Success? ==> Stamped(result.value.room, now + 1)
  {
    if Live(item) || item.source !in enabled then Failure
    else if HasDuplicate(r, item, addVote) then
      var existing :| Resolves(r, item, addVote, existing);
      var voted := if addVote then WithVote(r, existing, user, now) else r;
      Success(AddResult(voted, existing, if addVote && existing == item.id then Added
                                         else if voted != r then DuplicateVoted else DuplicateAlreadyVoted))
    else if item.id in r.items then Failure
    else
      var inserted := r.(items := r.items[item.id := item.(addedAt := now)]);
      Success(AddResult(if addVote then WithVote(inserted, item.id, user, now) else inserted, item.id, Added))
  }

  /** A vote for a stored item; a second vote by the same user changes nothing. */
  function VoteStatement(r: Room, id: nat, user: nat, now: int): Room
  {
    if id in r.items then WithVote(r, id, user, now) else r
  }

  function SkipVoteStatement(r: Room, id: nat, user: nat): Room
  {
    if id in r.items then r.(skips := r.skips + {SkipVote(id, user)}) else r
  }

  function Stopped(r: Room, now: int): Room
  {
    r.(playback := Playback(None, false, 0, now))
  }

  function RemoveStatement(r: Room, id: nat, now: int): Room
  {
    var emptied := WithoutItem(WithoutItemVotes(r, id), id);
    if r.playback.current == Some(id) then Stopped(emptied, now) else emptied
  }

  const METADATA_AGE := 25 * 24 * 60 * 60 * 1000

  function Expired(r: Room, now: int): set<nat>
  {
    set id | id in r.items && r.items[id].source.YouTube? && r.items[id].metadataAt <= now - METADATA_AGE
  }

  function ExpireStatement(r: Room, now: int): Room
  {
    var expired := Expired(r, now);
    Room(r.items - expired,
         (set v | v in r.votes && v.item !in expired),
         (set v | v in r.skips && v.item !in expired),
         if r.playback.current.Some? && r.playback.current.value in expired then Playback(None, false, 0, now)
         else r.playback)
  }

  /** Nothing is current, or the current item is gone or its provider disabled. */
  predicate Idle(r: Room, enabled: set<Source>)
  {
    r.playback.current.None? || r.playback.current.value !in Playable(r, enabled)
  }

  ghost function StartIfIdleStatement(r: Room, now: int, enabled: set<Source>): Room
    requires Keyed(r)
  {
    var head := Head(r, Playable(r, enabled));
    if Idle(r, enabled) && head.Some? then Playing(r, head, now) else r
  }
}
