/** What every run of the queue and playback statements keeps. */
module QueueInvariant {
  import opened Wrappers
  import opened QueueOrder
  import opened RoomQueue

  ghost predicate VotesBelong(r: Room)
  {
    && (forall v :: v in r.votes ==> v.item in r.items)
    && (forall v :: v in r.skips ==> v.item in r.items)
  }

  ghost predicate OneVoteEach(r: Room)
  {
    forall v, w :: v in r.votes && w in r.votes && v.item == w.item && v.user == w.user ==> v == w
  }

  ghost predicate PlaybackBelongs(r: Room)
  {
    && (r.playback.current.Some? ==> r.playback.current.value in r.items)
    && (r.playback.playing ==> r.playback.current.Some?)
  }

  /** The unique key behind ON CONFLICT (room_id, source_type, source_id) WHERE duplicate_guard. */
  predicate SameGuard(a: Item, b: Item)
  {
    a.guarded && b.guarded && a.source == b.source && a.sourceId == b.sourceId
  }

  ghost predicate GuardsHold(r: Room)
  {
    forall a, b :: a in r.items && b in r.items && SameGuard(r.items[a], r.items[b]) ==> a == b
  }

  ghost predicate Inv(r: Room)
  {
    VotesBelong(r) && OneVoteEach(r) && PlaybackBelongs(r) && GuardsHold(r)
  }

  /** One statement by one caller at one time; removeOnPlay is the room's setting at that moment. */
  datatype Step =
    | Add(item: Item, user: nat, addVote: bool)
    | CastVote(id: nat, user: nat)
    | CastSkipVote(id: nat, user: nat)
    | Remove(id: nat)
    | ExpireMetadata
    | Advance(removeOnPlay: bool)
    | StartIfIdle

  ghost function Apply(r: Room, step: Step, now: int, enabled: set<Source>): (s: Room)
    requires Stamped(r, now)
    ensures Stamped(s, now + 1)
  {
    match step
    case Add(item, user, addVote) =>
      var result := AddStatement(r, item, user, addVote, now, enabled);
      if result.Success? then result.value.room else r
    case CastVote(id, user) => VoteStatement(r, id, user, now)
    case CastSkipVote(id, user) => SkipVoteStatement(r, id, user)
    case Remove(id) => RemoveStatement(r, id, now)
    case ExpireMetadata => ExpireStatement(r, now)
    case Advance(removeOnPlay) => AdvanceStatement(r, removeOnPlay, now, enabled)
    case StartIfIdle => StartIfIdleStatement(r, now, enabled)
  }

  datatype Event = Event(step: Step, now: int)

  ghost predicate Clocked(r: Room, run: seq<Event>)
  {
    && Keyed(r)
    && (run != [] ==> Stamped(r, run[0].now))
    && forall i, j :: 0 <= i < j < |run| ==> run[i].now < run[j].now
  }

  ghost function Run(r: Room, run: seq<Event>, enabled: set<Source>): (s: Room)
    requires Clocked(r, run)
    decreases |run|
  {
    if run == [] then r else Run(Apply(r, run[0].step, run[0].now, enabled), run[1..], enabled)
  }

  lemma AddKeeps(r: Room, item: Item, user: nat, addVote: bool, now: int, enabled: set<Source>)
    requires Inv(r) && AddStatement(r, item, user, addVote, now, enabled).Success?
    ensures Inv(AddStatement(r, item, user, addVote, now, enabled).value.room)
  {
    var s := AddStatement(r, item, user, addVote, now, enabled).value.room;
    assert GuardsHold(s) by {
      if !HasDuplicate(r, item, addVote) {
        assert forall e :: e in r.items && SameGuard(item, r.items[e]) ==> Resolves(r, item, addVote, e);
      }
    }
  }

  lemma SelectionBelongs(r: Room, removeOnPlay: bool, now: int, enabled: set<Source>)
    requires Stamped(r, now)
    ensures var next := SelectedNext(r, removeOnPlay, now, enabled);
            next.Some? ==> next.value in r.items && !(removeOnPlay && Some(next.value) == r.playback.current)
  {
    CandidatesHaveNoTies(r, removeOnPlay, now, enabled);
    var candidates := Candidates(r, removeOnPlay, now, enabled);
    if candidates != {} {
      var id :| id in Playable(r, enabled) && Kept(id, r.playback.current, removeOnPlay)
                && CandidateRow(r, removeOnPlay, now, id) == First(candidates);
      assert r.items[id].id == id;
    }
  }

  lemma AdvanceKeeps(r: Room, removeOnPlay: bool, now: int, enabled: set<Source>)
    requires Inv(r) && Stamped(r, now)
    ensures Inv(AdvanceStatement(r, removeOnPlay, now, enabled))
  {
    SelectionBelongs(r, removeOnPlay, now, enabled);
    hide Candidates, SelectedNext;
  }

  lemma VoteKeeps(r: Room, id: nat, user: nat, now: int)
    requires Inv(r)
    ensures Inv(VoteStatement(r, id, user, now)) && Inv(SkipVoteStatement(r, id, user))
  {
  }

  lemma RemovalKeeps(r: Room, id: nat, now: int)
    requires Inv(r)
    ensures Inv(RemoveStatement(r, id, now)) && Inv(ExpireStatement(r, now))
  {
  }

  lemma StartKeeps(r: Room, now: int, enabled: set<Source>)
    requires Inv(r) && Keyed(r)
    ensures Inv(StartIfIdleStatement(r, now, enabled))
  {
    HeadIsAnItem(r, Playable(r, enabled));
    hide Head;
  }

  lemma StepKeeps(r: Room, step: Step, now: int, enabled: set<Source>)
    requires Inv(r) && Stamped(r, now)
    ensures Inv(Apply(r, step, now, enabled))
  {
    hide Inv, AddStatement, VoteStatement, SkipVoteStatement, RemoveStatement, ExpireStatement, AdvanceStatement,
         StartIfIdleStatement;
    match step
    case Add(item, user, addVote) =>
      if AddStatement(r, item, user, addVote, now, enabled).Success? {
        AddKeeps(r, item, user, addVote, now, enabled);
      }
    case CastVote(id, user) => VoteKeeps(r, id, user, now);
    case CastSkipVote(id, user) => VoteKeeps(r, id, user, now);
    case Remove(id) => RemovalKeeps(r, id, now);
    case ExpireMetadata => RemovalKeeps(r, 0, now);
    case Advance(removeOnPlay) => AdvanceKeeps(r, removeOnPlay, now, enabled);
    case StartIfIdle => StartKeeps(r, now, enabled);
  }

  /** Every run of statements, by any callers in any order, keeps the invariant. */
  lemma {:induction false} RunKeeps(r: Room, run: seq<Event>, enabled: set<Source>)
    requires Inv(r) && Clocked(r, run)
    ensures Inv(Run(r, run, enabled))
    decreases |run|
  {
    if run != [] {
      StepKeeps(r, run[0].step, run[0].now, enabled);
      RunKeeps(Apply(r, run[0].step, run[0].now, enabled), run[1..], enabled);
    }
  }
}
