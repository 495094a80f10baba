/** Playback rows written back from an earlier read, or for an item just added, among all other statements. */
module PlaybackWrites {
  import opened Wrappers
  import opened QueueOrder
  import opened RoomQueue
  import opened QueueInvariant
  import QueueOperations

  /** What a caller holds: the playback row it has read, for the first or the second time; that nothing was
      current, before and after a start was tried; the playback state it will write back; the item it has added,
      before and after it found the item alone in the queue. gone: the item held has left the queue since, and was
      not added again. */
  datatype Phase =
    | RowRead(current: Option<nat>, playing: bool, again: bool)
    | Starting
    | Rereading
    | Held(current: Option<nat>, playing: bool, gone: bool)
    | JustAdded(id: nat, gone: bool)
    | FirstItem(id: nat, gone: bool)

  datatype State = State(room: Room, now: int, callers: map<nat, Phase>)

  datatype Update = Play | Pause | Seek

  datatype Action =
    | Statement(change: Step)
    | ReadRow(caller: nat)
    | ReadItem(caller: nat)
    | Start(caller: nat)
    | AddItem(caller: nat, item: Item, user: nat)
    | CheckFirst(caller: nat)
    | WriteBack(caller: nat, update: Update, positionMs: int)
    | WriteFirst(caller: nat)

  // ---------------------------------------------------------------- items that come and go

  /** The items that a statement takes out of the queue. */
  function LeftBy(r: Room, step: Step, now: int): set<nat>
  {
    match step
    case Remove(id) => {id}
    case ExpireMetadata => Expired(r, now)
    case Advance(removeOnPlay) => if removeOnPlay && r.playback.current.Some? then {r.playback.current.value} else {}
    case _ => {}
  }

  /** The item that a statement finds or puts in the queue. */
  ghost function PutBy(r: Room, step: Step, now: int, enabled: set<Source>): set<nat>
  {
    match step
    case Add(item, user, addVote) =>
      var result := AddStatement(r, item, user, addVote, now, enabled);
      if result.Success? then {result.value.id} else {}
    case _ => {}
  }

  /** Removal, expiry and a remove-on-play advance take items out, adds put one in, and no other statement
      changes them. */
  lemma KeysChange(r: Room, step: Step, now: int, enabled: set<Source>)
    requires Stamped(r, now)
    ensures Apply(r, step, now, enabled).items.Keys ==
            r.items.Keys - LeftBy(r, step, now) + PutBy(r, step, now, enabled)
  {
    hide SelectedNext, Head;
  }

  /** Whether the item is gone after the statement. */
  ghost function GoneBy(r: Room, step: Step, now: int, enabled: set<Source>, id: nat, gone: bool): bool
  {
    if id in PutBy(r, step, now, enabled) then false else gone || id in LeftBy(r, step, now)
  }

  ghost function Aged(phase: Phase, r: Room, step: Step, now: int, enabled: set<Source>): Phase
  {
    match phase
    case Held(current, playing, gone) =>
      if current.Some? then Held(current, playing, GoneBy(r, step, now, enabled, current.value, gone)) else phase
    case JustAdded(id, gone) => JustAdded(id, GoneBy(r, step, now, enabled, id, gone))
    case FirstItem(id, gone) => FirstItem(id, GoneBy(r, step, now, enabled, id, gone))
    case _ => phase
  }

  /** One statement; every caller's item may go or come back with it. */
  ghost function Stated(s: State, step: Step, enabled: set<Source>): (t: State)
    requires Stamped(s.room, s.now)
    ensures Stamped(t.room, t.now)
  {
    State(Apply(s.room, step, s.now, enabled), s.now + 1,
          map c | c in s.callers :: Aged(s.callers[c], s.room, step, s.now, enabled))
  }

  // ---------------------------------------------------------------- the callers

  function Written(r: Room, current: Option<nat>, playing: bool, positionMs: int, now: int): Room
  {
    r.(playback := Playback(current, playing, positionMs, now))
  }

  /** A play without an item starts the room instead of writing. */
  predicate Writes(phase: Phase, update: Update)
  {
    phase.Held? && (update.Play? ==> phase.current.Some?)
  }

  /** Whether the state is written as playing. */
  predicate Plays(phase: Phase, update: Update)
    requires phase.Held?
  {
    match update case Play => true case Pause => false case Seek => phase.playing
  }

  ghost function Act(s: State, action: Action, enabled: set<Source>): (t: State)
    requires Stamped(s.room, s.now)
    ensures Stamped(t.room, t.now)
  {
    match action
    case Statement(change) => Stated(s, change, enabled)
    case ReadRow(c) =>
      if c in s.callers && !s.callers[c].Rereading? then s
      else s.(callers := s.callers[c := RowRead(s.room.playback.current, s.room.playback.playing, c in s.callers)])
    case ReadItem(c) =>
      if c !in s.callers || !s.callers[c].RowRead? then s
      else
        var row := s.callers[c];
        if row.current.Some? && row.current.value in s.room.items
        then s.(callers := s.callers[c := Held(row.current, row.playing, false)])
        else s.(callers := s.callers[c := if row.again then Held(None, row.playing, false) else Starting])
    case Start(c) =>
      if c !in s.callers || !s.callers[c].Starting? then s
      else
        var head := Head(s.room, Playable(s.room, enabled));
        var t := Stated(s, StartIfIdle, enabled);
        var started := Idle(s.room, enabled) && head.Some?;
        t.(callers := t.callers[c := if started then Held(head, true, false) else Rereading])
    case AddItem(c, item, user) =>
      if c in s.callers then s
      else
        var result := AddStatement(s.room, item, user, true, s.now, enabled);
        var t := Stated(s, Add(item, user, true), enabled);
        if result.Success? && result.value.outcome.Added?
          then t.(callers := t.callers[c := JustAdded(result.value.id, false)])
        else t
    case CheckFirst(c) =>
      if c !in s.callers || !s.callers[c].JustAdded? then s
      else if |Visible(s.room, enabled)| == 1
      then s.(callers := s.callers[c := FirstItem(s.callers[c].id, s.callers[c].gone)])
      else s.(callers := s.callers - {c})
    case WriteBack(c, update, positionMs) =>
      if c !in s.callers || !s.callers[c].Held? then s
      else if Writes(s.callers[c], update) then
        s.(room := Written(s.room, s.callers[c].current, Plays(s.callers[c], update), positionMs, s.now),
           now := s.now + 1, callers := s.callers - {c})
      else
        var t := Stated(s, StartIfIdle, enabled);
        t.(callers := t.callers - {c})
    case WriteFirst(c) =>
      if c !in s.callers || !s.callers[c].FirstItem? then s
      else
        s.(room := Written(s.room, Some(s.callers[c].id), true, 0, s.now), now := s.now + 1, callers := s.callers - {c})
  }

  ghost function Run(s: State, actions: seq<Action>, enabled: set<Source>): (t: State)
    requires Stamped(s.room, s.now)
    ensures Stamped(t.room, t.now)
    decreases |actions|
  {
    if actions == [] then s else Run(Act(s, actions[0], enabled), actions[1..], enabled)
  }

  /** The phases that a caller's own action leads to; None is a caller that is not there. */
  ghost predicate Leads(before: Option<Phase>, after: Option<Phase>)
  {
    match before
    case None => after == None || after.value.RowRead? || after.value.JustAdded?
    case Some(phase) =>
      after == before ||
      match phase
      case RowRead(_, _, _) => after.Some? && (after.value.Held? || after.value.Starting?)
      case Starting => after.Some? && (after.value.Held? || after.value.Rereading?)
      case Rereading => after.Some? && after.value.RowRead?
      case Held(_, _, _) => after == None
      case JustAdded(_, _) => after == None || after.value.FirstItem?
      case FirstItem(_, _) => after == None
  }

  function PhaseOf(s: State, caller: nat): Option<Phase>
  {
    if caller in s.callers then Some(s.callers[caller]) else None
  }

  /** Callers go through their phases in order, each by its own actions. */
  lemma PhasesInOrder(s: State, action: Action, enabled: set<Source>)
    requires Stamped(s.room, s.now) && !action.Statement?
    ensures Leads(PhaseOf(s, action.caller), PhaseOf(Act(s, action, enabled), action.caller))
  {
    hide AddStatement, Head, Aged, Stamped;
  }

  /** Undisturbed, a play, pause or seek of an item in the queue stores the item, as playing after a play, as paused
      after a pause, and after a seek as it was, at the position written. */
  lemma UndisturbedWrite(s: State, caller: nat, update: Update, positionMs: int, enabled: set<Source>)
    requires Stamped(s.room, s.now) && caller !in s.callers
    requires s.room.playback.current.Some? && s.room.playback.current.value in s.room.items
    ensures var read := Act(Act(s, ReadRow(caller), enabled), ReadItem(caller), enabled);
            Act(read, WriteBack(caller, update, positionMs), enabled) ==
              s.(room := s.room.(playback := Playback(s.room.playback.current,
                                                      update.Play? || (update.Seek? && s.room.playback.playing),
                                                      positionMs, s.now)),
                 now := s.now + 1)
  {
    ReadHolds(s, caller, enabled);
    var held := Held(s.room.playback.current, s.room.playback.playing, false);
    assert s.callers[caller := held] - {caller} == s.callers;
    hide Stamped;
  }

  lemma ReadHolds(s: State, caller: nat, enabled: set<Source>)
    requires Stamped(s.room, s.now) && caller !in s.callers
    requires s.room.playback.current.Some? && s.room.playback.current.value in s.room.items
    ensures Act(Act(s, ReadRow(caller), enabled), ReadItem(caller), enabled) ==
            s.(callers := s.callers[caller := Held(s.room.playback.current, s.room.playback.playing, false)])
  {
    hide Stamped;
    var row := Act(s, ReadRow(caller), enabled);
    assert row.callers[caller] == RowRead(s.room.playback.current, s.room.playback.playing, false);
  }

  /** With nothing current a caller tries to start the room before it reads again: if an item may be played, it holds
      the one that comes first, else it holds no item. */
  lemma IdleCallerStarts(s: State, caller: nat, enabled: set<Source>)
    requires Stamped(s.room, s.now) && caller !in s.callers && s.room.playback.current.None?
    ensures var tried := Act(Act(Act(s, ReadRow(caller), enabled), ReadItem(caller), enabled), Start(caller), enabled);
            var head := Head(s.room, Playable(s.room, enabled));
            if Playable(s.room, enabled) != {}
            then caller in tried.callers && tried.callers[caller] == Held(head, true, false)
                 && tried.room.playback.current == head && tried.room.playback.playing
            else var read := Act(Act(tried, ReadRow(caller), enabled), ReadItem(caller), enabled);
                 caller in read.callers && read.callers[caller] == Held(None, s.room.playback.playing, false)
                   && read.room == s.room
  {
    HeadIsAnItem(s.room, Playable(s.room, enabled));
    var row := Act(s, ReadRow(caller), enabled);
    assert row.callers[caller] == RowRead(None, s.room.playback.playing, false);
    var starting := Act(row, ReadItem(caller), enabled);
    assert starting.callers[caller] == Starting && starting.room == s.room && starting.now == s.now;
    var tried := Act(starting, Start(caller), enabled);
    hide Head, Aged;
    if Playable(s.room, enabled) == {} {
      assert tried.callers[caller] == Rereading && tried.room == s.room;
      var again := Act(tried, ReadRow(caller), enabled);
      assert again.callers[caller] == RowRead(None, s.room.playback.playing, true);
    }
  }

  /** A song added to a room that lists nothing is played from the start, one added to others is left to the queue. */
  lemma FirstSongStarts(s: State, caller: nat, item: Item, user: nat, enabled: set<Source>)
    requires Stamped(s.room, s.now) && caller !in s.callers && item.id !in s.room.items
    requires AddStatement(s.room, item, user, true, s.now, enabled).Success?
    requires AddStatement(s.room, item, user, true, s.now, enabled).value.outcome.Added?
    ensures var added := Act(s, AddItem(caller, item, user), enabled);
            var checked := Act(added, CheckFirst(caller), enabled);
            && added.now == s.now + 1 && added.room == AddStatement(s.room, item, user, true, s.now, enabled).value.room
            && (if |Visible(added.room, enabled)| == 1
                then Act(checked, WriteFirst(caller), enabled) ==
                       checked.(room := added.room.(playback := Playback(Some(item.id), true, 0, s.now + 1)),
                                now := s.now + 2, callers := checked.callers - {caller})
                else checked == added.(callers := added.callers - {caller}))
  {
    hide AddStatement, Aged, Stamped, Visible;
    var added := Act(s, AddItem(caller, item, user), enabled);
    QueueOperations.AddOutcome(s.room, item, user, true, s.now, enabled);
    assert added.callers[caller] == JustAdded(item.id, false);
  }

  /** A play by a caller that holds no item starts the room instead of writing. */
  lemma PlayWithoutItemStarts(s: State, caller: nat, positionMs: int, enabled: set<Source>)
    requires Stamped(s.room, s.now) && caller in s.callers && s.callers[caller].Held?
             && s.callers[caller].current.None?
    ensures var t := Act(s, WriteBack(caller, Play, positionMs), enabled);
            t.room == StartIfIdleStatement(s.room, s.now, enabled) && t.now == s.now + 1 && caller !in t.callers
  {
    hide Stamped, Aged, StartIfIdleStatement;
  }

  // ---------------------------------------------------------------- the invariant

  /** The queue's invariant without its part on playback. */
  ghost predicate RestInv(r: Room)
  {
    VotesBelong(r) && OneVoteEach(r) && GuardsHold(r)
  }

  /** An item is gone exactly when it is not in the queue. */
  predicate PhaseInv(r: Room, phase: Phase)
  {
    match phase
    case Held(current, _, gone) => current.Some? ==> (gone <==> current.value !in r.items)
    case JustAdded(id, gone) => gone <==> id !in r.items
    case FirstItem(id, gone) => gone <==> id !in r.items
    case _ => true
  }

  ghost predicate StateInv(s: State)
  {
    Stamped(s.room, s.now) && RestInv(s.room) && forall c :: c in s.callers ==> PhaseInv(s.room, s.callers[c])
  }

  lemma RestIsMost(r: Room)
    ensures Inv(r) <==> RestInv(r) && PlaybackBelongs(r)
  {
  }

  lemma AddKeepsRest(r: Room, item: Item, user: nat, addVote: bool, now: int, enabled: set<Source>)
    requires RestInv(r) && AddStatement(r, item, user, addVote, now, enabled).Success?
    ensures RestInv(AddStatement(r, item, user, addVote, now, enabled).value.room)
  {
    var s := AddStatement(r, item, user, addVote, now, enabled).value.room;
    assert GuardsHold(s) by {
      if !HasDuplicate(r, item, addVote) {
        assert forall e :: e in r.items && SameGuard(item, r.items[e]) ==> Resolves(r, item, addVote, e);
      }
    }
  }

  lemma VoteKeepsRest(r: Room, id: nat, user: nat, now: int)
    requires RestInv(r)
    ensures RestInv(VoteStatement(r, id, user, now)) && RestInv(SkipVoteStatement(r, id, user))
  {
  }

  lemma RemovalKeepsRest(r: Room, id: nat, now: int)
    requires RestInv(r)
    ensures RestInv(RemoveStatement(r, id, now)) && RestInv(ExpireStatement(r, now))
  {
  }

  lemma PlaybackKeepsRest(r: Room, removeOnPlay: bool, now: int, enabled: set<Source>)
    requires RestInv(r) && Stamped(r, now)
    ensures RestInv(AdvanceStatement(r, removeOnPlay, now, enabled)) && RestInv(StartIfIdleStatement(r, now, enabled))
  {
    hide Candidates, SelectedNext, Head, Stamped;
  }

  lemma StatementKeepsRest(r: Room, step: Step, now: int, enabled: set<Source>)
    requires RestInv(r) && Stamped(r, now)
    ensures RestInv(Apply(r, step, now, enabled))
  {
    hide RestInv, AddStatement, VoteStatement, SkipVoteStatement, RemoveStatement, ExpireStatement, AdvanceStatement,
         StartIfIdleStatement;
    match step
    case Add(item, user, addVote) =>
      if AddStatement(r, item, user, addVote, now, enabled).Success? {
        AddKeepsRest(r, item, user, addVote, now, enabled);
      }
    case CastVote(id, user) => VoteKeepsRest(r, id, user, now);
    case CastSkipVote(id, user) => VoteKeepsRest(r, id, user, now);
    case Remove(id) => RemovalKeepsRest(r, id, now);
    case ExpireMetadata => RemovalKeepsRest(r, 0, now);
    case Advance(removeOnPlay) => PlaybackKeepsRest(r, removeOnPlay, now, enabled);
    case StartIfIdle => PlaybackKeepsRest(r, false, now, enabled);
  }

  lemma AgedKeeps(r: Room, step: Step, now: int, enabled: set<Source>, phase: Phase)
    requires Stamped(r, now) && PhaseInv(r, phase)
    ensures PhaseInv(Apply(r, step, now, enabled), Aged(phase, r, step, now, enabled))
  {
    hide Apply, LeftBy, PutBy;
    KeysChange(r, step, now, enabled);
  }

  lemma StatedKeeps(s: State, step: Step, enabled: set<Source>)
    requires StateInv(s)
    ensures StateInv(Stated(s, step, enabled))
  {
    hide Apply, PhaseInv, Aged, RestInv;
    StatementKeepsRest(s.room, step, s.now, enabled);
    forall c | c in s.callers
      ensures PhaseInv(Apply(s.room, step, s.now, enabled), Aged(s.callers[c], s.room, step, s.now, enabled))
    {
      AgedKeeps(s.room, step, s.now, enabled, s.callers[c]);
    }
  }

  /** One more phase that fits the room. */
  lemma PhaseKeeps(s: State, c: nat, phase: Phase)
    requires StateInv(s) && PhaseInv(s.room, phase)
    ensures StateInv(s.(callers := s.callers[c := phase])) && StateInv(s.(callers := s.callers - {c}))
  {
    hide PhaseInv, RestInv, Stamped;
  }

  lemma WrittenKeeps(s: State, current: Option<nat>, playing: bool, positionMs: int, c: nat)
    requires StateInv(s)
    ensures StateInv(State(Written(s.room, current, playing, positionMs, s.now), s.now + 1, s.callers - {c}))
  {
  }

  lemma StartKeeps(s: State, c: nat, enabled: set<Source>)
    requires StateInv(s)
    ensures StateInv(Act(s, Start(c), enabled))
  {
    hide RestInv, Stamped, Aged, Apply;
    if c in s.callers && s.callers[c].Starting? {
      assert Keyed(s.room) by { StampedIsKeyed(s.room, s.now); }
      StatedKeeps(s, StartIfIdle, enabled);
      HeadIsAnItem(s.room, Playable(s.room, enabled));
      StartKeepsItems(s.room, s.now, enabled);
      PhaseKeeps(Stated(s, StartIfIdle, enabled), c, Rereading);
      var head := Head(s.room, Playable(s.room, enabled));
      if head.Some? { PhaseKeeps(Stated(s, StartIfIdle, enabled), c, Held(head, true, false)); }
    }
  }

  lemma StampedIsKeyed(r: Room, now: int)
    requires Stamped(r, now)
    ensures Keyed(r)
  {
  }

  lemma StartKeepsItems(r: Room, now: int, enabled: set<Source>)
    requires Stamped(r, now)
    ensures Apply(r, StartIfIdle, now, enabled).items == r.items
  {
    hide Head;
  }

  lemma AddItemKeeps(s: State, c: nat, item: Item, user: nat, enabled: set<Source>)
    requires StateInv(s)
    ensures StateInv(Act(s, AddItem(c, item, user), enabled))
  {
    hide RestInv, Stamped, Aged;
    if c !in s.callers {
      StatedKeeps(s, Add(item, user, true), enabled);
      var result := AddStatement(s.room, item, user, true, s.now, enabled);
      if result.Success? { PhaseKeeps(Stated(s, Add(item, user, true), enabled), c,
        JustAdded(result.value.id, false)); }
    }
  }

  lemma ActKeeps(s: State, action: Action, enabled: set<Source>)
    requires StateInv(s)
    ensures StateInv(Act(s, action, enabled))
  {
    hide RestInv, Stamped, Stated, Head, Visible, AddStatement, Written;
    match action
    case Statement(change) => StatedKeeps(s, change, enabled);
    case ReadRow(c) => PhaseKeeps(s, c, RowRead(s.room.playback.current, s.room.playback.playing, c in s.callers));
    case ReadItem(c) =>
      PhaseKeeps(s, c, Starting);
      if c in s.callers && s.callers[c].RowRead? {
        var row := s.callers[c];
        PhaseKeeps(s, c, Held(None, row.playing, false));
        if row.current.Some? && row.current.value in s.room.items { PhaseKeeps(s, c,
          Held(row.current, row.playing, false)); }
      }
    case Start(c) => StartKeeps(s, c, enabled);
    case AddItem(c, item, user) => AddItemKeeps(s, c, item, user, enabled);
    case CheckFirst(c) =>
      PhaseKeeps(s, c, Starting);
      if c in s.callers && s.callers[c].JustAdded? { PhaseKeeps(s, c, FirstItem(s.callers[c].id, s.callers[c].gone)); }
    case WriteBack(c, update, positionMs) => WriteBackKeeps(s, c, update, positionMs, enabled);
    case WriteFirst(c) =>
      if c in s.callers && s.callers[c].FirstItem? { WrittenKeeps(s, Some(s.callers[c].id), true, 0, c); }
  }

  lemma WriteBackKeeps(s: State, c: nat, update: Update, positionMs: int, enabled: set<Source>)
    requires StateInv(s)
    ensures StateInv(Act(s, WriteBack(c, update, positionMs), enabled))
  {
    hide RestInv, Stamped, Stated, Written;
    if c in s.callers && s.callers[c].Held? {
      if Writes(s.callers[c], update) {
        WrittenKeeps(s, s.callers[c].current, Plays(s.callers[c], update), positionMs, c);
      } else {
        StatedKeeps(s, StartIfIdle, enabled);
        PhaseKeeps(Stated(s, StartIfIdle, enabled), c, Starting);
      }
    }
  }

  /** Over every run, writes of any age included: votes, guards and who holds what stay consistent. */
  lemma {:induction false} RunKeeps(s: State, actions: seq<Action>, enabled: set<Source>)
    requires StateInv(s)
    ensures StateInv(Run(s, actions, enabled))
    decreases |actions|
  {
    hide Act;
    if actions != [] {
      ActKeeps(s, actions[0], enabled);
      RunKeeps(Act(s, actions[0], enabled), actions[1..], enabled);
    }
  }

  // ---------------------------------------------------------------- when a write does harm

  /** Over every run: a playback row written back keeps the queue's invariant if and only if the item held has not
      left the queue since it was read, or came back; a row read without an item, unless it was read as playing and
      is written back by a seek. The row of an item just added keeps it if and only if that item has not left. */
  lemma WriteKeepsIff(room: Room, now: int, actions: seq<Action>, enabled: set<Source>, c: nat, update: Update,
                      positionMs: int)
    requires Stamped(room, now) && Inv(room)
    requires c in Run(State(room, now, map[]), actions, enabled).callers
    ensures var s := Run(State(room, now, map[]), actions, enabled); var phase := s.callers[c];
            && (Writes(phase, update) ==>
                  (Inv(Act(s, WriteBack(c, update, positionMs), enabled).room) <==>
                   if phase.current.Some? then !phase.gone else !(update.Seek? && phase.playing)))
            && (phase.FirstItem? ==> (Inv(Act(s, WriteFirst(c), enabled).room) <==> !phase.gone))
  {
    hide Run, Stamped, Stated, VotesBelong, OneVoteEach, GuardsHold;
    var start := State(room, now, map[]);
    RunKeeps(start, actions, enabled);
    var s := Run(start, actions, enabled);
    assert PhaseInv(s.room, s.callers[c]);
    if Writes(s.callers[c], update) {
      WrittenRest(s.room, s.callers[c].current, Plays(s.callers[c], update), positionMs, s.now);
    }
    if s.callers[c].FirstItem? { WrittenRest(s.room, Some(s.callers[c].id), true, 0, s.now); }
  }

  lemma WrittenRest(r: Room, current: Option<nat>, playing: bool, positionMs: int, now: int)
    requires RestInv(r)
    ensures RestInv(Written(r, current, playing, positionMs, now))
  {
  }

  const SONG := Item(1, SoundCloud, 1, 100, 0, 1, false, 0)

  const PLAYING := Room(map[1 := SONG], {}, {}, Playback(Some(1), true, 0, 1))

  const EMPTY := Room(map[], {}, {}, Playback(None, false, 0, 1))

  /** That happens: a pause writes back the song that another caller has removed between its read and its write, and so
      does the add of a first song that is removed before it is played. */
  lemma RemovalBetweenDangles()
    ensures Stamped(PLAYING, 2) && Inv(PLAYING) && Stamped(EMPTY, 2) && Inv(EMPTY)
    ensures var s := Run(State(PLAYING, 2, map[]),
                         [ReadRow(0)] + ([ReadItem(0)] + ([Statement(Remove(1))] + ([WriteBack(0, Pause, 0)] + []))),
                         {SoundCloud});
            s.room.playback.current == Some(1) && 1 !in s.room.items && !Inv(s.room)
    ensures var s := Run(State(EMPTY, 2, map[]),
                         [AddItem(0, SONG, 0)] + ([CheckFirst(0)] + ([Statement(Remove(1))] + ([WriteFirst(0)] + []))),
                         {SoundCloud});
            s.room.playback.current == Some(1) && 1 !in s.room.items && !Inv(s.room)
  {
    PauseDangles();
    FirstDangles();
  }

  lemma RunCons(s: State, action: Action, rest: seq<Action>, enabled: set<Source>)
    requires Stamped(s.room, s.now)
    ensures Run(s, [action] + rest, enabled) == Run(Act(s, action, enabled), rest, enabled) && Run(s, [], enabled) == s
  {
    hide Act, Stamped;
    assert ([action] + rest)[1..] == rest;
  }

  lemma PauseDangles()
    ensures Stamped(PLAYING, 2) && Inv(PLAYING)
    ensures var s := Run(State(PLAYING, 2, map[]),
                         [ReadRow(0)] + ([ReadItem(0)] + ([Statement(Remove(1))] + ([WriteBack(0, Pause, 0)] + []))),
                         {SoundCloud});
            s.room.playback.current == Some(1) && 1 !in s.room.items && !Inv(s.room)
  {
    hide Run, Stated, Written;
    var enabled := {SoundCloud};
    var s := State(PLAYING, 2, map[]);
    var s1 := Act(s, ReadRow(0), enabled);
    var s2 := Act(s1, ReadItem(0), enabled);
    assert s2.callers[0] == Held(Some(1), true, false);
    ThenDangles(s2, WriteBack(0, Pause, 0), enabled);
    RunFour(s, ReadRow(0), ReadItem(0), Statement(Remove(1)), WriteBack(0, Pause, 0), enabled);
  }

  const ADDED := Room(map[1 := SONG.(addedAt := 2)], {Vote(1, 0, 2)}, {}, Playback(None, false, 0, 1))

  lemma FirstIsAdded(enabled: set<Source>)
    requires enabled == {SoundCloud}
    ensures AddStatement(EMPTY, SONG, 0, true, 2, enabled) == Success(AddResult(ADDED, 1, AddOutcome.Added))
    ensures |Visible(ADDED, enabled)| == 1 && Stamped(ADDED, 3)
  {
    assert !HasDuplicate(EMPTY, SONG, true);
    assert {} + {Vote(1, 0, 2)} == {Vote(1, 0, 2)};
    assert Visible(ADDED, enabled) == {1};
  }

  lemma AddsFirst(enabled: set<Source>)
    requires enabled == {SoundCloud}
    ensures Stamped(EMPTY, 2)
    ensures Act(State(EMPTY, 2, map[]), AddItem(0, SONG, 0), enabled) == State(ADDED, 3, map[0 := JustAdded(1, false)])
  {
    FirstIsAdded(enabled);
    hide AddStatement;
  }

  /** Removed while a caller holds it, the song is current again with that caller's write. */
  lemma ThenDangles(s: State, write: Action, enabled: set<Source>)
    requires Stamped(s.room, s.now) && 0 in s.callers
    requires (s.callers[0] == FirstItem(1, false) && write == WriteFirst(0)) ||
             (s.callers[0] == Held(Some(1), true, false) && write == WriteBack(0, Pause, 0))
    ensures var t := Act(Act(s, Statement(Remove(1)), enabled), write, enabled);
            t.room.playback.current == Some(1) && 1 !in t.room.items && !Inv(t.room)
  {
  }

  lemma FirstDangles()
    ensures Stamped(EMPTY, 2) && Inv(EMPTY)
    ensures var s := Run(State(EMPTY, 2, map[]),
                         [AddItem(0, SONG, 0)] + ([CheckFirst(0)] + ([Statement(Remove(1))] + ([WriteFirst(0)] + []))),
                         {SoundCloud});
            s.room.playback.current == Some(1) && 1 !in s.room.items && !Inv(s.room)
  {
    hide AddStatement, Visible, Run, Stated, Written;
    var enabled := {SoundCloud};
    FirstIsAdded(enabled);
    AddsFirst(enabled);
    var s := State(EMPTY, 2, map[]);
    var s1 := Act(s, AddItem(0, SONG, 0), enabled);
    var s2 := Act(s1, CheckFirst(0), enabled);
    assert s2 == State(ADDED, 3, map[0 := FirstItem(1, false)]);
    ThenDangles(s2, WriteFirst(0), enabled);
    RunFour(s, AddItem(0, SONG, 0), CheckFirst(0), Statement(Remove(1)), WriteFirst(0), enabled);
  }

  lemma RunFour(s: State, a: Action, b: Action, c: Action, d: Action, enabled: set<Source>)
    requires Stamped(s.room, s.now)
    ensures Run(s, [a] + ([b] + ([c] + ([d] + []))), enabled) ==
            Act(Act(Act(Act(s, a, enabled), b, enabled), c, enabled), d, enabled)
  {
    hide Act, Run, Stamped;
    var s1 := Act(s, a, enabled);
    var s2 := Act(s1, b, enabled);
    var s3 := Act(s2, c, enabled);
    RunCons(s, a, [b] + ([c] + ([d] + [])), enabled);
    RunCons(s1, b, [c] + ([d] + []), enabled);
    RunCons(s2, c, [d] + [], enabled);
    RunCons(s3, d, [], enabled);
    RunCons(Act(s3, d, enabled), d, [], enabled);
  }
}
