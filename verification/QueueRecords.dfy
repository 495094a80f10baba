/** The queue records that the handlers publish after their statements, and what each tells a client. */
module QueueRecords {
  import opened Wrappers
  import opened QueueOrder
  import opened RoomQueue
  import opened QueueDeltas
  import opened Compaction
  import QueueInvariant
  import QueueOperations

  /** An event without its stream ID. */
  datatype Record = Record(kind: EventType, body: Body, compact: Option<Payload>)

  function Of(e: Event): Record { Record(e.kind, e.body, e.compact) }

  function AsEvent(record: Record, id: nat): Event { Event(id, record.kind, record.body, record.compact) }

  function Records(events: seq<Event>): (records: seq<Record>)
    ensures |records| == |events| && forall i :: 0 <= i < |events| ==> records[i] == Of(events[i])
  {
    seq(|events|, i requires 0 <= i < |events| => Of(events[i]))
  }

  // ---------------------------------------------------------------- what a record tells

  /** The listing behind a record, given the one before it: a queue update carries it, an item record edits it. */
  function Told(q: seq<Shown>, record: Record): seq<Shown>
  {
    if record.body.Queue? && TouchesQueue(record.kind) then Edit(q, record.body.edit) else q
  }

  function ToldAll(q: seq<Shown>, records: seq<Record>): seq<Shown>
    decreases |records|
  {
    if records == [] then q else ToldAll(Told(q, records[0]), records[1..])
  }

  /** A one-item record: it edits the old listing into the new one, and the new one into itself. */
  predicate EditsOne(before: seq<Shown>, after: seq<Shown>, edit: QueueRecord)
  {
    !edit.Snapshot? && Edit(before, edit) == after && Edit(after, edit) == after
  }

  /** A record that fits the listing before it: a queue update with a one-item record or the whole listing as its
      compact form, a lone one-item record, or a record of something else. */
  predicate Fits(q: seq<Shown>, record: Record)
  {
    && WellFormed(AsEvent(record, 0)) && !record.kind.QueueSnapshot?
    && (record.kind.QueueUpdate? && record.compact.Some? ==>
          record.compact.value.body == record.body || EditsOne(q, Told(q, record), record.compact.value.body.edit))
    && (TouchesQueue(record.kind) && !record.kind.QueueUpdate? ==>
          record.body.Queue? && EditsOne(q, Told(q, record), record.body.edit))
  }

  predicate AllFit(q: seq<Shown>, records: seq<Record>)
    decreases |records|
  {
    records == [] || (Fits(q, records[0]) && AllFit(Told(q, records[0]), records[1..]))
  }

  /** Fitting records are faithful: delivered as they are or promoted, they take a client's queue to the
      same listing. */
  lemma FittingIsFaithful(v: View, e: Event)
    requires Fits(v.queue, Of(e))
    ensures WellFormed(e) && FaithfulAt(v, e) && Compaction.Apply(v, Convert(e)).queue == Told(v.queue, Of(e))
  {
  }

  lemma {:induction false} AllFittingAreFaithful(v: View, events: seq<Event>)
    requires AllFit(v.queue, Records(events))
    ensures Faithful(v, events) && Fold(v, events).queue == ToldAll(v.queue, Records(events))
    decreases |events|
  {
    if events != [] {
      FittingIsFaithful(v, events[0]);
      assert Records(events)[0] == Of(events[0]) && Records(events)[1..] == Records(events[1..]);
      hide Fits, Convert, Compaction.Apply, Told;
      AllFittingAreFaithful(Compaction.Apply(v, Convert(events[0])), events[1..]);
    }
  }

  // ---------------------------------------------------------------- what the handlers append

  /** What a handler still has to publish once its statement is stored. */
  datatype Task =
    | Positioning(id: nat)
    | Removing(id: nat)
    | Replacing(compact: bool)
    | Moving(id: nat)
    | Adding(added: Shown)

  /** The search for one item in a listing: its place, or its removal. */
  function PlaceFrom(q: seq<Shown>, id: nat, i: nat): (record: QueueRecord)
    requires i <= |q| && forall j :: 0 <= j < i ==> q[j].item.id != id
    ensures IsDelta(q, id, record)
    decreases |q| - i
  {
    if i == |q| then ItemRemoved(id)
    else if q[i].item.id == id then ItemUpdated(q[i], i)
    else PlaceFrom(q, id, i + 1)
  }

  function Place(q: seq<Shown>, id: nat): (record: QueueRecord)
    ensures IsDelta(q, id, record)
  {
    PlaceFrom(q, id, 0)
  }

  function Lone(edit: QueueRecord): Record
  {
    Record(if edit.ItemRemoved? then ItemRemovedEvent else ItemUpdatedEvent, Queue(edit), None)
  }

  /** A queue update with the listing and the record for one item. */
  function Update(listing: seq<Shown>, edit: QueueRecord): Record
  {
    Record(QueueUpdate, Queue(Snapshot(listing)), Some(Payload(Lone(edit).kind, Queue(edit))))
  }

  function WholeQueue(listing: seq<Shown>, compact: bool): Record
  {
    var body := Queue(Snapshot(listing));
    Record(QueueUpdate, body, if compact then Some(Payload(QueueSnapshot, body)) else None)
  }

  /** The record a handler appends, built from the listing it reads. */
  function Built(task: Task, listing: seq<Shown>): Record
  {
    match task
    case Positioning(id) => Update(listing, Place(listing, id))
    case Removing(id) => Update(listing, ItemRemoved(id))
    case Replacing(compact) => WholeQueue(listing, compact)
    case Moving(id) => Lone(Place(listing, id))
    case Adding(x) => Record(ItemAddedEvent, Queue(ItemAdded(x)), None)
  }

  /** What a statement leaves its handler to publish about the queue. A vote that is already there is refused. again
      tells that an import is retried, or that a removal's check still found the item before the statement. */
  ghost function TaskOf(r: Room, step: QueueInvariant.Step, again: bool, now: int, enabled: set<Source>): Option<Task>
    requires Stamped(r, now)
  {
    match step
    case Add(item, user, addVote) =>
      (match AddStatement(r, item, user, addVote, now, enabled)
       case Failure => None
       case Success(result) =>
         if addVote then
           Some(if result.outcome.DuplicateAlreadyVoted? then Replacing(false) else Positioning(result.id))
         else if again then Some(Replacing(false))
         else if result.outcome.Added? then Some(Adding(Shown(item.(addedAt := now), 0)))
         else None)
    case CastVote(id, user) => if VoteStatement(r, id, user, now) == r then None else Some(Positioning(id))
    case CastSkipVote(_, _) => None
    case Remove(id) => if id in r.items || again then Some(Removing(id)) else None
    case ExpireMetadata => Some(Replacing(true))
    case Advance(_) => if r.playback.current.None? then None else Some(Moving(r.playback.current.value))
    case StartIfIdle => None
  }

  /** Whatever listing a handler reads: its queue update carries exactly that listing. */
  lemma BuiltCarries(task: Task, q: seq<Shown>)
    ensures var record := Built(task, q);
            && WellFormed(AsEvent(record, 0)) && TouchesQueue(record.kind) && !record.kind.QueueSnapshot?
            && (record.kind.QueueUpdate? ==> record.body == Queue(Snapshot(q)))
            && (record.compact.Some? && record.compact.value.body.edit.Snapshot? ==>
               record.compact.value.body == record.body)
  {
  }

  /** The handlers' search finds the same record as the position query. */
  lemma SearchIsPosition(r: Room, id: nat, enabled: set<Source>)
    requires Keyed(r)
    ensures Place(Show(Listing(r, enabled)), id) == PositionRecord(r, id, enabled)
  {
    PositionRecordIsDelta(r, id, enabled);
    DeltaIsUnique(Show(Listing(r, enabled)), id, Place(Show(Listing(r, enabled)), id), PositionRecord(r, id, enabled));
  }

  lemma DeltaIsUnique(q: seq<Shown>, id: nat, a: QueueRecord, b: QueueRecord)
    requires IsDelta(q, id, a) && IsDelta(q, id, b)
    ensures a == b
  {
  }

  /** Replaying the one update that a listing already holds changes nothing. */
  lemma DeltaIsIdempotent(q: seq<Shown>, id: nat, record: QueueRecord)
    requires DistinctIds(q) && IsDelta(q, id, record)
    ensures Edit(q, record) == q
  {
    if record.ItemUpdated? {
      DropThenInsert(q, record.position);
    } else {
      DropAbsent(q, id);
    }
  }

  /** The record of the one touched item edits the old listing into the new one, and the new one into itself. */
  lemma PlaceEditsOne(r: Room, s: Room, id: nat, enabled: set<Source>)
    requires Keyed(r) && Keyed(s) && QueueDeltas.SameBut(r, s, id)
    ensures var after := Show(Listing(s, enabled));
            && EditsOne(Show(Listing(r, enabled)), after, Place(after, id))
            && (id !in s.items ==> Place(after, id) == ItemRemoved(id))
  {
    hide Listing, Place, Keyed, QueueDeltas.SameBut, Edit;
    var after := Show(Listing(s, enabled));
    DeltaIsFaithful(r, s, id, Place(after, id), enabled);
    ListingHasDistinctIds(s, enabled);
    DeltaIsIdempotent(after, id, Place(after, id));
    SearchIsPosition(s, id, enabled);
  }

  lemma DropLast(before: seq<Shown>, x: Shown)
    requires forall y :: y in before ==> y.item.id != x.item.id
    ensures Drop(before + [x], x.item.id) == before
  {
    if before != [] {
      assert (before + [x])[1..] == before[1..] + [x];
      DropLast(before[1..], x);
    }
  }

  lemma AddedEditsOne(before: seq<Shown>, x: Shown)
    requires DistinctIds(before + [x]) && Edit(before, ItemAdded(x)) == before + [x]
    ensures EditsOne(before, before + [x], ItemAdded(x))
  {
    var after := before + [x];
    forall y | y in before ensures y.item.id != x.item.id {
      var i :| 0 <= i < |before| && before[i] == y;
      assert after[i] == y && after[|before|] == x;
    }
    DropLast(before, x);
  }

  /** Statements that change neither items nor votes leave the listing as it is. */
  lemma SameListing(r: Room, s: Room, enabled: set<Source>)
    requires Keyed(r) && r.items == s.items && r.votes == s.votes
    ensures Keyed(s) && Listing(s, enabled) == Listing(r, enabled)
  {
    assert Rows(r, Visible(r, enabled)) == Rows(s, Visible(s, enabled)) by {
      assert forall id :: id in r.items ==> RowOf(r, id) == RowOf(s, id);
    }
  }

  // ---------------------------------------------------------------- every statement

  /** Built from the new listing, its record fits the old one and tells the new one. */
  predicate Does(before: seq<Shown>, after: seq<Shown>, task: Task)
  {
    Fits(before, Built(task, after)) && Told(before, Built(task, after)) == after
  }

  /** A statement without a task leaves the listing alone, one with a task changes it as its record tells. */
  ghost predicate Tells(r: Room, step: QueueInvariant.Step, again: bool, now: int, enabled: set<Source>)
    requires Stamped(r, now)
  {
    var before, after := Show(Listing(r, enabled)), Show(Listing(QueueInvariant.Apply(r, step, now, enabled), enabled));
    match TaskOf(r, step, again, now, enabled)
    case None => after == before
    case Some(task) => Does(before, after, task)
  }

  lemma EditsDo(before: seq<Shown>, after: seq<Shown>, id: nat)
    requires EditsOne(before, after, Place(after, id))
    ensures Does(before, after, Positioning(id)) && Does(before, after, Moving(id))
    ensures Place(after, id) == ItemRemoved(id) ==> Does(before, after, Removing(id))
  {
    hide Place, Drop, InsertAt;
  }

  lemma ReplacingDoes(before: seq<Shown>, after: seq<Shown>, compact: bool)
    ensures Does(before, after, Replacing(compact))
  {
  }

  lemma AddingDoes(before: seq<Shown>, x: Shown)
    requires EditsOne(before, before + [x], ItemAdded(x))
    ensures Does(before, before + [x], Adding(x))
  {
  }

  lemma ManualAddTells(r: Room, item: Item, user: nat, again: bool, now: int, enabled: set<Source>)
    requires Stamped(r, now)
    ensures Tells(r, QueueInvariant.Add(item, user, true), again, now, enabled)
  {
    hide Does, EditsOne, Place, Listing, Keyed, AddStatement, QueueDeltas.SameBut;
    var added := AddStatement(r, item, user, true, now, enabled);
    if added.Success? {
      var s := added.value.room;
      assert Stamped(s, now + 1);
      AddTouchesOne(r, item, user, true, now, enabled);
      PlaceEditsOne(r, s, added.value.id, enabled);
      EditsDo(Show(Listing(r, enabled)), Show(Listing(s, enabled)), added.value.id);
      ReplacingDoes(Show(Listing(r, enabled)), Show(Listing(s, enabled)), false);
    }
  }

  lemma ImportTells(r: Room, item: Item, user: nat, again: bool, now: int, enabled: set<Source>)
    requires Stamped(r, now) && QueueInvariant.Inv(r)
    ensures Tells(r, QueueInvariant.Add(item, user, false), again, now, enabled)
  {
    var added := AddStatement(r, item, user, false, now, enabled);
    if added.Success? {
      var before, after := Show(Listing(r, enabled)), Show(Listing(added.value.room, enabled));
      ReplacingDoes(before, after, false);
      QueueOperations.AddOutcome(r, item, user, false, now, enabled);
      if added.value.outcome.Added? {
        assert VotesFor(r.votes, item.id) == {};
        ImportAppends(r, item, user, now, enabled);
        ListingHasDistinctIds(added.value.room, enabled);
        AddedEditsOne(before, Shown(item.(addedAt := now), 0));
        AddingDoes(before, Shown(item.(addedAt := now), 0));
      } else {
        assert added.value.room == r;
      }
    }
  }

  lemma VoteTouchesOne(r: Room, id: nat, user: nat, now: int)
    ensures QueueDeltas.SameBut(r, VoteStatement(r, id, user, now), id)
  {
  }

  lemma VoteTells(r: Room, id: nat, user: nat, again: bool, now: int, enabled: set<Source>)
    requires Stamped(r, now)
    ensures Tells(r, QueueInvariant.CastVote(id, user), again, now, enabled)
  {
    hide Does, EditsOne, Place, Listing, Keyed, QueueDeltas.SameBut, VoteStatement;
    var s := VoteStatement(r, id, user, now);
    assert s == QueueInvariant.Apply(r, QueueInvariant.CastVote(id, user), now, enabled) && Stamped(s, now + 1);
    VoteTouchesOne(r, id, user, now);
    PlaceEditsOne(r, s, id, enabled);
    EditsDo(Show(Listing(r, enabled)), Show(Listing(s, enabled)), id);
  }

  lemma SkipVoteTells(r: Room, id: nat, user: nat, again: bool, now: int, enabled: set<Source>)
    requires Stamped(r, now)
    ensures Tells(r, QueueInvariant.CastSkipVote(id, user), again, now, enabled)
  {
    hide Listing, Keyed;
    SameListing(r, SkipVoteStatement(r, id, user), enabled);
  }

  lemma RemovalTouchesOne(r: Room, id: nat, now: int)
    requires QueueInvariant.Inv(r)
    ensures var s := RemoveStatement(r, id, now);
            && QueueDeltas.SameBut(r, s, id) && id !in s.items
            && (id !in r.items ==> s.items == r.items && s.votes == r.votes)
  {
    var s := RemoveStatement(r, id, now);
    assert r.items - {id} == s.items - {id};
  }

  lemma RemovalTells(r: Room, id: nat, again: bool, now: int, enabled: set<Source>)
    requires Stamped(r, now) && QueueInvariant.Inv(r)
    ensures Tells(r, QueueInvariant.Remove(id), again, now, enabled)
  {
    hide Does, EditsOne, Place, Listing, Keyed, QueueDeltas.SameBut, RemoveStatement, QueueInvariant.Inv;
    var s := RemoveStatement(r, id, now);
    assert s == QueueInvariant.Apply(r, QueueInvariant.Remove(id), now, enabled) && Stamped(s, now + 1);
    RemovalTouchesOne(r, id, now);
    PlaceEditsOne(r, s, id, enabled);
    EditsDo(Show(Listing(r, enabled)), Show(Listing(s, enabled)), id);
    if id !in r.items { SameListing(r, s, enabled); }
  }

  lemma ExpiryTells(r: Room, again: bool, now: int, enabled: set<Source>)
    requires Stamped(r, now)
    ensures Tells(r, QueueInvariant.ExpireMetadata, again, now, enabled)
  {
    hide Does, Listing, Keyed, ExpireStatement;
    var s := ExpireStatement(r, now);
    assert s == QueueInvariant.Apply(r, QueueInvariant.ExpireMetadata, now, enabled) && Stamped(s, now + 1);
    ReplacingDoes(Show(Listing(r, enabled)), Show(Listing(s, enabled)), true);
  }

  lemma AdvanceTells(r: Room, removeOnPlay: bool, again: bool, now: int, enabled: set<Source>)
    requires Stamped(r, now)
    ensures Tells(r, QueueInvariant.Advance(removeOnPlay), again, now, enabled)
  {
    hide Does, EditsOne, Place, Listing, Keyed, QueueDeltas.SameBut, AdvanceStatement;
    var s := AdvanceStatement(r, removeOnPlay, now, enabled);
    assert s == QueueInvariant.Apply(r, QueueInvariant.Advance(removeOnPlay), now, enabled) && Stamped(s, now + 1);
    if r.playback.current.Some? {
      AdvanceTouchesOne(r, removeOnPlay, now, enabled);
      PlaceEditsOne(r, s, r.playback.current.value, enabled);
      EditsDo(Show(Listing(r, enabled)), Show(Listing(s, enabled)), r.playback.current.value);
    } else {
      SettledRows(r, removeOnPlay, now, enabled);
      SameListing(r, s, enabled);
    }
  }

  lemma StartTells(r: Room, again: bool, now: int, enabled: set<Source>)
    requires Stamped(r, now)
    ensures Tells(r, QueueInvariant.StartIfIdle, again, now, enabled)
  {
    hide Listing, Keyed, Head;
    SameListing(r, StartIfIdleStatement(r, now, enabled), enabled);
  }

  /** Every statement: its handler's record, if read from the listing it leaves, fits the listing before it and tells
      that listing; without a record the listing is as before. */
  lemma StepTells(r: Room, step: QueueInvariant.Step, again: bool, now: int, enabled: set<Source>)
    requires Stamped(r, now) && QueueInvariant.Inv(r)
    ensures Tells(r, step, again, now, enabled)
  {
    hide Tells, QueueInvariant.Inv, Stamped;
    match step
    case Add(item, user, addVote) =>
      if addVote {
        ManualAddTells(r, item, user, again, now, enabled);
      } else {
        ImportTells(r, item, user, again, now, enabled);
      }
    case CastVote(id, user) => VoteTells(r, id, user, again, now, enabled);
    case CastSkipVote(id, user) => SkipVoteTells(r, id, user, again, now, enabled);
    case Remove(id) => RemovalTells(r, id, again, now, enabled);
    case ExpireMetadata => ExpiryTells(r, again, now, enabled);
    case Advance(removeOnPlay) => AdvanceTells(r, removeOnPlay, again, now, enabled);
    case StartIfIdle => StartTells(r, again, now, enabled);
  }
}
