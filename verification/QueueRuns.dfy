/** Runs built to order: given statements, when each handler reads its listing, when the snapshot is read and how the
    records are delivered, a run that does exactly this. */
module QueueRuns {
  import opened Wrappers
  import opened QueueOrder
  import opened RoomQueue
  import opened QueueDeltas
  import opened Compaction
  import opened EventStream
  import opened Subscription
  import opened QueueRecords
  import opened LiveQueue
  import QueueInvariant

  /** Statement i turns room i into room i + 1, at the time now + i; its handler reads the listing after the first
      readings[i] statements, or never if there are fewer. */
  datatype Plan = Plan(rooms: seq<Room>, changes: seq<QueueInvariant.Step>, tasks: seq<Task>, readings: seq<nat>,
    now: int)

  /** A record that is delivered alone, or whole: as the queue update of a batch of two. */
  datatype Delivery = Delivery(handler: nat, whole: bool)

  predicate Sized(p: Plan)
  {
    |p.rooms| == |p.changes| + 1 && |p.tasks| == |p.readings| == |p.changes|
  }

  ghost predicate StepDoes(p: Plan, i: nat, enabled: set<Source>)
    requires Sized(p) && i < |p.changes|
  {
    && Stamped(p.rooms[i], p.now + i) && i < p.readings[i] && (p.tasks[i].Positioning? || p.tasks[i].Removing?)
    && QueueInvariant.Apply(p.rooms[i], p.changes[i], p.now + i, enabled) == p.rooms[i + 1]
    && TaskOf(p.rooms[i], p.changes[i], false, p.now + i, enabled) == Some(p.tasks[i])
  }

  ghost predicate Valid(p: Plan, enabled: set<Source>)
  {
    && Sized(p) && (forall i :: 0 <= i < |p.changes| ==> StepDoes(p, i, enabled))
    && forall v :: 0 <= v < |p.rooms| ==> Stamped(p.rooms[v], p.now + v)
  }

  ghost function ListingAt(p: Plan, v: nat, enabled: set<Source>): seq<Shown>
  {
    if v < |p.rooms| && Keyed(p.rooms[v]) then Show(Listing(p.rooms[v], enabled)) else []
  }

  ghost function RecordAt(p: Plan, i: nat, enabled: set<Source>): Record
    requires Sized(p) && i < |p.tasks|
  {
    Built(p.tasks[i], ListingAt(p, p.readings[i], enabled))
  }

  /** Handler i after v statements and the readings due by then. */
  ghost function HandlerAt(p: Plan, v: nat, i: nat, enabled: set<Source>): Handler
    requires Sized(p) && i < |p.tasks|
  {
    if p.readings[i] <= v then Prepared(RecordAt(p, i, enabled), p.readings[i]) else Stored(p.tasks[i])
  }

  /** The handlers after v statements, when only the first j have done the readings due now. */
  ghost function HandlersAt(p: Plan, v: nat, j: nat, enabled: set<Source>): (handlers: seq<Handler>)
    requires Sized(p) && v <= |p.tasks|
    ensures |handlers| == v
    ensures forall i :: 0 <= i < v ==> handlers[i] == HandlerAt(p, if i < j then v else v - 1, i, enabled)
  {
    seq(v, i requires 0 <= i < v => HandlerAt(p, if i < j then v else v - 1, i, enabled))
  }

  ghost function ListingsAt(p: Plan, v: nat, enabled: set<Source>): (listings: seq<seq<Shown>>)
    ensures |listings| == v + 1 && forall i :: 0 <= i <= v ==> listings[i] == ListingAt(p, i, enabled)
  {
    seq(v + 1, i requires 0 <= i <= v => ListingAt(p, i, enabled))
  }

  ghost function StateAt(p: Plan, s: State, v: nat, j: nat, enabled: set<Source>): State
    requires Sized(p) && v <= |p.changes|
  {
    s.(room := p.rooms[v], now := p.now + v, listings := ListingsAt(p, v, enabled),
       handlers := HandlersAt(p, v, j, enabled))
  }

  // ---------------------------------------------------------------- actions one after the other

  lemma RunCons(s: State, action: Action, rest: seq<Action>, readCount: nat, enabled: set<Source>)
    requires Stamped(s.room, s.now)
    ensures LiveQueue.Run(s, [], readCount, enabled) == s
    ensures LiveQueue.Run(s, [action] + rest, readCount, enabled) ==
            LiveQueue.Run(Act(s, action, readCount, enabled), rest, readCount, enabled)
  {
    hide Act, Stamped;
    assert ([action] + rest)[1..] == rest;
  }

  lemma {:induction false} RunConcat(s: State, a: seq<Action>, b: seq<Action>, readCount: nat, enabled: set<Source>)
    requires Stamped(s.room, s.now)
    ensures LiveQueue.Run(s, a + b, readCount, enabled) ==
            LiveQueue.Run(LiveQueue.Run(s, a, readCount, enabled), b, readCount, enabled)
    decreases |a|
  {
    hide Act, Stamped;
    if a == [] {
      assert a + b == b;
    } else {
      assert (a + b)[1..] == a[1..] + b;
      RunConcat(Act(s, a[0], readCount, enabled), a[1..], b, readCount, enabled);
    }
  }

  // ---------------------------------------------------------------- statements and readings

  /** The readings due after v statements, of the handlers from j on. */
  function ReadsDue(p: Plan, v: nat, j: nat): seq<Action>
    requires Sized(p) && j <= v <= |p.readings|
    decreases v - j
  {
    if j == v then [] else (if p.readings[j] == v then [ReadListing(j)] else []) + ReadsDue(p, v, j + 1)
  }

  lemma ReadingDone(p: Plan, v: nat, j: nat, enabled: set<Source>)
    requires Valid(p, enabled) && j < v <= |p.changes|
    ensures p.readings[j] == v ==>
              HandlersAt(p, v, j, enabled)[j] == Stored(p.tasks[j]) &&
              HandlersAt(p, v, j, enabled)[j := Prepared(RecordAt(p, j, enabled), v)] ==
                HandlersAt(p, v, j + 1, enabled)
    ensures p.readings[j] != v ==> HandlersAt(p, v, j, enabled) == HandlersAt(p, v, j + 1, enabled)
  {
    hide RecordAt, StepDoes;
    assert StepDoes(p, j, enabled);
  }

  lemma ReadingActs(p: Plan, s: State, v: nat, j: nat, readCount: nat, enabled: set<Source>)
    requires Valid(p, enabled) && j < v <= |p.changes| && p.readings[j] == v
    ensures var t := StateAt(p, s, v, j, enabled);
            Stamped(t.room, t.now) && Act(t, ReadListing(j), readCount, enabled) == StateAt(p, s, v, j + 1, enabled)
  {
    hide HandlersAt, ListingsAt, Listing, StepDoes;
    ReadingDone(p, v, j, enabled);
  }

  lemma {:induction false} ReadsRun(p: Plan, s: State, v: nat, j: nat, readCount: nat, enabled: set<Source>)
    requires Valid(p, enabled) && j <= v <= |p.changes|
    ensures Stamped(p.rooms[v], p.now + v)
    ensures LiveQueue.Run(StateAt(p, s, v, j, enabled), ReadsDue(p, v, j), readCount, enabled) ==
            StateAt(p, s, v, v, enabled)
    decreases v - j
  {
    hide HandlersAt, ListingsAt, Act, LiveQueue.Run, StepDoes, Stamped;
    var t := StateAt(p, s, v, j, enabled);
    if j == v {
      RunCons(t, Connect, [], readCount, enabled);
    } else {
      ReadsRun(p, s, v, j + 1, readCount, enabled);
      if p.readings[j] == v {
        ReadingActs(p, s, v, j, readCount, enabled);
        RunCons(t, ReadListing(j), ReadsDue(p, v, j + 1), readCount, enabled);
      } else {
        ReadingDone(p, v, j, enabled);
        assert [] + ReadsDue(p, v, j + 1) == ReadsDue(p, v, j + 1);
      }
    }
  }

  lemma StoredHandlers(p: Plan, v: nat, enabled: set<Source>)
    requires Valid(p, enabled) && v < |p.changes|
    ensures HandlersAt(p, v, v, enabled) + [Stored(p.tasks[v])] == HandlersAt(p, v + 1, 0, enabled)
    ensures ListingsAt(p, v, enabled) + [ListingAt(p, v + 1, enabled)] == ListingsAt(p, v + 1, enabled)
  {
    hide RecordAt, StepDoes, ListingAt;
    assert StepDoes(p, v, enabled);
    assert p.readings[v] > v by { ReadsLater(p, v, enabled); }
  }

  lemma ReadsLater(p: Plan, i: nat, enabled: set<Source>)
    requires Valid(p, enabled) && i < |p.changes|
    ensures p.readings[i] > i
  {
    assert StepDoes(p, i, enabled);
  }

  lemma StoringActs(p: Plan, s: State, v: nat, readCount: nat, enabled: set<Source>)
    requires Valid(p, enabled) && v < |p.changes|
    ensures var t := StateAt(p, s, v, v, enabled);
            && Stamped(t.room, t.now)
            && Act(t, Store(p.changes[v], false, t.now), readCount, enabled) == StateAt(p, s, v + 1, 0, enabled)
  {
    hide HandlersAt, ListingsAt, Listing, TaskOf, QueueInvariant.Apply, Keyed;
    assert StepDoes(p, v, enabled);
    StoredHandlers(p, v, enabled);
    assert Stamped(p.rooms[v + 1], p.now + v + 1);
  }

  /** The statements from the v-th to before the w-th, each followed by the readings due. */
  function Stores(p: Plan, v: nat, w: nat): seq<Action>
    requires Sized(p) && v <= w <= |p.changes|
    decreases w - v
  {
    if v == w then []
    else ([Store(p.changes[v], false, p.now + v)] + ReadsDue(p, v + 1, 0)) + Stores(p, v + 1, w)
  }

  lemma {:induction false} StoresRun(p: Plan, s: State, v: nat, w: nat, readCount: nat, enabled: set<Source>)
    requires Valid(p, enabled) && v <= w <= |p.changes|
    ensures Stamped(p.rooms[v], p.now + v)
    ensures LiveQueue.Run(StateAt(p, s, v, v, enabled), Stores(p, v, w), readCount, enabled) ==
            StateAt(p, s, w, w, enabled)
    decreases w - v
  {
    hide HandlersAt, ListingsAt, Act, LiveQueue.Run, StepDoes, Stamped, ReadsDue;
    var t := StateAt(p, s, v, v, enabled);
    if v == w {
      RunCons(t, Connect, [], readCount, enabled);
    } else {
      StoringActs(p, s, v, readCount, enabled);
      var store := Store(p.changes[v], false, p.now + v);
      RunCons(t, store, ReadsDue(p, v + 1, 0), readCount, enabled);
      ReadsRun(p, s, v + 1, 0, readCount, enabled);
      RunConcat(t, [store] + ReadsDue(p, v + 1, 0), Stores(p, v + 1, w), readCount, enabled);
      StoresRun(p, s, v + 1, w, readCount, enabled);
    }
  }

  // ---------------------------------------------------------------- deliveries

  const READ_COUNT: nat := 2

  function Filler(id: nat): Event { Event(id, OtherEvent("filler"), Raw(""), None) }

  function Batch(record: Record, whole: bool, id: nat): seq<Event>
  {
    if whole then [AsEvent(record, id), Filler(id + 1)] else [AsEvent(record, id)]
  }

  function Others(steps: seq<Step>): seq<Action>
  {
    if steps == [] then [] else [Other(steps[0])] + Others(steps[1..])
  }

  function Taking(batch: seq<Event>): seq<Step>
  {
    [Read, ReadFirst, ReadLast] + Sends(|Deliveries(batch)|)
  }

  /** A record is published, with another event if it is to be delivered whole, and taken at once. */
  function Round(d: Delivery, record: Record, id: nat): seq<Action>
  {
    ([Append(d.handler, id, 2)] + (if d.whole then [Other(Redis(Add(Filler(id + 1), 3)))] else [])) +
    Others(Taking(Batch(record, d.whole, id)))
  }

  /** Connected and caught up, the newest stored record at the cursor. */
  ghost predicate Ready(s: State)
  {
    && Stamped(s.room, s.now) && s.connected && s.system.sub.phase.Waiting? && LogInv(s.system.log)
    && s.system.log.records != [] && s.system.sub.cursor != 0
    && LastId(s.system.log.records) == LastId(s.system.log.history) == Some(s.system.sub.cursor)
  }

  lemma {:induction false} OthersRun(s: State, steps: seq<Step>, readCount: nat, enabled: set<Source>)
    requires Stamped(s.room, s.now) && s.connected && forall step :: step in steps ==> !step.Redis?
    ensures LiveQueue.Run(s, Others(steps), readCount, enabled) ==
            s.(system := Subscription.Run(s.system, steps, readCount))
    decreases |steps|
  {
    hide LiveQueue.Run, Subscription.Apply, Stamped;
    if steps == [] {
      RunCons(s, Connect, [], readCount, enabled);
    } else {
      assert steps[0] in steps && forall step :: step in steps[1..] ==> step in steps;
      var t := s.(system := Subscription.Apply(s.system, steps[0], readCount));
      assert Act(s, Other(steps[0]), readCount, enabled) == t;
      RunCons(s, Other(steps[0]), Others(steps[1..]), readCount, enabled);
      OthersRun(t, steps[1..], readCount, enabled);
    }
  }

  lemma TakingIsQuiet(batch: seq<Event>)
    ensures forall step :: step in Taking(batch) ==> !step.Redis?
  {
    SendsAreQuiet(|Deliveries(batch)|);
    hide Sends, Deliveries;
  }

  lemma {:induction false} SendsAreQuiet(count: nat)
    ensures forall step :: step in Sends(count) ==> step.Send?
  {
    if count > 0 { SendsAreQuiet(count - 1); }
  }

  /** The subscriber once it has taken one batch more. */
  function Took(sub: Subscriber, batch: seq<Event>): Subscriber
    requires batch != []
  {
    Subscriber(sub.start, batch[|batch| - 1].id, Waiting, sub.batches + [batch], sub.messages + Deliveries(batch))
  }

  /** The stream right before it is read: what was taken last, and the new batch. */
  ghost predicate Fresh(s: State, before: Event, batch: seq<Event>)
  {
    && Stamped(s.room, s.now) && s.connected && s.system.sub.phase.Waiting? && LogInv(s.system.log)
    && s.system.log.records == [before] + batch && 0 < before.id == s.system.sub.cursor
    && 0 < |batch| <= 2 && LastId(s.system.log.history) == LastId(batch)
  }

  lemma FreshIsRead(s: State, before: Event, batch: seq<Event>)
    requires Fresh(s, before, batch)
    ensures ReadAfter(s.system.log.records, s.system.sub.cursor, READ_COUNT) == batch
    ensures s.system.sub.cursor < s.system.log.records[|s.system.log.records| - 1].id
  {
    var records := s.system.log.records;
    StoredPosition(s.system.log, s.system.sub.cursor);
    assert records[0] == before && records[1] == batch[0] && records[0].id < records[1].id;
    UptoIs(records, before.id, 1);
    assert records[1..] == batch && records[|records| - 1] == batch[|batch| - 1];
    assert records[0].id < records[|records| - 1].id;
  }

  lemma TakingRuns(s: State, before: Event, batch: seq<Event>, enabled: set<Source>)
    requires Fresh(s, before, batch)
    ensures var t := s.(system := s.system.(sub := Took(s.system.sub, batch)));
            LiveQueue.Run(s, Others(Taking(batch)), READ_COUNT, enabled) == t && Ready(t)
  {
    hide LiveQueue.Run, Subscription.Run, Deliveries, ReadAfter, Stamped, LogInv, Taking, Others;
    FreshIsRead(s, before, batch);
    RoundIs(s.system, batch);
    TakingIsQuiet(batch);
    OthersRun(s, Taking(batch), READ_COUNT, enabled);
    LastIsPositive(s, before, batch);
  }

  lemma RoundIs(system: System, batch: seq<Event>)
    requires system.sub.phase.Waiting? && LogInv(system.log) && system.log.records != [] && system.sub.cursor != 0
    requires system.log.records[0].id <= system.sub.cursor < system.log.records[|system.log.records| - 1].id
    requires batch != [] && ReadAfter(system.log.records, system.sub.cursor, READ_COUNT) == batch
    ensures Subscription.Run(system, Taking(batch), READ_COUNT) == system.(sub := Took(system.sub, batch))
  {
    hide Subscription.Run, Deliveries, ReadAfter, LogInv;
    RoundDelivers(system, READ_COUNT);
  }

  lemma LastIsPositive(s: State, before: Event, batch: seq<Event>)
    requires Fresh(s, before, batch)
    ensures batch[|batch| - 1].id > 0 && LastId(s.system.log.records) == Some(batch[|batch| - 1].id)
  {
    assert s.system.log.records[|s.system.log.records| - 1] == batch[|batch| - 1];
  }

  lemma NewestTwo(records: seq<Event>, e: Event)
    requires records != []
    ensures Newest(records + [e], 2) == [records[|records| - 1]] + [e]
  {
  }

  lemma NewestThree(before: Event, e: Event, f: Event)
    ensures Newest([before] + [e] + [f], 3) == [before] + [e, f]
  {
  }

  lemma ReadyIsStamped(s: State)
    requires Ready(s)
    ensures Stamped(s.room, s.now) && LogInv(s.system.log)
  {
  }

  /** The record is in the stream. */
  lemma PublishActs(s: State, d: Delivery, id: nat, enabled: set<Source>)
    requires Ready(s) && d.handler < |s.handlers| && s.handlers[d.handler].Prepared? && s.system.sub.cursor < id
    ensures var record := s.handlers[d.handler].record;
            var t := Act(s, Append(d.handler, id, 2), READ_COUNT, enabled);
            && Fresh(t, s.system.log.records[|s.system.log.records| - 1], [AsEvent(record, id)])
            && t == s.(handlers := s.handlers[d.handler := Done],
                       entries := s.entries + [Entry(record, d.handler, s.handlers[d.handler].readAt)],
                       system := System(t.system.log, s.system.sub))
  {
    hide Newest, Ascending, IsSuffix, Stamped;
    var e := AsEvent(s.handlers[d.handler].record, id);
    NewestTwo(s.system.log.records, e);
    ExecuteKeeps(s.system.log, Add(e, 2));
  }

  /** Another event is behind it. */
  lemma FillerActs(s: State, before: Event, e: Event, enabled: set<Source>)
    requires Fresh(s, before, [e])
    ensures var t := Act(s, Other(Redis(Add(Filler(e.id + 1), 3))), READ_COUNT, enabled);
            Fresh(t, before, [e, Filler(e.id + 1)]) && t == s.(system := System(t.system.log, s.system.sub))
  {
    hide Newest, Ascending, IsSuffix, Stamped;
    NewestThree(before, e, Filler(e.id + 1));
    ExecuteKeeps(s.system.log, Add(Filler(e.id + 1), 3));
  }

  /** The state after one more record was published and taken. */
  lemma RoundRun(s: State, d: Delivery, id: nat, enabled: set<Source>) returns (t: State)
    requires Ready(s) && d.handler < |s.handlers| && s.handlers[d.handler].Prepared? && s.system.sub.cursor < id
    ensures Stamped(s.room, s.now)
    ensures var prepared := s.handlers[d.handler];
            && t == LiveQueue.Run(s, Round(d, prepared.record, id), READ_COUNT, enabled) && Ready(t)
            && t == s.(handlers := s.handlers[d.handler := Done],
                       entries := s.entries + [Entry(prepared.record, d.handler, prepared.readAt)],
                       system := System(t.system.log, Took(s.system.sub, Batch(prepared.record, d.whole, id))))
  {
    hide Act, LiveQueue.Run, Ready, Fresh, Taking, Others, Stamped, Deliveries;
    ReadyIsStamped(s);
    ReadyHasRecords(s);
    var record, before := s.handlers[d.handler].record, s.system.log.records[|s.system.log.records| - 1];
    var publish, filler := Append(d.handler, id, 2), Other(Redis(Add(Filler(id + 1), 3)));
    PublishActs(s, d, id, enabled);
    var s1 := Act(s, publish, READ_COUNT, enabled);
    t := LiveQueue.Run(s, Round(d, record, id), READ_COUNT, enabled);
    var take := Others(Taking(Batch(record, d.whole, id)));
    if d.whole {
      FillerActs(s1, before, AsEvent(record, id), enabled);
      var s2 := Act(s1, filler, READ_COUNT, enabled);
      TakingRuns(s2, before, [AsEvent(record, id), Filler(id + 1)], enabled);
      RunCons(s, publish, [filler] + take, READ_COUNT, enabled);
      RunCons(s1, filler, take, READ_COUNT, enabled);
      assert ([publish] + [filler]) + take == [publish] + ([filler] + take);
    } else {
      TakingRuns(s1, before, [AsEvent(record, id)], enabled);
      RunCons(s, publish, take, READ_COUNT, enabled);
      assert ([publish] + []) + take == [publish] + take;
    }
  }

  lemma ReadyHasRecords(s: State)
    requires Ready(s)
    ensures s.system.log.records != []
  {
  }

  predicate Distinct(ds: seq<Delivery>)
  {
    forall i, j :: 0 <= i < j < |ds| ==> ds[i].handler != ds[j].handler
  }

  predicate AllPrepared(handlers: seq<Handler>, ds: seq<Delivery>)
  {
    forall i :: 0 <= i < |ds| ==> ds[i].handler < |handlers| && handlers[ds[i].handler].Prepared?
  }

  function Rounds(handlers: seq<Handler>, ds: seq<Delivery>, id: nat): seq<Action>
    requires AllPrepared(handlers, ds)
  {
    if ds == [] then [] else Round(ds[0], handlers[ds[0].handler].record, id) + Rounds(handlers, ds[1..], id + 2)
  }

  function EntriesOf(handlers: seq<Handler>, ds: seq<Delivery>): seq<Entry>
    requires AllPrepared(handlers, ds)
  {
    if ds == [] then []
    else
      [Entry(handlers[ds[0].handler].record, ds[0].handler, handlers[ds[0].handler].readAt)] +
      EntriesOf(handlers, ds[1..])
  }

  function BatchesOf(handlers: seq<Handler>, ds: seq<Delivery>, id: nat): seq<seq<Event>>
    requires AllPrepared(handlers, ds)
  {
    if ds == [] then []
    else [Batch(handlers[ds[0].handler].record, ds[0].whole, id)] + BatchesOf(handlers, ds[1..], id + 2)
  }

  lemma {:induction false} SameRounds(handlers: seq<Handler>, other: seq<Handler>, ds: seq<Delivery>, id: nat)
    requires AllPrepared(handlers, ds) && |other| == |handlers|
    requires forall i :: 0 <= i < |ds| ==> other[ds[i].handler] == handlers[ds[i].handler]
    ensures AllPrepared(other, ds) && Rounds(other, ds, id) == Rounds(handlers, ds, id)
    ensures EntriesOf(other, ds) == EntriesOf(handlers, ds) && BatchesOf(other, ds, id) == BatchesOf(handlers, ds, id)
    decreases |ds|
  {
    hide Round, Batch;
    if ds != [] {
      assert forall i :: 0 <= i < |ds[1..]| ==> ds[1..][i] == ds[i + 1];
      assert ds[0] == ds[0] && other[ds[0].handler] == handlers[ds[0].handler];
      SameRounds(handlers, other, ds[1..], id + 2);
    }
  }

  /** Records published and taken one after the other. */
  lemma {:induction false} RoundsRun(s: State, ds: seq<Delivery>, id: nat, enabled: set<Source>) returns (t: State)
    requires Ready(s) && AllPrepared(s.handlers, ds) && Distinct(ds) && s.system.sub.cursor < id
    ensures Stamped(s.room, s.now) && t == LiveQueue.Run(s, Rounds(s.handlers, ds, id), READ_COUNT, enabled) && Ready(t)
    ensures |t.handlers| == |s.handlers|
    ensures t == s.(handlers := t.handlers, entries := s.entries + EntriesOf(s.handlers, ds), system := t.system)
    ensures t.system.sub.batches == s.system.sub.batches + BatchesOf(s.handlers, ds, id)
    ensures t.system.sub.messages == s.system.sub.messages + DeliverAll(BatchesOf(s.handlers, ds, id))
    decreases |ds|
  {
    hide Act, LiveQueue.Run, Ready, Round, Batch, Stamped, Deliveries;
    ReadyIsStamped(s);
    if ds == [] {
      RunCons(s, Connect, [], READ_COUNT, enabled);
      t := s;
    } else {
      var d, rest := ds[0], ds[1..];
      var record := s.handlers[d.handler].record;
      var next := RoundRun(s, d, id, enabled);
      ReadyIsStamped(next);
      assert forall i :: 0 <= i < |rest| ==> rest[i] == ds[i + 1] && rest[i].handler != d.handler;
      SameRounds(s.handlers, next.handlers, rest, id + 2);
      BatchEndsBy(record, d.whole, id);
      t := RoundsRun(next, rest, id + 2, enabled);
      RunConcat(s, Round(d, record, id), Rounds(s.handlers, rest, id + 2), READ_COUNT, enabled);
      var batch, batches := Batch(record, d.whole, id), BatchesOf(s.handlers, rest, id + 2);
      Associate(s.system.sub.batches, [batch], batches);
      Associate(s.system.sub.messages, Deliveries(batch), DeliverAll(batches));
      assert ([batch] + batches)[1..] == batches;
      Associate(s.entries, [Entry(record, d.handler, s.handlers[d.handler].readAt)], EntriesOf(s.handlers, rest));
    }
  }

  lemma BatchEndsBy(record: Record, whole: bool, id: nat)
    ensures var batch := Batch(record, whole, id); batch != [] && batch[|batch| - 1].id <= id + 1
  {
  }

  // ---------------------------------------------------------------- the whole run

  const CREATED := Event(1, OtherEvent("created"), Raw(""), None)

  const OPENING: seq<Action> := [Other(Redis(Add(CREATED, 2)))] + ([Connect] + [])

  /** Connected to a stream without queue records. */
  ghost function Opened(p: Plan, enabled: set<Source>): State
    requires Sized(p) && Keyed(p.rooms[0])
  {
    Start(p.rooms[0], p.now, enabled).(connected := true,
                                       system := Subscribe(Log([CREATED], [CREATED], false), 1))
  }

  lemma OpeningRun(p: Plan, enabled: set<Source>)
    requires Sized(p) && Stamped(p.rooms[0], p.now)
    ensures LiveQueue.Run(Start(p.rooms[0], p.now, enabled), OPENING, READ_COUNT, enabled) == Opened(p, enabled)
    ensures StateAt(p, Opened(p, enabled), 0, 0, enabled) == Opened(p, enabled)
  {
    hide Listing;
    var s := Start(p.rooms[0], p.now, enabled);
    var s1 := Act(s, Other(Redis(Add(CREATED, 2))), READ_COUNT, enabled);
    assert [] + [CREATED] == [CREATED] && s1 == s.(system := System(Log([CREATED], [CREATED], false), s.system.sub));
    var s2 := Act(s1, Connect, READ_COUNT, enabled);
    RunCons(s, Other(Redis(Add(CREATED, 2))), [Connect] + [], READ_COUNT, enabled);
    RunCons(s1, Connect, [], READ_COUNT, enabled);
    RunCons(s2, Connect, [], READ_COUNT, enabled);
    assert ListingsAt(p, 0, enabled) == [Show(Listing(p.rooms[0], enabled))] && HandlersAt(p, 0, 0, enabled) == [];
  }

  lemma SnapshotActs(p: Plan, s: State, k: nat, enabled: set<Source>)
    requires Valid(p, enabled) && k <= |p.changes| && s.connected
    ensures var t := StateAt(p, s, k, k, enabled);
            && Stamped(t.room, t.now)
            && Act(t, ReadSnapshot, READ_COUNT, enabled) ==
                 StateAt(p, s.(snapshot := Some(ListingAt(p, k, enabled)), snapshotAt := k), k, k, enabled)
  {
    hide HandlersAt, ListingsAt, Listing, StepDoes;
  }

  /** Every handler once all statements are stored and all readings due are done. */
  ghost function HandlersOf(p: Plan, enabled: set<Source>): seq<Handler>
    requires Sized(p)
  {
    HandlersAt(p, |p.changes|, |p.changes|, enabled)
  }

  /** The deliveries are of different handlers that have read their listings. */
  predicate Deliverable(p: Plan, ds: seq<Delivery>)
    requires Sized(p)
  {
    Distinct(ds) && forall i :: 0 <= i < |ds| ==>
      ds[i].handler < |p.changes| && p.readings[ds[i].handler] <= |p.changes|
  }

  lemma DeliverableIsPrepared(p: Plan, ds: seq<Delivery>, enabled: set<Source>)
    requires Sized(p) && Deliverable(p, ds)
    ensures AllPrepared(HandlersOf(p, enabled), ds)
  {
  }

  ghost function Script(p: Plan, k: nat, ds: seq<Delivery>, enabled: set<Source>): seq<Action>
    requires Sized(p) && k <= |p.changes| && Deliverable(p, ds)
  {
    DeliverableIsPrepared(p, ds, enabled);
    OPENING + (Stores(p, 0, k) + ([ReadSnapshot] + (Stores(p, k, |p.changes|) + Rounds(HandlersOf(p, enabled), ds, 2))))
  }

  /** All statements stored, the snapshot read after the first k, no record published yet. */
  ghost function AllStored(p: Plan, k: nat, enabled: set<Source>): State
    requires Sized(p) && Keyed(p.rooms[0])
  {
    StateAt(p, Opened(p, enabled).(snapshot := Some(ListingAt(p, k, enabled)), snapshotAt := k),
            |p.changes|, |p.changes|, enabled)
  }

  lemma ScriptStores(p: Plan, k: nat, ds: seq<Delivery>, enabled: set<Source>)
    requires Valid(p, enabled) && k <= |p.changes| && Deliverable(p, ds)
    ensures AllPrepared(HandlersOf(p, enabled), ds) && Stamped(p.rooms[0], p.now)
    ensures var t := AllStored(p, k, enabled);
            && Ready(t) && t.handlers == HandlersOf(p, enabled) && t.system.sub.cursor == 1
            && LiveQueue.Run(Start(p.rooms[0], p.now, enabled), Script(p, k, ds, enabled), READ_COUNT, enabled) ==
                 LiveQueue.Run(t, Rounds(HandlersOf(p, enabled), ds, 2), READ_COUNT, enabled)
  {
    hide Act, LiveQueue.Run, HandlersAt, ListingsAt, Listing, StepDoes, Stores, Rounds;
    assert Stamped(p.rooms[0], p.now + 0);
    var n := |p.changes|;
    DeliverableIsPrepared(p, ds, enabled);
    var rounds := Rounds(HandlersOf(p, enabled), ds, 2);
    OpeningRun(p, enabled);
    var s, opening := Start(p.rooms[0], p.now, enabled), Opened(p, enabled);
    var read := opening.(snapshot := Some(ListingAt(p, k, enabled)), snapshotAt := k);
    RunConcat(s, OPENING, Stores(p, 0, k) + ([ReadSnapshot] + (Stores(p, k, n) + rounds)), READ_COUNT, enabled);
    StoresRun(p, opening, 0, k, READ_COUNT, enabled);
    RunConcat(opening, Stores(p, 0, k), [ReadSnapshot] + (Stores(p, k, n) + rounds), READ_COUNT, enabled);
    SnapshotActs(p, opening, k, enabled);
    RunCons(StateAt(p, opening, k, k, enabled), ReadSnapshot, Stores(p, k, n) + rounds, READ_COUNT, enabled);
    StoresRun(p, read, k, n, READ_COUNT, enabled);
    RunConcat(StateAt(p, read, k, k, enabled), Stores(p, k, n), rounds, READ_COUNT, enabled);
    assert Stamped(p.rooms[n], p.now + n);
  }

  lemma ReadyIsCaughtUp(s: State)
    requires Ready(s) && s.snapshot.Some?
    ensures CaughtUp(s)
  {
  }

  /** The run does what was ordered. */
  lemma Realized(p: Plan, k: nat, ds: seq<Delivery>, enabled: set<Source>) returns (end: State)
    requires Valid(p, enabled) && k <= |p.changes| && Deliverable(p, ds)
    ensures Stamped(p.rooms[0], p.now)
    ensures end == LiveQueue.Run(Start(p.rooms[0], p.now, enabled), Script(p, k, ds, enabled), READ_COUNT, enabled)
    ensures CaughtUp(end) && Stamped(end.room, end.now) && end.room == p.rooms[|p.changes|]
    ensures |end.handlers| == |p.changes| && end.snapshot == Some(ListingAt(p, k, enabled)) && end.snapshotAt == k
    ensures AllPrepared(HandlersOf(p, enabled), ds)
    ensures Schedule(end) == Slots(Effective(BatchesOf(HandlersOf(p, enabled), ds, 2)),
            EntriesOf(HandlersOf(p, enabled), ds))
    ensures end.system.sub.messages == DeliverAll(BatchesOf(HandlersOf(p, enabled), ds, 2))
  {
    hide LiveQueue.Run, Ready, CaughtUp, Keyed, Script, HandlersAt, Deliveries, Effective, Slots, Rounds, EntriesOf,
         BatchesOf;
    ScriptStores(p, k, ds, enabled);
    var t, handlers := AllStored(p, k, enabled), HandlersOf(p, enabled);
    end := RoundsRun(t, ds, 2, enabled);
    ReadyIsStamped(end);
    ReadyIsCaughtUp(end);
    Associate([], EntriesOf(handlers, ds), []);
    Associate([], BatchesOf(handlers, ds, 2), []);
    Associate([], DeliverAll(BatchesOf(handlers, ds, 2)), []);
    assert end.entries[0..] == end.entries;
  }

  // ---------------------------------------------------------------- its schedule and its view

  function SlotsOf(p: Plan, ds: seq<Delivery>): (slots: seq<Slot>)
    requires Sized(p) && forall i :: 0 <= i < |ds| ==> ds[i].handler < |p.changes|
    ensures |slots| == |ds|
    ensures forall i :: 0 <= i < |ds| ==> slots[i] == Slot(ds[i].handler, p.readings[ds[i].handler], ds[i].whole)
  {
    if ds == [] then [] else [Slot(ds[0].handler, p.readings[ds[0].handler], ds[0].whole)] + SlotsOf(p, ds[1..])
  }

  ghost function EditOf(p: Plan, i: nat, enabled: set<Source>): QueueRecord
    requires Sized(p) && i < |p.tasks|
  {
    match p.tasks[i]
    case Positioning(id) => Place(ListingAt(p, p.readings[i], enabled), id)
    case Removing(id) => ItemRemoved(id)
    case _ => Snapshot([])
  }

  /** What one delivery makes of a queue. */
  ghost function Played(p: Plan, q: seq<Shown>, d: Delivery, enabled: set<Source>): seq<Shown>
    requires Sized(p) && d.handler < |p.changes|
  {
    if d.whole then ListingAt(p, p.readings[d.handler], enabled) else Edit(q, EditOf(p, d.handler, enabled))
  }

  ghost function Play(p: Plan, q: seq<Shown>, ds: seq<Delivery>, enabled: set<Source>): seq<Shown>
    requires Sized(p) && forall i :: 0 <= i < |ds| ==> ds[i].handler < |p.changes|
    decreases |ds|
  {
    if ds == [] then q else Play(p, Played(p, q, ds[0], enabled), ds[1..], enabled)
  }

  /** The effective records of one batch: its queue record is whole exactly as ordered. */
  lemma OneBatch(p: Plan, v: View, d: Delivery, id: nat, enabled: set<Source>)
    requires Sized(p) && d.handler < |p.changes| && (p.tasks[d.handler].Positioning? || p.tasks[d.handler].Removing?)
    ensures var record := RecordAt(p, d.handler, enabled);
            var e := if d.whole then Promote(AsEvent(record, id)) else AsEvent(record, id);
            && Effective([Batch(record, d.whole, id)]) == (if d.whole then [e, Filler(id + 1)] else [e])
            && TouchesQueue(e.kind) && IsWhole(e) == d.whole && WellFormed(AsEvent(record, id))
            && Compaction.Apply(v, Convert(e)).queue == Played(p, v.queue, d, enabled)
  {
    hide Place, ListingAt, Edit;
    var batch := Batch(RecordAt(p, d.handler, enabled), d.whole, id);
    var batches: seq<seq<Event>> := [batch];
    assert batches[1..] == [] && Effective(batches[1..]) == [];
    SnapshotEdit(v.queue, ListingAt(p, p.readings[d.handler], enabled));
    if d.whole { assert PromoteAll(batch) == [Promote(batch[0]), Promote(batch[1])]; }
  }

  lemma SnapshotEdit(q: seq<Shown>, items: seq<Shown>)
    ensures Edit(q, Snapshot(items)) == items
  {
  }

  lemma EffectiveCons(batch: seq<Event>, rest: seq<seq<Event>>)
    ensures Effective([batch] + rest) == Effective([batch]) + Effective(rest)
  {
    var alone: seq<seq<Event>> := [batch];
    assert (alone + rest)[1..] == rest && alone[1..] == [] && Effective(alone[1..]) == [];
  }

  lemma SlotsCons(e: Event, filler: bool, id: nat, rest: seq<Event>, entry: Entry, entries: seq<Entry>)
    requires TouchesQueue(e.kind)
    ensures Slots((if filler then [e, Filler(id)] else [e]) + rest, [entry] + entries) ==
            [Slot(entry.storedAt, entry.readAt, IsWhole(e))] + Slots(rest, entries)
  {
    hide IsWhole;
    assert ([entry] + entries)[1..] == entries;
    if filler {
      assert ([e, Filler(id)] + rest)[1..] == [Filler(id)] + rest && ([Filler(id)] + rest)[1..] == rest;
      assert Slots([Filler(id)] + rest, entries) == Slots(rest, entries) by { if entries == [] { NoSlots(rest); } }
    } else {
      assert ([e] + rest)[1..] == rest;
    }
  }

  lemma FoldCons(v: View, e: Event, filler: bool, id: nat, rest: seq<Event>)
    ensures var w := Compaction.Apply(v, Convert(e));
            exists u: View :: u.queue == w.queue &&
              Fold(v, (if filler then [e, Filler(id)] else [e]) + rest) == Fold(u, rest)
  {
    hide Convert, Compaction.Apply;
    var w := Compaction.Apply(v, Convert(e));
    if filler {
      var u := Compaction.Apply(w, Convert(Filler(id)));
      FillerShows(w, id);
      assert ([e, Filler(id)] + rest)[1..] == [Filler(id)] + rest && ([Filler(id)] + rest)[1..] == rest;
      assert Fold(v, [e, Filler(id)] + rest) == Fold(w, [Filler(id)] + rest) == Fold(u, rest);
    } else {
      assert ([e] + rest)[1..] == rest;
    }
  }

  lemma FillerShows(v: View, id: nat)
    ensures Compaction.Apply(v, Convert(Filler(id))).queue == v.queue
  {
  }

  /** Schedule and view are those of the order given. */
  lemma {:induction false} DeliveriesAre(p: Plan, v: View, ds: seq<Delivery>, id: nat, enabled: set<Source>)
    requires Valid(p, enabled) && Deliverable(p, ds) && AllPrepared(HandlersOf(p, enabled), ds)
    ensures var handlers := HandlersOf(p, enabled);
            && Slots(Effective(BatchesOf(handlers, ds, id)), EntriesOf(handlers, ds)) == SlotsOf(p, ds)
            && Fold(v, Effective(BatchesOf(handlers, ds, id))).queue == Play(p, v.queue, ds, enabled)
            && forall e :: e in Flatten(BatchesOf(handlers, ds, id)) ==> WellFormed(e)
    decreases |ds|
  {
    hide RecordAt, Played, Effective, Slots, Fold, IsWhole, Promote, TouchesQueue, HandlersAt, WellFormed;
    var handlers := HandlersOf(p, enabled);
    if ds == [] {
      NothingDelivered(v);
    } else {
      var d, rest := ds[0], ds[1..];
      assert StepDoes(p, d.handler, enabled)
             && handlers[d.handler] == Prepared(RecordAt(p, d.handler, enabled), p.readings[d.handler]);
      assert forall i :: 0 <= i < |rest| ==> rest[i] == ds[i + 1];
      var record := RecordAt(p, d.handler, enabled);
      var batch, batches := Batch(record, d.whole, id), BatchesOf(handlers, rest, id + 2);
      var e := if d.whole then Promote(AsEvent(record, id)) else AsEvent(record, id);
      OneBatch(p, v, d, id, enabled);
      EffectiveCons(batch, batches);
      SlotsCons(e, d.whole, id + 1, Effective(batches), Entry(record, d.handler, p.readings[d.handler]),
        EntriesOf(handlers, rest));
      FoldCons(v, e, d.whole, id + 1, Effective(batches));
      var w := Compaction.Apply(v, Convert(e));
      var u: View :| u.queue == w.queue
        && Fold(v, Effective([batch]) + Effective(batches)) == Fold(u, Effective(batches));
      DeliveriesAre(p, u, rest, id + 2, enabled);
      FillerIsFine(id + 1);
      assert Flatten([batch] + batches) == batch + Flatten(batches) by { assert ([batch] + batches)[1..] == batches; }
    }
  }

  lemma FillerIsFine(id: nat)
    ensures WellFormed(Filler(id))
  {
  }

  lemma NothingDelivered(v: View)
    ensures Effective([]) == [] && Slots([], []) == [] && Fold(v, []) == v
  {
  }

  /** What the client of such a run shows. */
  lemma PlayedOut(p: Plan, k: nat, ds: seq<Delivery>, enabled: set<Source>) returns (end: State)
    requires Valid(p, enabled) && k <= |p.changes| && Deliverable(p, ds)
    ensures Stamped(p.rooms[0], p.now)
    ensures end == LiveQueue.Run(Start(p.rooms[0], p.now, enabled), Script(p, k, ds, enabled), READ_COUNT, enabled)
    ensures CaughtUp(end) && Stamped(end.room, end.now) && end.room == p.rooms[|p.changes|]
    ensures |end.handlers| == |p.changes| && end.snapshot == Some(ListingAt(p, k, enabled)) && end.snapshotAt == k
    ensures Schedule(end) == SlotsOf(p, ds)
    ensures Fold(View(end.snapshot.value, [], map[], []), end.system.sub.messages).queue ==
            Play(p, ListingAt(p, k, enabled), ds, enabled)
  {
    hide LiveQueue.Run, CaughtUp, Stamped, Script, HandlersAt, Fold, Effective, Slots, SlotsOf, Play, EntriesOf,
         BatchesOf,
         StepDoes;
    end := Realized(p, k, ds, enabled);
    var v := View(end.snapshot.value, [], map[], []);
    DeliveriesAre(p, v, ds, 2, enabled);
    EffectiveFolds(v, BatchesOf(HandlersOf(p, enabled), ds, 2));
  }
}
