/** The queue from the database to a client: the handlers' statements, the listings they read afterwards and the
    records they append, in any interleaving, and a connection that captures its cursor, reads a snapshot of the
    queue and replays what follows. */
module LiveQueue {
  import opened Wrappers
  import opened QueueOrder
  import opened RoomQueue
  import opened QueueDeltas
  import opened Compaction
  import opened EventStream
  import opened Subscription
  import opened QueueRecords
  import QueueInvariant

  /** Where a handler with a task stands: its statement is stored, its record is prepared from the listing after the
      first readAt statements, or it is done. */
  datatype Handler = Stored(task: Task) | Prepared(record: Record, readAt: nat) | Done

  /** A queue record in the stream, of the statement storedAt, prepared after the first readAt statements. */
  datatype Entry = Entry(record: Record, storedAt: nat, readAt: nat)

  /** now is the earliest time for the next statement. listings holds the listing before and after each statement with a
      task, handlers the handler of each, entries the queue records in the order of the stream. The connection's cursor
      was captured behind the first capturedAt entries, its snapshot was read after the first snapshotAt statements. */
  datatype State = State(room: Room, now: int, listings: seq<seq<Shown>>, handlers: seq<Handler>, entries: seq<Entry>,
                         connected: bool, capturedAt: nat, snapshot: Option<seq<Shown>>, snapshotAt: nat,
                           system: System)

  datatype Action =
    | Store(change: QueueInvariant.Step, again: bool, at: int)
    | ReadListing(handler: nat)
    | Append(handler: nat, id: nat, maxEvents: nat)
    | Fail(handler: nat)
    | Connect
    | ReadSnapshot
    | Other(step: Step)

  function QueueOnly(records: seq<Record>): seq<Record>
  {
    if records == [] then []
    else (if TouchesQueue(records[0].kind) then [records[0]] else []) + QueueOnly(records[1..])
  }

  function RecordsOf(entries: seq<Entry>): (records: seq<Record>)
    ensures |records| == |entries| && forall i :: 0 <= i < |entries| ==> records[i] == entries[i].record
  {
    seq(|entries|, i requires 0 <= i < |entries| => entries[i].record)
  }

  /** Steps of other kinds append no queue record; the other components' records may come at any moment. */
  predicate IsOther(step: Step)
  {
    step.Redis? && step.command.Add? ==> WellFormed(step.command.event) && !TouchesQueue(step.command.event.kind)
  }

  /** An import's lone addition needs no listing. */
  function Begun(task: Task, listing: seq<Shown>, stored: nat): Handler
  {
    if task.Adding? then Prepared(Built(task, listing), stored) else Stored(task)
  }

  predicate CanAppend(s: State, handler: nat, id: nat)
  {
    && handler < |s.handlers| && s.handlers[handler].Prepared?
    && Follows(AsEvent(s.handlers[handler].record, id), s.system.log.history)
  }

  ghost function Act(s: State, action: Action, readCount: nat, enabled: set<Source>): (t: State)
    requires Stamped(s.room, s.now)
    ensures Stamped(t.room, t.now)
  {
    match action
    case Store(change, again, at) =>
      if at < s.now then s
      else
        var after := QueueInvariant.Apply(s.room, change, at, enabled);
        var listing := Show(Listing(after, enabled));
        (match TaskOf(s.room, change, again, at, enabled)
         case None => s.(room := after, now := at + 1)
         case Some(task) =>
           s.(room := after, now := at + 1, listings := s.listings + [listing],
              handlers := s.handlers + [Begun(task, listing, |s.handlers| + 1)]))
    case ReadListing(handler) =>
      if handler < |s.handlers| && s.handlers[handler].Stored?
      then s.(handlers := s.handlers[handler :=
                Prepared(Built(s.handlers[handler].task, Show(Listing(s.room, enabled))), |s.handlers|)])
      else s
    case Append(handler, id, maxEvents) =>
      if CanAppend(s, handler, id) then
        var record := s.handlers[handler].record;
        s.(handlers := s.handlers[handler := Done],
           entries := s.entries + [Entry(record, handler, s.handlers[handler].readAt)],
           system := Subscription.Apply(s.system, Redis(Add(AsEvent(record, id), maxEvents)), readCount))
      else s
    case Fail(handler) => if handler < |s.handlers| then s.(handlers := s.handlers[handler := Done]) else s
    case Connect =>
      if s.connected || s.system.log.records == [] then s
      else s.(connected := true, capturedAt := |s.entries|,
              system := Subscribe(s.system.log, LastId(s.system.log.records).value))
    case ReadSnapshot =>
      if s.connected then s.(snapshot := Some(Show(Listing(s.room, enabled))), snapshotAt := |s.handlers|) else s
    case Other(step) =>
      if IsOther(step) && (step.Redis? || s.connected)
      then s.(system := Subscription.Apply(s.system, step, readCount))
      else s
  }

  ghost function Run(s: State, actions: seq<Action>, readCount: nat, enabled: set<Source>): (t: State)
    requires Stamped(s.room, s.now)
    ensures Stamped(t.room, t.now)
    decreases |actions|
  {
    if actions == [] then s else Run(Act(s, actions[0], readCount, enabled), actions[1..], readCount, enabled)
  }

  /** A room and its empty stream. */
  ghost function Start(room: Room, now: int, enabled: set<Source>): State
    requires Keyed(room)
  {
    State(room, now, [Show(Listing(room, enabled))], [], [], false, 0, None, 0,
          System(Log([], [], false), Subscriber(0, 0, Waiting, [], [])))
  }

  // ---------------------------------------------------------------- the invariant

  /** A record of statement i, prepared after the first r statements: a queue update carries the listing of then, and a
      record prepared at once tells what the statement did. */
  ghost predicate Carries(listings: seq<seq<Shown>>, record: Record, i: nat, r: nat)
  {
    && i < r < |listings|
    && WellFormed(AsEvent(record, 0)) && TouchesQueue(record.kind) && !record.kind.QueueSnapshot?
    && (record.kind.QueueUpdate? ==> record.body == Queue(Snapshot(listings[r])))
    && (record.compact.Some? && record.compact.value.body.edit.Snapshot? ==> record.compact.value.body == record.body)
    && (r == i + 1 ==> Fits(listings[i], record) && Told(listings[i], record) == listings[r])
  }

  ghost predicate Sound(listings: seq<seq<Shown>>, handler: Handler, i: nat)
  {
    match handler
    case Stored(task) => i + 1 < |listings| && Does(listings[i], listings[i + 1], task)
    case Prepared(record, r) => Carries(listings, record, i, r)
    case Done => true
  }

  /** The listings are those before and after each statement, the last one is stored, and every handler is sound. */
  ghost predicate StoreInv(s: State, enabled: set<Source>)
  {
    && Stamped(s.room, s.now) && QueueInvariant.Inv(s.room)
    && |s.listings| == |s.handlers| + 1 && s.listings[|s.handlers|] == Show(Listing(s.room, enabled))
    && forall i :: 0 <= i < |s.handlers| ==> Sound(s.listings, s.handlers[i], i)
  }

  ghost predicate AllCarry(listings: seq<seq<Shown>>, entries: seq<Entry>)
  {
    forall i :: 0 <= i < |entries| ==> Carries(listings, entries[i].record, entries[i].storedAt, entries[i].readAt)
  }

  /** The stream's queue records are the entries, in order. */
  ghost predicate StreamInv(s: State)
  {
    && LogInv(s.system.log)
    && (forall e :: e in s.system.log.history ==> WellFormed(e))
    && QueueOnly(Records(s.system.log.history)) == RecordsOf(s.entries)
  }

  /** Where the records behind the connection's cursor begin. */
  function Captured(s: State): nat
  {
    Upto(s.system.log.history, s.system.sub.start)
  }

  /** Behind the cursor are the entries since it was captured. */
  ghost predicate ConnectionInv(s: State)
  {
    s.connected ==>
      && Subscription.Inv(s.system) && Seen(s.system.log.history, s.system.sub.start)
      && s.capturedAt <= |s.entries|
      && QueueOnly(Records(s.system.log.history[Captured(s)..])) == RecordsOf(s.entries[s.capturedAt..])
  }

  ghost predicate SnapshotInv(s: State)
  {
    s.snapshot.Some? ==>
      s.connected && s.snapshotAt < |s.listings| && s.snapshot.value == s.listings[s.snapshotAt]
  }

  ghost predicate Inv(s: State, enabled: set<Source>)
  {
    StoreInv(s, enabled) && AllCarry(s.listings, s.entries) && StreamInv(s) && ConnectionInv(s) && SnapshotInv(s)
  }

  // ---------------------------------------------------------------- queue records among others

  lemma RecordsConcat(a: seq<Event>, b: seq<Event>)
    ensures Records(a + b) == Records(a) + Records(b)
  {
  }

  lemma Associate<T>(a: seq<T>, b: seq<T>, c: seq<T>)
    ensures a + b + c == a + (b + c) && a + [] == a && [] + b == b
  {
  }

  lemma {:induction false} QueueOnlyConcat(a: seq<Record>, b: seq<Record>)
    ensures QueueOnly(a + b) == QueueOnly(a) + QueueOnly(b)
  {
    hide TouchesQueue;
    if a == [] {
      Associate(a, b, []);
    } else {
      assert (a + b)[0] == a[0] && (a + b)[1..] == a[1..] + b;
      QueueOnlyConcat(a[1..], b);
      Associate(if TouchesQueue(a[0].kind) then [a[0]] else [], QueueOnly(a[1..]), QueueOnly(b));
    }
  }

  lemma QueueOnlySnoc(h: seq<Event>, e: Event)
    ensures QueueOnly(Records(h + [e])) ==
            QueueOnly(Records(h)) + if TouchesQueue(e.kind) then [QueueRecords.Of(e)] else []
  {
    RecordsConcat(h, [e]);
    QueueOnlyConcat(Records(h), Records([e]));
    assert Records([e]) == [QueueRecords.Of(e)] && [QueueRecords.Of(e)][1..] == [];
  }

  lemma EntriesSnoc(entries: seq<Entry>, from: nat, entry: Entry)
    requires from <= |entries|
    ensures RecordsOf((entries + [entry])[from..]) == RecordsOf(entries[from..]) + [entry.record]
    ensures RecordsOf(entries + [entry]) == RecordsOf(entries) + [entry.record]
  {
    assert (entries + [entry])[from..] == entries[from..] + [entry];
  }

  // ---------------------------------------------------------------- statements and readings

  lemma CarriesMore(listings: seq<seq<Shown>>, q: seq<Shown>, record: Record, i: nat, r: nat)
    requires Carries(listings, record, i, r)
    ensures Carries(listings + [q], record, i, r)
  {
    hide Fits, Told, WellFormed;
  }

  lemma SoundMore(listings: seq<seq<Shown>>, q: seq<Shown>, handler: Handler, i: nat)
    requires Sound(listings, handler, i)
    ensures Sound(listings + [q], handler, i)
  {
    hide Does, Carries;
    if handler.Prepared? { CarriesMore(listings, q, handler.record, i, handler.readAt); }
  }

  /** A record prepared after the first r statements. */
  lemma PreparedCarries(listings: seq<seq<Shown>>, task: Task, i: nat, r: nat)
    requires i < r < |listings| && Does(listings[i], listings[i + 1], task)
    ensures Carries(listings, Built(task, listings[r]), i, r)
  {
    hide Fits, Told, Built, WellFormed;
    BuiltCarries(task, listings[r]);
  }

  lemma BegunIsSound(listings: seq<seq<Shown>>, task: Task, i: nat)
    requires i + 2 == |listings| && Does(listings[i], listings[i + 1], task)
    ensures Sound(listings, Begun(task, listings[i + 1], i + 1), i)
  {
    hide Does, Carries, Built;
    PreparedCarries(listings, task, i, i + 1);
  }

  lemma StoreKeepsStore(s: State, change: QueueInvariant.Step, again: bool, at: int, readCount: nat,
                        enabled: set<Source>)
    requires StoreInv(s, enabled) && s.now <= at
    ensures StoreInv(Act(s, Store(change, again, at), readCount, enabled), enabled)
  {
    hide Does, Sound, Listing, TaskOf, Begun, QueueInvariant.Apply, QueueInvariant.Inv;
    assert Stamped(s.room, at);
    var after := QueueInvariant.Apply(s.room, change, at, enabled);
    QueueInvariant.StepKeeps(s.room, change, at, enabled);
    StepTells(s.room, change, again, at, enabled);
    var task, q := TaskOf(s.room, change, again, at, enabled), Show(Listing(after, enabled));
    if task.Some? {
      var listings, n := s.listings + [q], |s.handlers|;
      assert listings[n] == s.listings[n] && listings[n + 1] == q;
      BegunIsSound(listings, task.value, n);
      forall i | 0 <= i < n ensures Sound(listings, s.handlers[i], i) { SoundMore(s.listings, q, s.handlers[i], i); }
    }
  }

  lemma AllCarryMore(listings: seq<seq<Shown>>, q: seq<Shown>, entries: seq<Entry>)
    requires AllCarry(listings, entries)
    ensures AllCarry(listings + [q], entries)
  {
    hide Carries;
    forall i | 0 <= i < |entries|
      ensures Carries(listings + [q], entries[i].record, entries[i].storedAt, entries[i].readAt)
    {
      CarriesMore(listings, q, entries[i].record, entries[i].storedAt, entries[i].readAt);
    }
  }

  lemma InvIsStamped(s: State, enabled: set<Source>)
    requires Inv(s, enabled)
    ensures Stamped(s.room, s.now)
  {
  }

  lemma StoreKeeps(s: State, change: QueueInvariant.Step, again: bool, at: int, readCount: nat, enabled: set<Source>)
    requires Inv(s, enabled)
    ensures Inv(Act(s, Store(change, again, at), readCount, enabled), enabled)
  {
    hide StoreInv, AllCarry, StreamInv, ConnectionInv, SnapshotInv, Stamped, TaskOf, Begun, Listing,
         QueueInvariant.Apply;
    InvIsStamped(s, enabled);
    if s.now <= at {
      var t := Act(s, Store(change, again, at), readCount, enabled);
      StoreKeepsStore(s, change, again, at, readCount, enabled);
      if t.listings != s.listings {
        AllCarryMore(s.listings, t.listings[|s.listings|], s.entries);
        assert t.listings == s.listings + [t.listings[|s.listings|]];
      }
      SameStream(s, t);
      SnapshotMore(s, t);
    }
  }

  lemma SameStream(s: State, t: State)
    requires StreamInv(s) && ConnectionInv(s) && t.system == s.system && t.entries == s.entries
    requires t.connected == s.connected && t.capturedAt == s.capturedAt
    ensures StreamInv(t) && ConnectionInv(t)
  {
    hide Upto, Subscription.Inv, Seen, QueueOnly, Records, LogInv, WellFormed;
  }

  lemma SnapshotMore(s: State, t: State)
    requires SnapshotInv(s) && s.listings <= t.listings && (s.connected ==> t.connected)
    requires t.snapshot == s.snapshot && t.snapshotAt == s.snapshotAt
    ensures SnapshotInv(t)
  {
  }

  lemma HandlerKeeps(s: State, handlers: seq<Handler>, i: nat, enabled: set<Source>)
    requires StoreInv(s, enabled) && i < |s.handlers| == |handlers| && handlers == s.handlers[i := handlers[i]]
    requires Sound(s.listings, handlers[i], i)
    ensures StoreInv(s.(handlers := handlers), enabled)
  {
    hide Sound, Listing, Stamped, QueueInvariant.Inv;
  }

  lemma ReadListingKeeps(s: State, handler: nat, readCount: nat, enabled: set<Source>)
    requires Inv(s, enabled)
    ensures Inv(Act(s, ReadListing(handler), readCount, enabled), enabled)
  {
    hide AllCarry, StreamInv, ConnectionInv, SnapshotInv, Does, Carries, Stamped, Listing, QueueInvariant.Inv, Built;
    InvIsStamped(s, enabled);
    var t := Act(s, ReadListing(handler), readCount, enabled);
    SameStream(s, t);
    SnapshotMore(s, t);
    if handler < |s.handlers| && s.handlers[handler].Stored? {
      assert Sound(s.listings, s.handlers[handler], handler);
      PreparedCarries(s.listings, s.handlers[handler].task, handler, |s.handlers|);
      HandlerKeeps(s, t.handlers, handler, enabled);
    }
  }

  lemma FailKeeps(s: State, handler: nat, readCount: nat, enabled: set<Source>)
    requires Inv(s, enabled)
    ensures Inv(Act(s, Fail(handler), readCount, enabled), enabled)
  {
    hide StoreInv, AllCarry, StreamInv, ConnectionInv, SnapshotInv, Stamped;
    InvIsStamped(s, enabled);
    var t := Act(s, Fail(handler), readCount, enabled);
    SameStream(s, t);
    SnapshotMore(s, t);
    if handler < |s.handlers| { HandlerKeeps(s, s.handlers[handler := Done], handler, enabled); }
  }

  // ---------------------------------------------------------------- records in the stream

  /** What the entries are once e is in the stream: a queue record is a new one. */
  ghost predicate IsNext(s: State, e: Event, entries: seq<Entry>)
  {
    if TouchesQueue(e.kind)
    then |entries| == |s.entries| + 1 && entries == s.entries + [entries[|s.entries|]]
         && entries[|s.entries|].record == QueueRecords.Of(e)
    else entries == s.entries
  }

  lemma StreamMore(s: State, e: Event, t: State)
    requires StreamInv(s) && WellFormed(e) && IsNext(s, e, t.entries)
    requires LogInv(t.system.log) && t.system.log.history == s.system.log.history + [e]
    ensures StreamInv(t)
  {
    hide QueueOnly, LogInv, WellFormed, TouchesQueue, RecordsOf;
    QueueOnlySnoc(s.system.log.history, e);
    if TouchesQueue(e.kind) { EntriesSnoc(s.entries, 0, t.entries[|s.entries|]); }
  }

  lemma BehindSnoc(h: seq<Event>, e: Event, start: nat)
    requires Ascending(h + [e]) && Seen(h, start)
    ensures Upto(h + [e], start) == Upto(h, start) && Seen(h + [e], start)
    ensures QueueOnly(Records((h + [e])[Upto(h, start)..])) ==
            QueueOnly(Records(h[Upto(h, start)..])) + if TouchesQueue(e.kind) then [QueueRecords.Of(e)] else []
  {
    hide QueueOnly, TouchesQueue;
    UptoIsStable(h, h + [e], start);
    assert (h + [e])[Upto(h, start)..] == h[Upto(h, start)..] + [e];
    QueueOnlySnoc(h[Upto(h, start)..], e);
  }

  lemma ConnectionMore(s: State, e: Event, t: State)
    requires ConnectionInv(s) && s.connected && IsNext(s, e, t.entries) && Ascending(t.system.log.history)
    requires Subscription.Inv(t.system) && t.system.log.history == s.system.log.history + [e]
    requires t.system.sub.start == s.system.sub.start && t.capturedAt == s.capturedAt
    ensures ConnectionInv(t)
  {
    hide QueueOnly, Upto, Subscription.Inv, Ascending, Seen, TouchesQueue, RecordsOf;
    BehindSnoc(s.system.log.history, e, s.system.sub.start);
    if TouchesQueue(e.kind) { EntriesSnoc(s.entries, s.capturedAt, t.entries[|s.entries|]); }
  }

  lemma AddedSystem(system: System, e: Event, maxEvents: nat, readCount: nat)
    requires LogInv(system.log) && Follows(e, system.log.history)
    ensures var after := Subscription.Apply(system, Redis(Add(e, maxEvents)), readCount);
            && after.log.history == system.log.history + [e] && after.sub == system.sub
            && LogInv(after.log) && Ascending(after.log.history)
  {
    ExecuteKeeps(system.log, Add(e, maxEvents));
  }

  lemma StreamIsLogged(s: State)
    requires StreamInv(s)
    ensures LogInv(s.system.log)
  {
  }

  lemma ConnectionIsSound(s: State)
    requires ConnectionInv(s) && s.connected
    ensures Subscription.Inv(s.system)
  {
  }

  /** One more record in the stream: a queue record is a new entry. */
  lemma AppendedKeeps(s: State, e: Event, t: State, maxEvents: nat, readCount: nat)
    requires StreamInv(s) && ConnectionInv(s) && Follows(e, s.system.log.history) && WellFormed(e)
             && IsNext(s, e, t.entries)
    requires t.system == Subscription.Apply(s.system, Redis(Add(e, maxEvents)), readCount)
    requires t.connected == s.connected && t.capturedAt == s.capturedAt
    ensures StreamInv(t) && ConnectionInv(t)
  {
    hide Subscription.Apply, Subscription.Inv, StreamInv, ConnectionInv, IsNext, Ascending, Follows, WellFormed,
         TouchesQueue;
    assert LogInv(s.system.log) by { StreamIsLogged(s); }
    AddedSystem(s.system, e, maxEvents, readCount);
    StreamMore(s, e, t);
    if s.connected {
      ConnectionIsSound(s);
      StepKeeps(s.system, Redis(Add(e, maxEvents)), readCount);
      ConnectionMore(s, e, t);
    } else {
      Unconnected(t);
    }
  }

  lemma Unconnected(s: State)
    requires !s.connected
    ensures ConnectionInv(s)
  {
  }

  lemma AllCarrySnoc(listings: seq<seq<Shown>>, entries: seq<Entry>, entry: Entry)
    requires AllCarry(listings, entries) && Carries(listings, entry.record, entry.storedAt, entry.readAt)
    ensures AllCarry(listings, entries + [entry])
  {
    hide Carries;
  }

  lemma AppendKeeps(s: State, handler: nat, id: nat, maxEvents: nat, readCount: nat, enabled: set<Source>)
    requires Inv(s, enabled)
    ensures Inv(Act(s, Append(handler, id, maxEvents), readCount, enabled), enabled)
  {
    hide StoreInv, AllCarry, StreamInv, ConnectionInv, SnapshotInv, Stamped, Subscription.Apply, Follows, Carries;
    InvIsStamped(s, enabled);
    if CanAppend(s, handler, id) {
      var prepared := s.handlers[handler];
      StoreIsSound(s, handler, enabled);
      var t := Act(s, Append(handler, id, maxEvents), readCount, enabled);
      AllCarrySnoc(s.listings, s.entries, Entry(prepared.record, handler, prepared.readAt));
      HandlerKeeps(s, s.handlers[handler := Done], handler, enabled);
      SameStore(s.(handlers := t.handlers), t, enabled);
      SnapshotMore(s, t);
      CarriedIsQueued(s.listings, prepared.record, handler, prepared.readAt);
      AppendedKeeps(s, AsEvent(prepared.record, id), t, maxEvents, readCount);
    }
  }

  lemma CarriedIsQueued(listings: seq<seq<Shown>>, record: Record, i: nat, r: nat)
    requires Carries(listings, record, i, r)
    ensures WellFormed(AsEvent(record, 0)) && TouchesQueue(record.kind)
  {
  }

  lemma StoreIsSound(s: State, i: nat, enabled: set<Source>)
    requires StoreInv(s, enabled) && i < |s.handlers|
    ensures Sound(s.listings, s.handlers[i], i)
  {
  }

  lemma SameStore(s: State, t: State, enabled: set<Source>)
    requires StoreInv(s, enabled)
    requires t.room == s.room && t.now == s.now && t.listings == s.listings && t.handlers == s.handlers
    ensures StoreInv(t, enabled)
  {
  }

  /** A step that leaves the history and the connection's start alone. */
  lemma SameHistoryKeeps(s: State, system: System, enabled: set<Source>)
    requires Inv(s, enabled) && LogInv(system.log) && system.log.history == s.system.log.history
    requires system.sub.start == s.system.sub.start && (s.connected ==> Subscription.Inv(system))
    ensures Inv(s.(system := system), enabled)
  {
    hide Subscription.Inv, LogInv, Seen, AllCarry, StoreInv, QueueOnly, WellFormed;
    SameStore(s, s.(system := system), enabled);
  }

  lemma OtherKeeps(s: State, step: Step, readCount: nat, enabled: set<Source>)
    requires Inv(s, enabled)
    ensures Inv(Act(s, Other(step), readCount, enabled), enabled)
  {
    hide StoreInv, AllCarry, StreamInv, ConnectionInv, SnapshotInv, Subscription.Apply, Follows, Stamped, TouchesQueue,
         WellFormed;
    InvIsStamped(s, enabled);
    var t := Act(s, Other(step), readCount, enabled);
    if !IsOther(step) || !(step.Redis? || s.connected) {
      assert t == s;
    } else if step.Redis? && step.command.Add? && Follows(step.command.event, s.system.log.history) {
      SameStore(s, t, enabled);
      SnapshotMore(s, t);
      AppendedKeeps(s, step.command.event, t, step.command.maxEvents, readCount);
    } else {
      QuietKeeps(s, step, readCount, enabled);
    }
  }

  lemma QuietKeeps(s: State, step: Step, readCount: nat, enabled: set<Source>)
    requires Inv(s, enabled) && (step.Redis? || s.connected)
    requires !step.Redis? || !step.command.Add? || !Follows(step.command.event, s.system.log.history)
    ensures Inv(s.(system := Subscription.Apply(s.system, step, readCount)), enabled)
  {
    hide Subscription.Apply, Subscription.Inv, LogInv, Seen, StoreInv, AllCarry, Follows, Grows;
    QuietStep(s.system, step, readCount);
    if s.connected { StepKeeps(s.system, step, readCount); }
    assert LogInv(Subscription.Apply(s.system, step, readCount).log) by { QuietLog(s.system, step, readCount); }
    SameHistoryKeeps(s, Subscription.Apply(s.system, step, readCount), enabled);
  }

  lemma QuietLog(system: System, step: Step, readCount: nat)
    requires LogInv(system.log)
    ensures LogInv(Subscription.Apply(system, step, readCount).log)
  {
    if step.Redis? { ExecuteKeeps(system.log, step.command); }
    hide LogInv, Deliveries, ReadAfter, DropBelow, Newest, Execute;
  }

  lemma QuietStep(system: System, step: Step, readCount: nat)
    requires !step.Redis? || !step.command.Add? || !Follows(step.command.event, system.log.history)
    ensures var after := Subscription.Apply(system, step, readCount);
            after.log.history == system.log.history && after.sub.start == system.sub.start
            && (!step.Redis? ==> after.log == system.log)
            && (step.Redis? ==> after.log == Execute(system.log, step.command))
  {
    hide Deliveries, ReadAfter, DropBelow, Newest;
  }

  lemma ConnectKeeps(s: State, readCount: nat, enabled: set<Source>)
    requires Inv(s, enabled)
    ensures Inv(Act(s, Connect, readCount, enabled), enabled)
  {
    hide AllCarry, StoreInv, SnapshotInv, ConnectionInv, StreamInv, Stamped;
    InvIsStamped(s, enabled);
    var t := Act(s, Connect, readCount, enabled);
    SameStore(s, t, enabled);
    SnapshotMore(s, t);
    if t != s { Connected(s, t); }
  }

  lemma Connected(s: State, t: State)
    requires StreamInv(s) && s.system.log.records != []
    requires t == s.(connected := true, capturedAt := |s.entries|,
                     system := Subscribe(s.system.log, LastId(s.system.log.records).value))
    ensures StreamInv(t) && ConnectionInv(t)
  {
    hide WellFormed;
    var h, start := s.system.log.history, LastId(s.system.log.records).value;
    assert h[|h| - 1].id == start;
    UptoIs(h, start, |h|);
    assert h[Upto(h, start)..] == [] && Records(h[Upto(h, start)..]) == [];
    assert RecordsOf(s.entries[|s.entries|..]) == [] == QueueOnly([]);
    assert Segment(h, start, start) == [] == Flatten([]);
  }

  lemma ReadSnapshotKeeps(s: State, readCount: nat, enabled: set<Source>)
    requires Inv(s, enabled)
    ensures Inv(Act(s, ReadSnapshot, readCount, enabled), enabled)
  {
    hide Subscription.Inv, LogInv, Seen, Upto, Sound, AllCarry, Listing, Stamped, QueueInvariant.Inv, QueueOnly,
         WellFormed;
  }

  lemma ActKeeps(s: State, action: Action, readCount: nat, enabled: set<Source>)
    requires Inv(s, enabled)
    ensures Stamped(s.room, s.now) && Inv(Act(s, action, readCount, enabled), enabled)
  {
    hide Inv, Stamped, Act;
    InvIsStamped(s, enabled);
    match action
    case Store(change, again, at) => StoreKeeps(s, change, again, at, readCount, enabled);
    case ReadListing(handler) => ReadListingKeeps(s, handler, readCount, enabled);
    case Append(handler, id, maxEvents) => AppendKeeps(s, handler, id, maxEvents, readCount, enabled);
    case Fail(handler) => FailKeeps(s, handler, readCount, enabled);
    case Connect => ConnectKeeps(s, readCount, enabled);
    case ReadSnapshot => ReadSnapshotKeeps(s, readCount, enabled);
    case Other(step) => OtherKeeps(s, step, readCount, enabled);
  }

  /** Every run of statements, readings, appends and connections, in any interleaving. */
  lemma {:induction false} RunKeeps(s: State, actions: seq<Action>, readCount: nat, enabled: set<Source>)
    requires Inv(s, enabled)
    ensures Stamped(s.room, s.now) && Inv(Run(s, actions, readCount, enabled), enabled)
    decreases |actions|
  {
    hide Inv, Stamped, Act;
    InvIsStamped(s, enabled);
    if actions != [] {
      ActKeeps(s, actions[0], readCount, enabled);
      RunKeeps(Act(s, actions[0], readCount, enabled), actions[1..], readCount, enabled);
    }
  }

  lemma StartIsFine(room: Room, now: int, enabled: set<Source>)
    requires Stamped(room, now) && QueueInvariant.Inv(room)
    ensures Inv(Start(room, now, enabled), enabled)
  {
    hide QueueInvariant.Inv, Listing, Stamped;
  }

  // ---------------------------------------------------------------- the schedule of a run

  /** When the statement of a queue record was stored, when its listing was read, and whether the client gets the whole
      queue with it. */
  datatype Slot = Slot(storedAt: nat, readAt: nat, whole: bool)

  /** The client gets the whole queue: a promoted queue update, or one whose compact form is the whole queue. */
  predicate IsWhole(e: Event)
  {
    e.kind.QueueUpdate? && Convert(e).body.Queue? && Convert(e).body.edit.Snapshot?
  }

  /** What the batches amount to: every record, with its queue update promoted if its batch holds several. */
  function Effective(batches: seq<seq<Event>>): seq<Event>
  {
    if batches == [] then []
    else (if |batches[0]| > 1 then PromoteAll(batches[0]) else batches[0]) + Effective(batches[1..])
  }

  function Slots(events: seq<Event>, entries: seq<Entry>): seq<Slot>
    decreases |events|
  {
    if events == [] || entries == [] then []
    else if TouchesQueue(events[0].kind) then
      [Slot(entries[0].storedAt, entries[0].readAt, IsWhole(events[0]))] + Slots(events[1..], entries[1..])
    else Slots(events[1..], entries)
  }

  /** The queue records that the connection has taken. */
  function Schedule(s: State): seq<Slot>
  {
    if s.capturedAt <= |s.entries| then Slots(Effective(s.system.sub.batches), s.entries[s.capturedAt..]) else []
  }

  /** The statement up to which the client shows the queue, if that is known: the whole queue brings it to where its
      listing was read; a lone record prepared at once brings it from just before its statement to just behind it. */
  function Next(shown: Option<nat>, slot: Slot): Option<nat>
  {
    if slot.whole then Some(slot.readAt)
    else if slot.readAt == slot.storedAt + 1 && (shown == Some(slot.storedAt) || shown == Some(slot.readAt))
    then Some(slot.readAt)
    else None
  }

  function Track(shown: Option<nat>, slots: seq<Slot>): Option<nat>
    decreases |slots|
  {
    if slots == [] then shown else Track(Next(shown, slots[0]), slots[1..])
  }

  // ---------------------------------------------------------------- what the client shows

  ghost predicate Showing(v: View, listings: seq<seq<Shown>>, shown: Option<nat>)
  {
    shown.Some? ==> shown.value < |listings| && v.queue == listings[shown.value]
  }

  /** A record that is replayed over the listing it led to changes nothing. */
  lemma FitsAgain(q: seq<Shown>, record: Record)
    requires Fits(q, record)
    ensures Fits(Told(q, record), record) && Told(Told(q, record), record) == Told(q, record)
  {
  }

  lemma WholeShows(v: View, e: Event, entry: Entry, listings: seq<seq<Shown>>)
    requires Carries(listings, entry.record, entry.storedAt, entry.readAt) && IsWhole(e)
    requires QueueRecords.Of(e) == entry.record || e == Promote(AsEvent(entry.record, e.id))
    ensures Compaction.Apply(v, Convert(e)).queue == listings[entry.readAt]
  {
    hide Fits, Told;
  }

  lemma LoneShows(v: View, e: Event, entry: Entry, listings: seq<seq<Shown>>)
    requires Carries(listings, entry.record, entry.storedAt, entry.readAt) && QueueRecords.Of(e) == entry.record
    requires entry.readAt == entry.storedAt + 1
    requires v.queue == listings[entry.storedAt] || v.queue == listings[entry.readAt]
    ensures Compaction.Apply(v, Convert(e)).queue == listings[entry.readAt]
  {
    hide Compaction.Apply, Convert, Fits, Told;
    FitsAgain(listings[entry.storedAt], entry.record);
    FittingIsFaithful(v, e);
  }

  /** One queue record as the client gets it. */
  lemma SlotShows(v: View, e: Event, entry: Entry, listings: seq<seq<Shown>>, shown: Option<nat>)
    requires Carries(listings, entry.record, entry.storedAt, entry.readAt) && Showing(v, listings, shown)
    requires QueueRecords.Of(e) == entry.record || e == Promote(AsEvent(entry.record, e.id))
    ensures Showing(Compaction.Apply(v, Convert(e)), listings,
                    Next(shown, Slot(entry.storedAt, entry.readAt, IsWhole(e))))
  {
    if IsWhole(e) {
      WholeShows(v, e, entry, listings);
    } else {
      assert QueueRecords.Of(e) == entry.record;
      hide Compaction.Apply, Convert, IsWhole;
      if Next(shown, Slot(entry.storedAt, entry.readAt, false)).Some? { LoneShows(v, e, entry, listings); }
    }
  }

  /** The queue records among these events are the entries, each as it is or promoted. */
  ghost predicate Matches(events: seq<Event>, entries: seq<Entry>)
    decreases |events|
  {
    if events == [] then entries == []
    else if TouchesQueue(events[0].kind) then
      && entries != [] && Matches(events[1..], entries[1..])
      && (QueueRecords.Of(events[0]) == entries[0].record
         || events[0] == Promote(AsEvent(entries[0].record, events[0].id)))
    else WellFormed(events[0]) && Matches(events[1..], entries)
  }

  lemma OthersShow(v: View, e: Event)
    requires WellFormed(e) && !TouchesQueue(e.kind)
    ensures Compaction.Apply(v, Convert(e)).queue == v.queue
  {
  }

  lemma {:induction false} SlotsShow(v: View, events: seq<Event>, entries: seq<Entry>, listings: seq<seq<Shown>>,
                                     shown: Option<nat>)
    requires Matches(events, entries) && AllCarry(listings, entries) && Showing(v, listings, shown)
    ensures Showing(Fold(v, events), listings, Track(shown, Slots(events, entries)))
    decreases |events|
  {
    hide Carries, Showing, IsWhole, Compaction.Apply, Convert, Next, TouchesQueue, WellFormed, Promote;
    if events != [] {
      var w, rest := Compaction.Apply(v, Convert(events[0])), events[1..];
      if TouchesQueue(events[0].kind) {
        var slot := Slot(entries[0].storedAt, entries[0].readAt, IsWhole(events[0]));
        SlotShows(v, events[0], entries[0], listings, shown);
        SlotsShow(w, rest, entries[1..], listings, Next(shown, slot));
        assert Slots(events, entries) == [slot] + Slots(rest, entries[1..]);
        assert Slots(events, entries)[1..] == Slots(rest, entries[1..]);
      } else {
        OthersShow(v, events[0]);
        SameShowing(v, w, listings, shown);
        SlotsShow(w, rest, entries, listings, shown);
        if entries == [] { NoSlots(rest); }
      }
    }
  }

  lemma NoSlots(events: seq<Event>)
    ensures Slots(events, []) == []
  {
  }

  lemma SameShowing(v: View, w: View, listings: seq<seq<Shown>>, shown: Option<nat>)
    requires Showing(v, listings, shown) && v.queue == w.queue
    ensures Showing(w, listings, shown)
  {
  }

  /** Records in the order of their statements, each prepared at once, fit one after the other. */
  lemma {:induction false} InOrderFits(listings: seq<seq<Shown>>, entries: seq<Entry>, i: nat)
    requires AllCarry(listings, entries) && i + |entries| < |listings|
    requires forall k :: 0 <= k < |entries| ==> entries[k].storedAt == i + k && entries[k].readAt == i + k + 1
    ensures AllFit(listings[i], RecordsOf(entries))
            && ToldAll(listings[i], RecordsOf(entries)) == listings[i + |entries|]
    decreases |entries|
  {
    hide Fits, Told, WellFormed;
    var records := RecordsOf(entries);
    if entries != [] {
      var rest := entries[1..];
      assert records[0] == entries[0].record && records[1..] == RecordsOf(rest);
      assert Carries(listings, entries[0].record, i, i + 1) by { assert entries[0].storedAt == i + 0; }
      assert forall k :: 0 <= k < |rest| ==> rest[k] == entries[k + 1];
      TailCarries(listings, entries, 1);
      InOrderFits(listings, rest, i + 1);
    }
  }

  // ---------------------------------------------------------------- what the batches amount to

  lemma BatchIsEffective(v: View, batch: seq<Event>)
    requires forall k :: 0 <= k < |batch| ==> WellFormed(batch[k])
    ensures Fold(v, Deliveries(batch)) == Fold(v, if |batch| > 1 then PromoteAll(batch) else batch)
  {
    if |batch| == 1 {
      LoneDelivery(batch[0]);
      assert batch == [batch[0]];
    } else if |batch| > 1 {
      assert batch[0..] == batch;
      KeptFolds(v, batch, 0);
    }
  }

  lemma LoneDelivery(e: Event)
    ensures Deliveries([e]) == [e]
  {
    assert Compaction.Kept([e], 0) == [e] + Compaction.Kept([e], 1) && Compaction.Kept([e], 1) == [];
  }

  /** Compaction delivers no more and no less, to any view, right or wrong. */
  lemma {:induction false} EffectiveFolds(v: View, batches: seq<seq<Event>>)
    requires forall e :: e in Flatten(batches) ==> WellFormed(e)
    ensures Fold(v, DeliverAll(batches)) == Fold(v, Effective(batches))
    decreases |batches|
  {
    hide WellFormed, Deliveries, Fold, PromoteAll;
    if batches != [] {
      var batch, rest := batches[0], batches[1..];
      var promoted := if |batch| > 1 then PromoteAll(batch) else batch;
      assert forall k :: 0 <= k < |batch| ==> batch[k] in Flatten(batches);
      assert forall e :: e in Flatten(rest) ==> e in Flatten(batches);
      BatchIsEffective(v, batch);
      FoldConcat(v, Deliveries(batch), DeliverAll(rest));
      FoldConcat(v, promoted, Effective(rest));
      EffectiveFolds(Fold(v, promoted), rest);
    } else {
      assert DeliverAll(batches) == Effective(batches);
    }
  }

  /** Each effective record is the one taken, as it is or promoted. */
  lemma {:induction false} EffectiveIsTaken(batches: seq<seq<Event>>)
    ensures |Effective(batches)| == |Flatten(batches)|
    ensures forall i :: 0 <= i < |Flatten(batches)| ==>
              Effective(batches)[i] == Flatten(batches)[i] || Effective(batches)[i] == Promote(Flatten(batches)[i])
    decreases |batches|
  {
    hide Promote;
    if batches != [] { EffectiveIsTaken(batches[1..]); }
  }

  lemma {:induction false} TakenMatches(events: seq<Event>, taken: seq<Event>, entries: seq<Entry>)
    requires |events| == |taken| && forall e :: e in taken ==> WellFormed(e)
    requires forall i :: 0 <= i < |taken| ==> events[i] == taken[i] || events[i] == Promote(taken[i])
    requires QueueOnly(Records(taken)) == RecordsOf(entries)
    ensures Matches(events, entries)
    decreases |events|
  {
    hide TouchesQueue, WellFormed;
    if events != [] {
      var rest, queued := taken[1..], QueueOnly(Records(taken[1..]));
      assert Records(taken)[1..] == Records(rest) && Records(taken)[0] == QueueRecords.Of(taken[0]);
      assert taken[0] in taken && events[0].kind == taken[0].kind;
      assert forall i :: 0 <= i < |rest| ==> events[1..][i] == events[i + 1] && rest[i] == taken[i + 1];
      if TouchesQueue(taken[0].kind) {
        assert RecordsOf(entries) == [QueueRecords.Of(taken[0])] + queued;
        assert RecordsOf(entries)[0] == entries[0].record
               && RecordsOf(entries[1..]) == RecordsOf(entries)[1..] == queued;
        TakenMatches(events[1..], rest, entries[1..]);
      } else {
        Associate([], queued, []);
        NotPromoted(taken[0]);
        TakenMatches(events[1..], rest, entries);
      }
    } else {
      assert RecordsOf(entries) == [];
    }
  }

  lemma NotPromoted(e: Event)
    requires !TouchesQueue(e.kind)
    ensures Promote(e) == e
  {
  }

  // ---------------------------------------------------------------- the promise

  /** The connection has its snapshot and has taken every record of the stream in full. */
  ghost predicate CaughtUp(s: State)
  {
    && s.connected && s.snapshot.Some? && s.system.sub.phase.Waiting?
    && Upto(s.system.log.history, s.system.sub.cursor) == |s.system.log.history|
  }

  /** Whatever the connection has taken in full is the history behind its start. */
  lemma TakenIsSegment(s: State)
    requires ConnectionInv(s) && CaughtUp(s)
    ensures Flatten(s.system.sub.batches) == s.system.log.history[Captured(s)..]
    ensures s.system.sub.messages == DeliverAll(s.system.sub.batches)
  {
    UptoMonotone(s.system.log.history, s.system.sub.start, s.system.sub.cursor);
  }

  lemma TakenAreEntries(s: State)
    requires StreamInv(s) && ConnectionInv(s) && CaughtUp(s)
    ensures s.capturedAt <= |s.entries| && (forall e :: e in Flatten(s.system.sub.batches) ==> WellFormed(e))
    ensures s.system.sub.messages == DeliverAll(s.system.sub.batches)
    ensures Matches(Effective(s.system.sub.batches), s.entries[s.capturedAt..])
  {
    hide Upto, Subscription.Inv, LogInv, Flatten, QueueOnly, Records, WellFormed, Matches, Effective, Promote;
    TakenIsSegment(s);
    var batches, h := s.system.sub.batches, s.system.log.history;
    assert forall e :: e in h[Captured(s)..] ==> e in h;
    EffectiveIsTaken(batches);
    TakenMatches(Effective(batches), Flatten(batches), s.entries[s.capturedAt..]);
  }

  /** Every run of handlers, whose statements, readings and appends interleave freely and may fail, of other
      appenders and of one connection: once it is caught up, the client shows the queue up to the statement that its
      schedule tells. */
  lemma ClientShowsListing(room: Room, now: int, actions: seq<Action>, readCount: nat, enabled: set<Source>, v: View)
    requires Stamped(room, now) && QueueInvariant.Inv(room)
    requires var end := Run(Start(room, now, enabled), actions, readCount, enabled);
             CaughtUp(end) && v.queue == end.snapshot.value && Track(Some(end.snapshotAt), Schedule(end)).Some?
    ensures var end := Run(Start(room, now, enabled), actions, readCount, enabled);
            var shown := Track(Some(end.snapshotAt), Schedule(end)).value;
            && shown < |end.listings| == |end.handlers| + 1
            && Fold(v, end.system.sub.messages).queue == end.listings[shown]
            && end.listings[|end.handlers|] == Show(Listing(end.room, enabled))
  {
    var end := Run(Start(room, now, enabled), actions, readCount, enabled);
    StartIsFine(room, now, enabled);
    RunKeeps(Start(room, now, enabled), actions, readCount, enabled);
    hide Run, CaughtUp, Sound, Listing, Fold, Stamped, StreamInv, ConnectionInv, Effective, Slots, Matches, Track,
         Carries;
    assert SnapshotInv(end);
    TakenAreEntries(end);
    var batches, entries := end.system.sub.batches, end.entries[end.capturedAt..];
    TailCarries(end.listings, end.entries, end.capturedAt);
    EffectiveFolds(v, batches);
    SlotsShow(v, Effective(batches), entries, end.listings, Some(end.snapshotAt));
  }

  lemma TailCarries(listings: seq<seq<Shown>>, entries: seq<Entry>, from: nat)
    requires AllCarry(listings, entries) && from <= |entries|
    ensures AllCarry(listings, entries[from..])
  {
    hide Carries;
  }
}
