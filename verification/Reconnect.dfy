/** Capture the cursor, read the snapshot, replay what follows: where a new connection's latest-value components end. */
module Reconnect {
  import opened Wrappers
  import opened QueueDeltas
  import opened Compaction
  import opened EventStream
  import opened Subscription

  /** Where the newest value of a component is: still to be appended, in the last record of the component, or behind a
      record of an older value that was appended later. */
  datatype Standing = Waits | IsLast | Overtaken

  /** store holds the latest-value components; pending holds, for each, the values stored but not yet appended, in
      the order they were stored; newest tells what became of each newest value. snapshot holds the components the
      new connection has read; connected tells that it has its cursor. */
  datatype Room = Room(store: map<EventType, Body>, pending: map<EventType, seq<Body>>, newest: map<EventType,
    Standing>,
                       connected: bool, snapshot: map<EventType, Body>, system: System)

  datatype Action =
    | Write(kind: EventType, value: Body)
    | Publish(kind: EventType, which: nat, id: nat, maxEvents: nat)
    | Connect
    | ReadSnapshot(kind: EventType)
    | Other(step: Step)

  function PendingOf(r: Room, kind: EventType): seq<Body>
  {
    if kind in r.pending then r.pending[kind] else []
  }

  function NewestOf(r: Room, kind: EventType): Standing
  {
    if kind in r.newest then r.newest[kind] else IsLast
  }

  /** What a record means for the newest value: it carries it, or an older one. */
  function Behind(newest: Standing, carries: bool): Standing
  {
    if newest.Waits? then (if carries then IsLast else Waits) else Overtaken
  }

  function Except(values: seq<Body>, which: nat): seq<Body>
    requires which < |values|
  {
    values[..which] + values[which + 1..]
  }

  /** Steps of other kinds append no record of a latest-value component. */
  predicate IsOther(step: Step)
  {
    step.Redis? && step.command.Add? ==> WellFormed(step.command.event) && !LatestOnly(step.command.event.kind)
  }

  function Act(r: Room, action: Action, readCount: nat): Room
  {
    match action
    case Write(kind, value) =>
      if kind in r.store && LatestOnly(kind)
      then r.(store := r.store[kind := value], pending := r.pending[kind := PendingOf(r, kind) + [value]],
              newest := r.newest[kind := Waits])
      else r
    case Publish(kind, which, id, maxEvents) =>
      var pending := PendingOf(r, kind);
      if LatestOnly(kind) && which < |pending| && Follows(Event(id, kind, pending[which], None), r.system.log.history)
      then r.(pending := r.pending[kind := Except(pending, which)],
              newest := r.newest[kind := Behind(NewestOf(r, kind), which + 1 == |pending|)],
              system := Subscription.Apply(
                r.system, Redis(Add(Event(id, kind, pending[which], None), maxEvents)), readCount))
      else r
    case Connect =>
      if r.connected || r.system.log.records == [] then r
      else r.(connected := true, system := Subscribe(r.system.log, LastId(r.system.log.records).value))
    case ReadSnapshot(kind) =>
      if r.connected && kind in r.store then r.(snapshot := r.snapshot[kind := r.store[kind]]) else r
    case Other(step) =>
      if IsOther(step) && (step.Redis? || r.connected)
      then r.(system := Subscription.Apply(r.system, step, readCount))
      else r
  }

  function Run(r: Room, actions: seq<Action>, readCount: nat): Room
    decreases |actions|
  {
    if actions == [] then r else Run(Act(r, actions[0], readCount), actions[1..], readCount)
  }

  // ---------------------------------------------------------------- the last record of a kind

  function LastOf(h: seq<Event>, kind: EventType): Option<Body>
  {
    if h == [] then None
    else if h[|h| - 1].kind == kind then Some(h[|h| - 1].body)
    else LastOf(h[..|h| - 1], kind)
  }

  lemma LastOfSnoc(h: seq<Event>, e: Event, kind: EventType)
    ensures LastOf(h + [e], kind) == if e.kind == kind then Some(e.body) else LastOf(h, kind)
  {
    assert (h + [e])[..|h|] == h;
  }

  lemma {:induction false} LastOfConcat(a: seq<Event>, b: seq<Event>, kind: EventType)
    ensures LastOf(a + b, kind) == if LastOf(b, kind).Some? then LastOf(b, kind) else LastOf(a, kind)
  {
    if b == [] {
      assert a + b == a;
    } else {
      var front := b[..|b| - 1];
      assert a + b == (a + front) + [b[|b| - 1]] && b == front + [b[|b| - 1]];
      LastOfSnoc(a + front, b[|b| - 1], kind);
      LastOfSnoc(front, b[|b| - 1], kind);
      LastOfConcat(a, front, kind);
    }
  }

  lemma FoldSnoc(v: View, front: seq<Event>, e: Event)
    ensures Fold(v, front + [e]) == Compaction.Apply(Fold(v, front), Convert(e))
  {
    FoldConcat(v, front, [e]);
    assert Fold(Fold(v, front), [e]) == Fold(Compaction.Apply(Fold(v, front), Convert(e)), []);
  }

  lemma ApplyLeavesLast(v: View, e: Event, kind: EventType)
    requires LatestOnly(kind) && WellFormed(e)
    ensures var latest := Compaction.Apply(v, Convert(e)).latest;
            if e.kind == kind then kind in latest && latest[kind] == e.body
            else (kind in latest <==> kind in v.latest) && (kind in latest ==> latest[kind] == v.latest[kind])
  {
  }

  /** Folding a log leaves the last value of each latest-value component, or what was there before. */
  lemma {:induction false} FoldLeavesLast(v: View, h: seq<Event>, kind: EventType)
    requires LatestOnly(kind) && forall e :: e in h ==> WellFormed(e)
    ensures LastOf(h, kind).Some? ==> kind in Fold(v, h).latest && Fold(v, h).latest[kind] == LastOf(h, kind).value
    ensures LastOf(h, kind).None? ==> (kind in Fold(v, h).latest <==> kind in v.latest)
    ensures LastOf(h, kind).None? && kind in v.latest ==> Fold(v, h).latest[kind] == v.latest[kind]
  {
    if h != [] {
      var front, e := h[..|h| - 1], h[|h| - 1];
      assert h == front + [e] && forall x :: x in front ==> x in h;
      assert e in h;
      LastOfSnoc(front, e, kind);
      hide *;
      FoldLeavesLast(v, front, kind);
      FoldSnoc(v, front, e);
      ApplyLeavesLast(Fold(v, front), e, kind);
    } else {
      assert Fold(v, h) == v;
    }
  }

  // ---------------------------------------------------------------- the invariant

  /** Where the records behind the connection's cursor begin. */
  function Captured(r: Room): nat
  {
    Upto(r.system.log.history, r.system.sub.start)
  }

  /** The store holds the last pending value, or, unless it was overtaken, the last record's. */
  ghost predicate StoreLeads(r: Room, kind: EventType)
    requires kind in r.store
  {
    var pending := PendingOf(r, kind);
    match NewestOf(r, kind)
    case Waits => pending != [] && r.store[kind] == pending[|pending| - 1]
    case IsLast => LastOf(r.system.log.history, kind).Some? ==>
      r.store[kind] == LastOf(r.system.log.history, kind).value
    case Overtaken => true
  }

  /** A snapshot value is current, or a record behind the cursor brings or will bring a newer one. */
  ghost predicate SnapshotCovered(r: Room, kind: EventType)
    requires kind in r.store
  {
    kind in r.snapshot ==>
      r.snapshot[kind] == r.store[kind] || PendingOf(r, kind) != [] ||
      LastOf(r.system.log.history[Captured(r)..], kind).Some?
  }

  ghost predicate Inv(r: Room)
  {
    && LogInv(r.system.log)
    && (forall e :: e in r.system.log.history ==> WellFormed(e))
    && (forall kind :: kind in r.store && LatestOnly(kind) ==> StoreLeads(r, kind))
    && (!r.connected ==> r.snapshot == map[])
    && (r.connected ==>
          Subscription.Inv(r.system) && Seen(r.system.log.history, r.system.sub.start) &&
          forall kind :: kind in r.store && LatestOnly(kind) ==> SnapshotCovered(r, kind))
  }

  // ---------------------------------------------------------------- every action keeps it

  /** What one record more at the end of the history means for a kind. */
  lemma OneMore(h: seq<Event>, e: Event, start: nat, kind: EventType)
    requires Ascending(h + [e]) && Seen(h, start)
    ensures Upto(h + [e], start) == Upto(h, start)
    ensures LastOf((h + [e])[Upto(h, start)..], kind)
            == if e.kind == kind then Some(e.body) else LastOf(h[Upto(h, start)..], kind)
  {
    UptoIsStable(h, h + [e], start);
    assert (h + [e])[Upto(h, start)..] == h[Upto(h, start)..] + [e];
    LastOfSnoc(h[Upto(h, start)..], e, kind);
  }

  /** One more record; if it is of a latest-value component, it carries one of that component's pending values. */
  lemma AppendKeeps(r: Room, after: Room, e: Event, kind: EventType, which: nat)
    requires Inv(r) && kind in r.store && LatestOnly(kind)
    requires after.store == r.store && after.snapshot == r.snapshot && after.connected == r.connected
    requires after.system.log.history == r.system.log.history + [e] && Ascending(after.system.log.history)
    requires after.system.sub.start == r.system.sub.start
    requires e.kind != kind ==>
               PendingOf(after, kind) == PendingOf(r, kind) && NewestOf(after, kind) == NewestOf(r, kind)
    requires e.kind == kind ==>
               && which < |PendingOf(r, kind)| && e.body == PendingOf(r, kind)[which]
               && PendingOf(after, kind) == Except(PendingOf(r, kind), which)
               && NewestOf(after, kind) == Behind(NewestOf(r, kind), which + 1 == |PendingOf(r, kind)|)
    ensures StoreLeads(after, kind) && (r.connected ==> SnapshotCovered(after, kind))
  {
    assert StoreLeads(r, kind) && (r.connected ==>
           SnapshotCovered(r, kind) && Seen(r.system.log.history, r.system.sub.start));
    hide Inv, StoreLeads, SnapshotCovered, Ascending, Seen;
    LeadKeeps(r, after, e, kind, which);
    if r.connected { CoverKeeps(r, after, e, kind); }
  }

  lemma LeadKeeps(r: Room, after: Room, e: Event, kind: EventType, which: nat)
    requires kind in r.store && StoreLeads(r, kind) && after.store == r.store
    requires after.system.log.history == r.system.log.history + [e]
    requires e.kind != kind ==>
               PendingOf(after, kind) == PendingOf(r, kind) && NewestOf(after, kind) == NewestOf(r, kind)
    requires e.kind == kind ==>
               && which < |PendingOf(r, kind)| && e.body == PendingOf(r, kind)[which]
               && PendingOf(after, kind) == Except(PendingOf(r, kind), which)
               && NewestOf(after, kind) == Behind(NewestOf(r, kind), which + 1 == |PendingOf(r, kind)|)
    ensures StoreLeads(after, kind)
  {
    hide PendingOf, NewestOf, LastOf;
    LastOfSnoc(r.system.log.history, e, kind);
  }

  lemma CoverKeeps(r: Room, after: Room, e: Event, kind: EventType)
    requires kind in r.store && SnapshotCovered(r, kind) && Seen(r.system.log.history, r.system.sub.start)
    requires after.store == r.store && after.snapshot == r.snapshot && after.system.sub.start == r.system.sub.start
    requires after.system.log.history == r.system.log.history + [e] && Ascending(after.system.log.history)
    requires e.kind != kind ==> PendingOf(after, kind) == PendingOf(r, kind)
    ensures SnapshotCovered(after, kind)
  {
    hide PendingOf, LastOf, Ascending, Seen, Upto;
    OneMore(r.system.log.history, e, r.system.sub.start, kind);
  }

  lemma PublishKeeps(r: Room, kind: EventType, which: nat, id: nat, maxEvents: nat, readCount: nat)
    requires Inv(r)
    ensures Inv(Act(r, Publish(kind, which, id, maxEvents), readCount))
  {
    var after := Act(r, Publish(kind, which, id, maxEvents), readCount);
    if after != r {
      var e := Event(id, kind, PendingOf(r, kind)[which], None);
      AppendedInv(r, e, maxEvents, readCount);
      hide *;
      forall k | k in r.store && LatestOnly(k)
        ensures StoreLeads(after, k) && (r.connected ==> SnapshotCovered(after, k))
      {
        PublishedPending(r, kind, which, id, maxEvents, readCount, k);
        AppendKeeps(r, after, e, k, which);
      }
      InvIs(after);
    }
  }

  /** Appending a record keeps what the invariant says of the log and of the connection. */
  lemma AppendedInv(r: Room, e: Event, maxEvents: nat, readCount: nat)
    requires Inv(r) && Follows(e, r.system.log.history) && WellFormed(e)
    ensures var system := Subscription.Apply(r.system, Redis(Add(e, maxEvents)), readCount);
            && LogInv(system.log) && Ascending(system.log.history)
            && system.log.history == r.system.log.history + [e] && system.sub == r.system.sub
            && (forall x :: x in system.log.history ==> WellFormed(x))
            && (!r.connected ==> r.snapshot == map[])
            && (r.connected ==> Subscription.Inv(system) && Seen(system.log.history, system.sub.start))
  {
    var system := Subscription.Apply(r.system, Redis(Add(e, maxEvents)), readCount);
    ExecuteKeeps(r.system.log, Add(e, maxEvents));
    if r.connected {
      StepKeeps(r.system, Redis(Add(e, maxEvents)), readCount);
      UptoIsStable(r.system.log.history, system.log.history, r.system.sub.start);
    }
    hide Subscription.Inv, Ascending, Seen, WellFormed, Upto, StoreLeads, SnapshotCovered, Newest;
  }

  lemma PublishActs(r: Room, kind: EventType, which: nat, id: nat, maxEvents: nat, readCount: nat)
    requires Act(r, Publish(kind, which, id, maxEvents), readCount) != r
    ensures which < |PendingOf(r, kind)|
    ensures var after := Act(r, Publish(kind, which, id, maxEvents), readCount);
            && after.pending == r.pending[kind := Except(PendingOf(r, kind), which)]
            && after.newest == r.newest[kind := Behind(NewestOf(r, kind), which + 1 == |PendingOf(r, kind)|)]
  {
    hide Subscription.Apply, Follows, Except, Behind, LatestOnly, PendingOf, NewestOf;
  }

  lemma PublishedPending(r: Room, kind: EventType, which: nat, id: nat, maxEvents: nat, readCount: nat, k: EventType)
    requires Act(r, Publish(kind, which, id, maxEvents), readCount) != r
    ensures which < |PendingOf(r, kind)|
    ensures var after := Act(r, Publish(kind, which, id, maxEvents), readCount);
            if k == kind
            then PendingOf(after, k) == Except(PendingOf(r, k), which) &&
                 NewestOf(after, k) == Behind(NewestOf(r, k), which + 1 == |PendingOf(r, k)|)
            else PendingOf(after, k) == PendingOf(r, k) && NewestOf(after, k) == NewestOf(r, k)
  {
    hide Act, Except, Behind;
    PublishActs(r, kind, which, id, maxEvents, readCount);
  }

  lemma InvIs(r: Room)
    requires LogInv(r.system.log) && (forall e :: e in r.system.log.history ==> WellFormed(e))
    requires !r.connected ==> r.snapshot == map[]
    requires r.connected ==> Subscription.Inv(r.system) && Seen(r.system.log.history, r.system.sub.start)
    requires forall k :: k in r.store && LatestOnly(k) ==> StoreLeads(r, k) && (r.connected ==> SnapshotCovered(r, k))
    ensures Inv(r)
  {
  }

  lemma OtherAddKeeps(r: Room, e: Event, maxEvents: nat, readCount: nat)
    requires Inv(r) && Follows(e, r.system.log.history) && WellFormed(e) && !LatestOnly(e.kind)
    ensures Inv(r.(system := Subscription.Apply(r.system, Redis(Add(e, maxEvents)), readCount)))
  {
    var after := r.(system := Subscription.Apply(r.system, Redis(Add(e, maxEvents)), readCount));
    AppendedInv(r, e, maxEvents, readCount);
    assert forall k :: PendingOf(after, k) == PendingOf(r, k) && NewestOf(after, k) == NewestOf(r, k);
    hide *;
    forall k | k in r.store && LatestOnly(k)
      ensures StoreLeads(after, k) && (r.connected ==> SnapshotCovered(after, k))
    {
      assert k != e.kind;
      AppendKeeps(r, after, e, k, 0);
    }
    InvIs(after);
  }

  lemma SameHistoryKeeps(r: Room, after: Room)
    requires Inv(r) && after == r.(system := after.system) && LogInv(after.system.log)
    requires after.system.log.history == r.system.log.history && after.system.sub.start == r.system.sub.start
    requires r.connected ==> Subscription.Inv(after.system)
    ensures Inv(after)
  {
    hide Subscription.Inv, LogInv, Seen;
    forall kind | kind in r.store && LatestOnly(kind)
      ensures StoreLeads(after, kind) && (r.connected ==> SnapshotCovered(after, kind))
    {
      assert StoreLeads(r, kind) && (r.connected ==> SnapshotCovered(r, kind));
    }
  }

  lemma OtherKeeps(r: Room, step: Step, readCount: nat)
    requires Inv(r)
    ensures Inv(Act(r, Other(step), readCount))
  {
    if IsOther(step) && step.Redis? && step.command.Add? && Follows(step.command.event, r.system.log.history) {
      OtherAddKeeps(r, step.command.event, step.command.maxEvents, readCount);
    } else {
      var after := Act(r, Other(step), readCount);
      if r.connected { StepKeeps(r.system, step, readCount); }
      if step.Redis? { ExecuteKeeps(r.system.log, step.command); }
      StartIsFixed(r.system, [step], readCount);
      assert Subscription.Run(r.system, [step], readCount) == Subscription.Apply(r.system, step, readCount);
      hide Subscription.Inv, LogInv, Seen, DropBelow, Newest, Deliveries, ReadAfter, Inv;
      SameHistoryKeeps(r, after);
    }
  }

  lemma ConnectKeeps(r: Room, readCount: nat)
    requires Inv(r)
    ensures Inv(Act(r, Connect, readCount))
  {
    var after := Act(r, Connect, readCount);
    if !r.connected {
      forall k | k in r.store && LatestOnly(k) ensures StoreLeads(after, k) && SnapshotCovered(after, k)
      {
        assert StoreLeads(r, k);
      }
    }
  }

  /** Every action of any writer, publisher, appender or of the connection. */
  lemma ActKeeps(r: Room, action: Action, readCount: nat)
    requires Inv(r)
    ensures Inv(Act(r, action, readCount))
  {
    match action
    case Write(kind, value) => WriteKeeps(r, kind, value, readCount);
    case Publish(kind, which, id, maxEvents) => PublishKeeps(r, kind, which, id, maxEvents, readCount);
    case Connect => ConnectKeeps(r, readCount);
    case ReadSnapshot(kind) => ReadSnapshotKeeps(r, kind, readCount);
    case Other(step) => OtherKeeps(r, step, readCount);
  }

  lemma WriteKeeps(r: Room, kind: EventType, value: Body, readCount: nat)
    requires Inv(r)
    ensures Inv(Act(r, Write(kind, value), readCount))
  {
    hide Subscription.Inv, LogInv, Seen, Upto, WellFormed;
    var after := Act(r, Write(kind, value), readCount);
    forall k | k in r.store && LatestOnly(k)
      ensures StoreLeads(after, k) && (r.connected ==> SnapshotCovered(after, k))
    {
      assert StoreLeads(r, k) && (r.connected ==> SnapshotCovered(r, k));
    }
  }

  lemma ReadSnapshotKeeps(r: Room, kind: EventType, readCount: nat)
    requires Inv(r)
    ensures Inv(Act(r, ReadSnapshot(kind), readCount))
  {
    hide Subscription.Inv, LogInv, Seen, Upto, WellFormed;
    var after := Act(r, ReadSnapshot(kind), readCount);
    forall k | k in r.store && LatestOnly(k)
      ensures StoreLeads(after, k) && (r.connected ==> SnapshotCovered(after, k))
    {
      assert StoreLeads(r, k) && (r.connected ==> SnapshotCovered(r, k));
    }
  }

  lemma {:induction false} RunKeeps(r: Room, actions: seq<Action>, readCount: nat)
    requires Inv(r)
    ensures Inv(Run(r, actions, readCount))
    decreases |actions|
  {
    if actions != [] {
      ActKeeps(r, actions[0], readCount);
      RunKeeps(Act(r, actions[0], readCount), actions[1..], readCount);
    }
  }

  // ---------------------------------------------------------------- convergence

  /** Whatever the connection has taken in full is the history behind its start. */
  lemma TakenIsSegment(r: Room)
    requires Inv(r) && r.connected && r.system.sub.phase.Waiting?
    requires Upto(r.system.log.history, r.system.sub.cursor) == |r.system.log.history|
    ensures Flatten(r.system.sub.batches) == r.system.log.history[Captured(r)..]
    ensures r.system.sub.messages == DeliverAll(r.system.sub.batches)
  {
    UptoMonotone(r.system.log.history, r.system.sub.start, r.system.sub.cursor);
  }

  /** The last value of the whole log, given that of the part behind a position. */
  lemma LastBehind(h: seq<Event>, c: nat, kind: EventType)
    requires c <= |h|
    ensures LastOf(h[c..], kind).Some? ==> LastOf(h, kind) == LastOf(h[c..], kind)
  {
    LastOfConcat(h[..c], h[c..], kind);
    assert h[..c] + h[c..] == h;
  }

  /** A connection that has taken every record of the stream and read this component, none of whose values
      still waits. */
  ghost predicate Complete(r: Room, kind: EventType)
  {
    && r.connected && r.system.sub.phase.Waiting?
    && Upto(r.system.log.history, r.system.sub.cursor) == |r.system.log.history|
    && LatestOnly(kind) && kind in r.store && kind in r.snapshot && PendingOf(r, kind) == []
  }

  /** The client shows the last record behind its cursor, or the value it has read. */
  lemma ShowsLast(r: Room, kind: EventType, queue: seq<Shown>)
    requires Inv(r) && Complete(r, kind)
    ensures var latest := Fold(View(queue, [], r.snapshot, []), r.system.sub.messages).latest;
            var last := LastOf(r.system.log.history[Captured(r)..], kind);
            && kind in latest && latest[kind] == (if last.Some? then last.value else r.snapshot[kind])
            && (last.Some? ==> LastOf(r.system.log.history, kind) == last)
  {
    var h, v := r.system.log.history, View(queue, [], r.snapshot, []);
    var c := Captured(r);
    TakenIsSegment(r);
    assert forall e :: e in h[c..] ==> e in h;
    LastBehind(h, c, kind);
    hide *;
    CompactionPreservesLatest(v, v, r.system.sub.batches);
    FoldLeavesLast(v, h[c..], kind);
    KindOfComplete(r, kind);
  }

  lemma KindOfComplete(r: Room, kind: EventType)
    requires Complete(r, kind)
    ensures kind in r.snapshot && LatestOnly(kind)
  {
  }

  /** The client shows the stored value. */
  ghost predicate Shows(r: Room, kind: EventType)
  {
    var latest := Fold(View([], [], r.snapshot, []), r.system.sub.messages).latest;
    kind in latest && kind in r.store && latest[kind] == r.store[kind]
  }

  lemma Converged(r: Room, kind: EventType)
    requires Inv(r) && Complete(r, kind) && NewestOf(r, kind) != Overtaken
    ensures Shows(r, kind)
  {
    assert StoreLeads(r, kind) && SnapshotCovered(r, kind);
    hide Inv, Fold, Captured, Upto;
    ShowsLast(r, kind, []);
  }

  /** A room nobody is connected to, with nothing appended or pending, starts every run. */
  function Fresh(store: map<EventType, Body>): Room
  {
    Room(store, map[], map[], false, map[], System(Log([], [], false), Subscriber(0, 0, Waiting, [], [])))
  }

  lemma FreshRoom(store: map<EventType, Body>)
    ensures Inv(Fresh(store))
  {
    hide Subscription.Inv, SnapshotCovered, Fold;
  }

  /** Every run of this kind ends, once complete, with a client that shows the component's stored value. */
  ghost predicate AlwaysShows(overtaken: bool)
  {
    forall store, actions, readCount, kind ::
      var end := Run(Fresh(store), actions, readCount);
      Complete(end, kind) && (NewestOf(end, kind) == Overtaken) == overtaken ==> Shows(end, kind)
  }

  /** From any state of a run on, whatever was written, appended or trimmed between the cursor, the snapshot and the
      replay: the client ends with the stored value of every latest-value component it read, if no record of an
      older value was appended behind the newest one's. */
  lemma Convergence(r: Room, actions: seq<Action>, readCount: nat, kind: EventType)
    requires Inv(r)
    requires var end := Run(r, actions, readCount); Complete(end, kind) && NewestOf(end, kind) != Overtaken
    ensures Shows(Run(r, actions, readCount), kind)
  {
    RunKeeps(r, actions, readCount);
    hide Inv, Run, Complete, Shows;
    Converged(Run(r, actions, readCount), kind);
  }

  // ---------------------------------------------------------------- writers that overtake each other

  const OLD := Raw("old")
  const NEW := Raw("new")
  const CREATED := Event(1, OtherEvent("created"), Raw(""), None)
  const LATER := Event(2, SettingsUpdate, NEW, None)
  const EARLIER := Event(3, SettingsUpdate, OLD, None)

  const OPENING := [Other(Redis(Add(CREATED, 3)))] + ([Connect] + ([ReadSnapshot(SettingsUpdate)] + []))

  /** Both values are written, and the newer one is appended first. */
  const WRITTEN := [Write(SettingsUpdate, OLD)] + ([Write(SettingsUpdate, NEW)] +
                   ([Publish(SettingsUpdate, 1, 2, 3)] + ([Publish(SettingsUpdate, 0, 3, 3)] + [])))

  const TAKEN := [Other(Read)] + ([Other(ReadFirst)] + ([Other(ReadLast)] + ([Other(Send)] + [])))

  lemma RunCons(r: Room, action: Action, rest: seq<Action>, readCount: nat)
    ensures Run(r, [action] + rest, readCount) == Run(Act(r, action, readCount), rest, readCount)
            && Run(r, [], readCount) == r
  {
    hide Act;
    assert ([action] + rest)[1..] == rest;
  }

  lemma {:induction false} RunConcat(r: Room, a: seq<Action>, b: seq<Action>, readCount: nat)
    ensures Run(r, a + b, readCount) == Run(Run(r, a, readCount), b, readCount)
    decreases |a|
  {
    hide Act;
    if a == [] {
      assert a + b == b;
    } else {
      assert (a + b)[1..] == a[1..] + b;
      RunConcat(Act(r, a[0], readCount), a[1..], b, readCount);
    }
  }

  /** After the writes; then after the last published value is taken. */
  const BOTH := Room(map[SettingsUpdate := NEW], map[SettingsUpdate := []], map[SettingsUpdate := Overtaken], true,
                     map[SettingsUpdate := OLD],
                     System(Log([CREATED, LATER, EARLIER], [CREATED, LATER, EARLIER], false),
                            Subscriber(1, 1, Waiting, [], [])))

  const DONE := BOTH.(system := BOTH.system.(sub := Subscriber(1, 3, Waiting, [[LATER, EARLIER]], [EARLIER])))

  lemma NewerActs(r: Room)
    requires r == Room(map[SettingsUpdate := NEW], map[SettingsUpdate := [OLD, NEW]], map[SettingsUpdate := Waits],
             true,
                       map[SettingsUpdate := OLD],
                       System(Log([CREATED], [CREATED], false), Subscriber(1, 1, Waiting, [], [])))
    ensures Act(r, Publish(SettingsUpdate, 1, 2, 3), 2) ==
            r.(pending := map[SettingsUpdate := [OLD]], newest := map[SettingsUpdate := IsLast],
               system := System(Log([CREATED, LATER], [CREATED, LATER], false), r.system.sub))
  {
    assert Except([OLD, NEW], 1) == [OLD] && [CREATED] + [LATER] == [CREATED, LATER];
  }

  lemma OlderActs(r: Room)
    requires r == BOTH.(pending := map[SettingsUpdate := [OLD]], newest := map[SettingsUpdate := IsLast],
                        system := System(Log([CREATED, LATER], [CREATED, LATER], false), BOTH.system.sub))
    ensures Act(r, Publish(SettingsUpdate, 0, 3, 3), 2) == BOTH
  {
    assert Except([OLD], 0) == [] && [CREATED, LATER] + [EARLIER] == [CREATED, LATER, EARLIER];
  }

  const OPENED := Room(map[SettingsUpdate := OLD], map[], map[], true, map[SettingsUpdate := OLD],
                       System(Log([CREATED], [CREATED], false), Subscriber(1, 1, Waiting, [], [])))

  lemma OpeningRun()
    ensures Run(Fresh(map[SettingsUpdate := OLD]), OPENING, 2) == OPENED
  {
    var r := Fresh(map[SettingsUpdate := OLD]);
    var r1 := Act(r, Other(Redis(Add(CREATED, 3))), 2);
    assert [] + [CREATED] == [CREATED];
    var r2 := Act(r1, Connect, 2);
    assert Act(r2, ReadSnapshot(SettingsUpdate), 2) == OPENED;
    hide Act, Run, Fresh;
    RunCons(r, Other(Redis(Add(CREATED, 3))), [Connect] + ([ReadSnapshot(SettingsUpdate)] + []), 2);
    RunCons(r1, Connect, [ReadSnapshot(SettingsUpdate)] + [], 2);
    RunCons(r2, ReadSnapshot(SettingsUpdate), [], 2);
    RunCons(OPENED, Connect, [], 2);
  }

  lemma WritesAct()
    ensures Act(Act(OPENED, Write(SettingsUpdate, OLD), 2), Write(SettingsUpdate, NEW), 2) ==
            OPENED.(store := map[SettingsUpdate := NEW], pending := map[SettingsUpdate := [OLD, NEW]],
                    newest := map[SettingsUpdate := Waits])
  {
    assert [] + [OLD] == [OLD] && [OLD] + [NEW] == [OLD, NEW];
    assert Act(OPENED, Write(SettingsUpdate, OLD), 2) ==
           OPENED.(pending := map[SettingsUpdate := [OLD]], newest := map[SettingsUpdate := Waits]);
  }

  lemma WritesRun()
    ensures Run(Fresh(map[SettingsUpdate := OLD]), OPENING + WRITTEN, 2) == BOTH
  {
    hide Act, Run, Fresh;
    OpeningRun();
    WritesAct();
    RunConcat(Fresh(map[SettingsUpdate := OLD]), OPENING, WRITTEN, 2);
    var newer, older := Publish(SettingsUpdate, 1, 2, 3), Publish(SettingsUpdate, 0, 3, 3);
    var r1 := Act(OPENED, Write(SettingsUpdate, OLD), 2);
    var r2 := Act(r1, Write(SettingsUpdate, NEW), 2);
    NewerActs(r2);
    OlderActs(Act(r2, newer, 2));
    RunCons(OPENED, Write(SettingsUpdate, OLD), [Write(SettingsUpdate, NEW)] + ([newer] + ([older] + [])), 2);
    RunCons(r1, Write(SettingsUpdate, NEW), [newer] + ([older] + []), 2);
    RunCons(r2, newer, [older] + [], 2);
    RunCons(Act(r2, newer, 2), older, [], 2);
    RunCons(BOTH, older, [], 2);
  }

  lemma OnlyTheLast()
    ensures Deliveries([LATER, EARLIER]) == [EARLIER]
    ensures ReadAfter([CREATED, LATER, EARLIER], 1, 2) == [LATER, EARLIER]
  {
    var batch, records := [LATER, EARLIER], [CREATED, LATER, EARLIER];
    assert Supersedes(batch[1].kind, batch[0].kind);
    assert Kept(batch, 2) == [] && Kept(batch, 1) == [EARLIER] + Kept(batch, 2) == [EARLIER]
           && Kept(batch, 0) == Kept(batch, 1);
    assert PromoteAll([EARLIER]) == [Promote(EARLIER)];
    UptoIs(records, 1, 1);
    assert records[1..] == batch;
  }

  lemma TakesRun()
    ensures Run(BOTH, TAKEN, 2) == DONE
  {
    hide Deliveries, ReadAfter;
    OnlyTheLast();
    var batch, sub := [LATER, EARLIER], BOTH.system.sub;
    var r1 := Act(BOTH, Other(Read), 2);
    assert r1 == BOTH.(system := BOTH.system.(sub := sub.(phase := Checking(batch))));
    var r2 := Act(r1, Other(ReadFirst), 2);
    assert r2 == BOTH.(system := BOTH.system.(sub := sub.(phase := Bounding(batch, Some(1)))));
    var r3 := Act(r2, Other(ReadLast), 2);
    assert r3 == BOTH.(system := BOTH.system.(sub := sub.(phase := Delivering(batch, 1, 0))));
    assert [] + [EARLIER] == [EARLIER] && [] + [batch] == [batch] && Act(r3, Other(Send), 2) == DONE;
    hide Act, Run;
    RunCons(BOTH, Other(Read), [Other(ReadFirst)] + ([Other(ReadLast)] + ([Other(Send)] + [])), 2);
    RunCons(r1, Other(ReadFirst), [Other(ReadLast)] + ([Other(Send)] + []), 2);
    RunCons(r2, Other(ReadLast), [Other(Send)] + [], 2);
    RunCons(r3, Other(Send), [], 2);
    RunCons(DONE, Connect, [], 2);
  }

  lemma DoneIsWrong()
    ensures Complete(DONE, SettingsUpdate) && NewestOf(DONE, SettingsUpdate) == Overtaken
            && !Shows(DONE, SettingsUpdate)
  {
    var v := View([], [], DONE.snapshot, []);
    assert [EARLIER][1..] == [] && Convert(EARLIER) == Payload(SettingsUpdate, OLD);
    assert Fold(v, [EARLIER]) == Fold(Compaction.Apply(v, Convert(EARLIER)), []);
    assert Compaction.Apply(v, Convert(EARLIER)).latest[SettingsUpdate] == OLD;
  }

  /** Over all runs: a client is sure to show the stored value of a latest-value component if and only if no record
      of an older value was appended behind the newest one's. */
  lemma ShowsIff(overtaken: bool)
    ensures AlwaysShows(overtaken) <==> !overtaken
  {
    if overtaken {
      hide Run, Complete, Shows, Fresh;
      WritesRun();
      TakesRun();
      RunConcat(Fresh(map[SettingsUpdate := OLD]), OPENING + WRITTEN, TAKEN, 2);
      DoneIsWrong();
      assert Run(Fresh(map[SettingsUpdate := OLD]), (OPENING + WRITTEN) + TAKEN, 2) == DONE;
    } else {
      forall store, actions, readCount, kind
        ensures var end := Run(Fresh(store), actions, readCount);
                Complete(end, kind) && NewestOf(end, kind) != Overtaken ==> Shows(end, kind)
      {
        hide Run, Complete, Shows, Fresh, Inv;
        FreshRoom(store);
        var end := Run(Fresh(store), actions, readCount);
        if Complete(end, kind) && NewestOf(end,
          kind) != Overtaken { Convergence(Fresh(store), actions, readCount, kind); }
      }
    }
  }
}
