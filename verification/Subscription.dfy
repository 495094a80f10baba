/** A replay subscription reading a stream that appenders trim under it. */
module Subscription {
  import opened Wrappers
  import opened Compaction
  import opened EventStream

  /** from is the cursor before the batch; sent counts the batch's events delivered so far. */
  datatype Phase =
    | Waiting
    | Checking(batch: seq<Event>)
    | Bounding(batch: seq<Event>, first: Option<nat>)
    | Delivering(batch: seq<Event>, from: nat, sent: nat)
    | Closed(batch: seq<Event>, from: nat, sent: nat)

  /** cursor is the ID of the last delivered event; batches are the batches delivered in full. */
  datatype Subscriber = Subscriber(start: nat, cursor: nat, phase: Phase, batches: seq<seq<Event>>,
                                   messages: seq<Event>)

  /** One topic's stream and one of its subscribers; subscribers do not change the stream. */
  datatype System = System(log: Log, sub: Subscriber)

  datatype Step =
    | Redis(command: Command)
    | Read
    | ReadFirst
    | ReadLast
    | Send
    | Cancel

  // ---------------------------------------------------------------- reading

  /** How many records of an ascending log have an ID up to the cursor. */
  function Upto(h: seq<Event>, cursor: nat): (u: nat)
    ensures u <= |h|
  {
    if h == [] || h[|h| - 1].id <= cursor then |h| else Upto(h[..|h| - 1], cursor)
  }

  /** XREAD: the first count records behind the cursor. */
  function ReadAfter(records: seq<Event>, cursor: nat, count: nat): seq<Event>
  {
    var newer := records[Upto(records, cursor)..];
    if |newer| <= count then newer else newer[..count]
  }

  function FirstId(records: seq<Event>): Option<nat> { if records == [] then None else Some(records[0].id) }

  function LastId(records: seq<Event>): Option<nat> { if records == [] then None else Some(records[|records| - 1].id) }

  /** The continuity check behind prepare: the cursor is between the first and the last stored ID. */
  predicate Retained(cursor: nat, first: Option<nat>, last: Option<nat>)
  {
    first.Some? && last.Some? && first.value <= cursor <= last.value
  }

  function Close(sub: Subscriber): Subscriber
  {
    match sub.phase
    case Delivering(batch, from, sent) => sub.(phase := Closed(batch, from, sent))
    case Closed(_, _, _) => sub
    case _ => sub.(phase := Closed([], sub.cursor, 0))
  }

  function SendNext(sub: Subscriber): Subscriber
    requires sub.phase.Delivering? && sub.phase.sent < |Deliveries(sub.phase.batch)|
  {
    var batch := sub.phase.batch;
    var deliveries := Deliveries(batch);
    var event := deliveries[sub.phase.sent];
    var moved := sub.(messages := sub.messages + [event], cursor := event.id);
    if sub.phase.sent + 1 < |deliveries| then moved.(phase := Delivering(batch, sub.phase.from, sub.phase.sent + 1))
    else moved.(phase := Waiting, batches := sub.batches + [batch])
  }

  /** One step of the listening loop or one Redis command of any appender. */
  function Apply(s: System, step: Step, readCount: nat): System
  {
    match step
    case Redis(command) => s.(log := Execute(s.log, command))
    case Read =>
      var batch := ReadAfter(s.log.records, s.sub.cursor, readCount);
      if !s.sub.phase.Waiting? || batch == [] then s
      else if s.sub.cursor != 0 then s.(sub := s.sub.(phase := Checking(batch)))
      else s.(sub := s.sub.(phase := Delivering(batch, 0, 0)))
    case ReadFirst =>
      if s.sub.phase.Checking?
      then s.(sub := s.sub.(phase := Bounding(s.sub.phase.batch, FirstId(s.log.records))))
      else s
    case ReadLast =>
      if !s.sub.phase.Bounding? then s
      else if Retained(s.sub.cursor, s.sub.phase.first, LastId(s.log.records))
      then s.(sub := s.sub.(phase := Delivering(s.sub.phase.batch, s.sub.cursor, 0)))
      else s.(sub := Close(s.sub))
    case Send =>
      if s.sub.phase.Delivering? && s.sub.phase.sent < |Deliveries(s.sub.phase.batch)|
      then s.(sub := SendNext(s.sub))
      else s
    case Cancel => s.(sub := Close(s.sub))
  }

  function Run(s: System, steps: seq<Step>, readCount: nat): System
    decreases |steps|
  {
    if steps == [] then s else Run(Apply(s, steps[0], readCount), steps[1..], readCount)
  }

  function Subscribe(log: Log, start: nat): System
  {
    System(log, Subscriber(start, start, Waiting, [], []))
  }

  // ---------------------------------------------------------------- positions in the history

  lemma {:induction false} UptoSplits(h: seq<Event>, cursor: nat)
    requires Ascending(h)
    ensures forall i :: 0 <= i < Upto(h, cursor) ==> h[i].id <= cursor
    ensures forall i :: Upto(h, cursor) <= i < |h| ==> h[i].id > cursor
  {
    if h != [] && h[|h| - 1].id > cursor {
      UptoSplits(h[..|h| - 1], cursor);
    }
  }

  lemma UptoIs(h: seq<Event>, cursor: nat, u: nat)
    requires Ascending(h) && u <= |h|
    requires (u == 0 || h[u - 1].id <= cursor) && (u == |h| || h[u].id > cursor)
    ensures Upto(h, cursor) == u
  {
    UptoSplits(h, cursor);
  }

  /** The records of the history behind a and up to b. */
  function Segment(h: seq<Event>, a: nat, b: nat): seq<Event>
  {
    if Upto(h, a) <= Upto(h, b) then h[Upto(h, a)..Upto(h, b)] else []
  }

  ghost predicate Seen(h: seq<Event>, cursor: nat)
  {
    h != [] && cursor <= h[|h| - 1].id
  }

  /** Later records do not move positions that the history has already passed. */
  lemma UptoIsStable(h: seq<Event>, g: seq<Event>, cursor: nat)
    requires Ascending(g) && h <= g && Seen(h, cursor)
    ensures Upto(g, cursor) == Upto(h, cursor) && Seen(g, cursor)
  {
    assert Ascending(h);
    UptoSplits(h, cursor);
    var u := Upto(h, cursor);
    assert forall i :: 0 <= i < |h| ==> g[i] == h[i];
    if u == |h| {
      assert h[u - 1].id == cursor;
      UptoIs(g, cursor, u);
    } else {
      UptoIs(g, cursor, u);
    }
    if |g| > |h| { assert g[|h| - 1].id < g[|g| - 1].id; }
  }

  lemma SegmentIsStable(h: seq<Event>, g: seq<Event>, a: nat, b: nat)
    requires Ascending(g) && h <= g && Seen(h, a) && Seen(h, b)
    ensures Segment(g, a, b) == Segment(h, a, b)
  {
    UptoIsStable(h, g, a);
    UptoIsStable(h, g, b);
  }

  // ---------------------------------------------------------------- the invariant

  /** Everything delivered in full is the segment of the history from the start to here. */
  ghost predicate Through(h: seq<Event>, sub: Subscriber, here: nat)
  {
    && sub.start <= here && (here != sub.start ==> Seen(h, here))
    && Flatten(sub.batches) == Segment(h, sub.start, here)
  }

  /** The batch is all the history holds behind from, up to the batch's last record. */
  ghost predicate Contiguous(h: seq<Event>, from: nat, batch: seq<Event>)
  {
    batch != [] && batch == Segment(h, from, batch[|batch| - 1].id)
  }

  ghost predicate Behind(h: seq<Event>, from: nat, batch: seq<Event>)
  {
    batch != [] && from < batch[|batch| - 1].id && Seen(h, batch[|batch| - 1].id)
  }

  /** If no record at or before the cursor's successor is gone yet, nothing the batch should hold is missing. */
  ghost predicate SubInv(log: Log, sub: Subscriber)
    requires LogInv(log)
  {
    var h := log.history;
    match sub.phase
    case Waiting =>
      Through(h, sub, sub.cursor) && sub.messages == DeliverAll(sub.batches)
    case Checking(batch) =>
      Through(h, sub, sub.cursor) && sub.messages == DeliverAll(sub.batches) && Behind(h, sub.cursor, batch)
      && (Trimmed(log) < Upto(h, sub.cursor) ==> Contiguous(h, sub.cursor, batch))
    case Bounding(batch, first) =>
      Through(h, sub, sub.cursor) && sub.messages == DeliverAll(sub.batches) && Behind(h, sub.cursor, batch)
      && (first.Some? && first.value <= sub.cursor ==> Contiguous(h, sub.cursor, batch))
    case Delivering(batch, from, sent) =>
      Through(h, sub, from) && Behind(h, from, batch) && Contiguous(h, from, batch)
      && sent < |Deliveries(batch)| && sub.messages == DeliverAll(sub.batches) + Deliveries(batch)[..sent]
    case Closed(batch, from, sent) =>
      Through(h, sub, from) && (batch != [] ==> Behind(h, from, batch) && Contiguous(h, from, batch))
      && sent <= |Deliveries(batch)| && sub.messages == DeliverAll(sub.batches) + Deliveries(batch)[..sent]
  }

  ghost predicate Inv(s: System)
  {
    LogInv(s.log) && s.sub.start != 0 && SubInv(s.log, s.sub)
  }

  lemma FlattenSnoc(batches: seq<seq<Event>>, batch: seq<Event>)
    ensures Flatten(batches + [batch]) == Flatten(batches) + batch
    ensures DeliverAll(batches + [batch]) == DeliverAll(batches) + Deliveries(batch)
  {
    JoinSnoc(batches, batch);
    DeliverSnoc(batches, batch);
  }

  lemma {:induction false} JoinSnoc(batches: seq<seq<Event>>, batch: seq<Event>)
    ensures Flatten(batches + [batch]) == Flatten(batches) + batch
  {
    if batches == [] {
      assert batches + [batch] == [batch] && Flatten([batch]) == batch + Flatten([]);
    } else {
      assert (batches + [batch])[1..] == batches[1..] + [batch];
      JoinSnoc(batches[1..], batch);
    }
  }

  lemma {:induction false} DeliverSnoc(batches: seq<seq<Event>>, batch: seq<Event>)
    ensures DeliverAll(batches + [batch]) == DeliverAll(batches) + Deliveries(batch)
  {
    hide Deliveries;
    if batches == [] {
      assert batches + [batch] == [batch] && DeliverAll([batch]) == Deliveries(batch) + DeliverAll([]);
    } else {
      assert (batches + [batch])[1..] == batches[1..] + [batch];
      DeliverSnoc(batches[1..], batch);
    }
  }

  lemma ThroughIsStable(h: seq<Event>, g: seq<Event>, sub: Subscriber, here: nat)
    requires Ascending(h) && Ascending(g) && h <= g && Through(h, sub, here)
    ensures Through(g, sub, here)
  {
    if here == sub.start {
      assert Segment(h, here, here) == [] == Segment(g, here, here);
    } else {
      SegmentIsStable(h, g, sub.start, here);
      UptoIsStable(h, g, here);
    }
  }

  lemma BehindIsStable(h: seq<Event>, g: seq<Event>, from: nat, batch: seq<Event>)
    requires Ascending(h) && Ascending(g) && h <= g && Behind(h, from, batch)
    ensures Behind(g, from, batch) && Upto(g, from) == Upto(h, from)
    ensures Contiguous(h, from, batch) ==> Contiguous(g, from, batch)
  {
    UptoIsStable(h, g, batch[|batch| - 1].id);
    UptoIsStable(h, g, from);
    SegmentIsStable(h, g, from, batch[|batch| - 1].id);
  }

  /** Any appender's command leaves what the subscriber holds intact. */
  lemma RedisKeeps(s: System, command: Command)
    requires Inv(s)
    ensures Inv(s.(log := Execute(s.log, command)))
  {
    ExecuteKeeps(s.log, command);
    var h, g := s.log.history, Execute(s.log, command).history;
    hide Execute, Through, Behind, Contiguous, Segment, Upto, Deliveries, DeliverAll, Ascending;
    match s.sub.phase
    case Waiting =>
      ThroughIsStable(h, g, s.sub, s.sub.cursor);
    case Checking(batch) =>
      ThroughIsStable(h, g, s.sub, s.sub.cursor);
      BehindIsStable(h, g, s.sub.cursor, batch);
    case Bounding(batch, first) =>
      ThroughIsStable(h, g, s.sub, s.sub.cursor);
      BehindIsStable(h, g, s.sub.cursor, batch);
    case Delivering(batch, from, sent) =>
      ThroughIsStable(h, g, s.sub, from);
      BehindIsStable(h, g, from, batch);
    case Closed(batch, from, sent) =>
      ThroughIsStable(h, g, s.sub, from);
      if batch != [] { BehindIsStable(h, g, from, batch); }
  }

  lemma StoredPosition(log: Log, cursor: nat)
    requires LogInv(log)
    ensures Ascending(log.records)
    ensures Trimmed(log) < Upto(log.history, cursor) ==>
            Upto(log.history, cursor) == Trimmed(log) + Upto(log.records, cursor)
  {
    var h, r, t := log.history, log.records, Trimmed(log);
    assert forall i :: 0 <= i < |r| ==> r[i] == h[t + i];
    assert Ascending(r);
    UptoSplits(h, cursor);
    if t < Upto(h, cursor) {
      var u := Upto(h, cursor) - t;
      assert r[u - 1] == h[t + u - 1];
      assert u < |r| ==> r[u] == h[t + u];
      UptoIs(r, cursor, u);
    }
  }

  lemma SliceOfTail(h: seq<Event>, t: nat, u: nat, n: nat)
    requires t + u + n <= |h|
    ensures h[t..][u..u + n] == h[t + u..t + u + n]
  {
  }

  lemma ReadIsPrefix(records: seq<Event>, cursor: nat, count: nat)
    ensures var batch, u := ReadAfter(records, cursor, count), Upto(records, cursor);
            u + |batch| <= |records| && batch == records[u..u + |batch|]
  {
  }

  lemma ReadIsSlice(log: Log, cursor: nat, count: nat)
    requires LogInv(log) && ReadAfter(log.records, cursor, count) != []
    ensures var batch, first := ReadAfter(log.records, cursor, count), Trimmed(log) + Upto(log.records, cursor);
            && first + |batch| <= |log.history| && batch == log.history[first..first + |batch|]
            && log.history[first].id > cursor
            && (Trimmed(log) < Upto(log.history, cursor) ==> Upto(log.history, cursor) == first)
  {
    StoredPosition(log, cursor);
    UptoSplits(log.records, cursor);
    ReadIsPrefix(log.records, cursor, count);
    var h, t, u, n := log.history, Trimmed(log), Upto(log.records, cursor), |ReadAfter(log.records, cursor, count)|;
    assert log.records == h[t..] && log.records[u] == h[t + u];
    hide Upto, Ascending, ReadAfter, IsSuffix;
    SliceOfTail(h, t, u, n);
  }

  /** A read finds the records behind the cursor; if none before them is gone, it misses nothing. */
  lemma ReadIsContiguous(log: Log, cursor: nat, count: nat)
    requires LogInv(log) && ReadAfter(log.records, cursor, count) != []
    ensures Behind(log.history, cursor, ReadAfter(log.records, cursor, count))
    ensures Trimmed(log) < Upto(log.history, cursor) ==>
              Contiguous(log.history, cursor, ReadAfter(log.records, cursor, count))
  {
    ReadIsSlice(log, cursor, count);
    var h, first, batch := log.history, Trimmed(log) + Upto(log.records, cursor), ReadAfter(log.records, cursor, count);
    hide ReadAfter, Upto, IsSuffix;
    var end := first + |batch|;
    assert batch[|batch| - 1] == h[end - 1];
    UptoIs(h, h[end - 1].id, end);
    assert h[first].id <= h[end - 1].id <= h[|h| - 1].id;
  }

  lemma FirstIsRetained(log: Log, cursor: nat)
    requires LogInv(log) && log.records != [] && log.records[0].id <= cursor
    ensures Trimmed(log) < Upto(log.history, cursor)
  {
    UptoSplits(log.history, cursor);
    assert log.records[0] == log.history[Trimmed(log)];
  }

  lemma PrefixSnoc(before: seq<Event>, deliveries: seq<Event>, sent: nat)
    requires sent < |deliveries|
    ensures before + deliveries[..sent] + [deliveries[sent]] == before + deliveries[..sent + 1]
    ensures sent + 1 == |deliveries| ==> before + deliveries[..sent] + [deliveries[sent]] == before + deliveries
  {
    assert deliveries[..sent] + [deliveries[sent]] == deliveries[..sent + 1];
  }

  lemma SendKeeps(s: System)
    requires Inv(s) && s.sub.phase.Delivering? && s.sub.phase.sent < |Deliveries(s.sub.phase.batch)|
    ensures Inv(s.(sub := SendNext(s.sub)))
  {
    PrefixSnoc(DeliverAll(s.sub.batches), Deliveries(s.sub.phase.batch), s.sub.phase.sent);
    if s.sub.phase.sent + 1 == |Deliveries(s.sub.phase.batch)| {
      LastSendKeeps(s);
    } else {
      hide Contiguous, Behind, Upto, Deliveries, DeliverAll, Segment, Flatten, Ascending;
    }
  }

  lemma LastSendKeeps(s: System)
    requires Inv(s) && s.sub.phase.Delivering? && s.sub.phase.sent + 1 == |Deliveries(s.sub.phase.batch)|
    ensures Inv(s.(sub := SendNext(s.sub)))
  {
    var batch, sent := s.sub.phase.batch, s.sub.phase.sent;
    LastIsDelivered(batch);
    FlattenSnoc(s.sub.batches, batch);
    ThroughMore(s.log.history, s.sub, s.sub.phase.from, batch);
    hide Contiguous, Upto, Deliveries, DeliverAll, Segment, Flatten, Ascending;
    PrefixSnoc(DeliverAll(s.sub.batches), Deliveries(batch), sent);
  }

  lemma ThroughMore(h: seq<Event>, sub: Subscriber, from: nat, batch: seq<Event>)
    requires Ascending(h) && Through(h, sub, from) && Behind(h, from, batch) && Contiguous(h, from, batch)
    ensures Flatten(sub.batches) + batch == Segment(h, sub.start, batch[|batch| - 1].id)
  {
    var last := batch[|batch| - 1].id;
    UptoMonotone(h, sub.start, from);
    UptoMonotone(h, from, last);
  }

  lemma UptoMonotone(h: seq<Event>, a: nat, b: nat)
    requires Ascending(h) && a <= b
    ensures Upto(h, a) <= Upto(h, b)
  {
    UptoSplits(h, a);
    UptoSplits(h, b);
  }

  lemma ReadKeeps(s: System, readCount: nat)
    requires Inv(s)
    ensures Inv(Apply(s, Read, readCount))
  {
    if s.sub.phase.Waiting? && ReadAfter(s.log.records, s.sub.cursor, readCount) != [] {
      ReadIsContiguous(s.log, s.sub.cursor, readCount);
      hide ReadAfter, Segment, Contiguous, Behind, Seen, Deliveries, Flatten, DeliverAll, LogInv, Upto;
    }
  }

  lemma ReadFirstKeeps(s: System, readCount: nat)
    requires Inv(s)
    ensures Inv(Apply(s, ReadFirst, readCount))
  {
    if s.sub.phase.Checking? && s.log.records != [] && s.log.records[0].id <= s.sub.cursor {
      FirstIsRetained(s.log, s.sub.cursor);
    }
    hide Through, Contiguous, Behind, LogInv, Upto, Deliveries, DeliverAll;
  }

  lemma ReadLastKeeps(s: System, readCount: nat)
    requires Inv(s)
    ensures Inv(Apply(s, ReadLast, readCount))
  {
    if s.sub.phase.Bounding? {
      LastIsDelivered(s.sub.phase.batch);
      CloseKeeps(s);
      NothingSent(DeliverAll(s.sub.batches), Deliveries(s.sub.phase.batch));
      hide Through, Contiguous, Behind, LogInv, Upto, Deliveries, DeliverAll;
    }
  }

  /** One step of the subscriber, or of any appender. */
  lemma StepKeeps(s: System, step: Step, readCount: nat)
    requires Inv(s)
    ensures Inv(Apply(s, step, readCount))
  {
    if step.Send? && s.sub.phase.Delivering? && s.sub.phase.sent < |Deliveries(s.sub.phase.batch)| { SendKeeps(s); }
    hide Inv, Deliveries, Execute, ReadAfter;
    match step
    case Redis(command) => RedisKeeps(s, command);
    case Read => ReadKeeps(s, readCount);
    case ReadFirst => ReadFirstKeeps(s, readCount);
    case ReadLast => ReadLastKeeps(s, readCount);
    case Send =>
    case Cancel => CloseKeeps(s);
  }

  lemma NothingSent(messages: seq<Event>, deliveries: seq<Event>)
    ensures messages + deliveries[..0] == messages
  {
  }

  lemma CloseKeeps(s: System)
    requires Inv(s)
    ensures Inv(s.(sub := Close(s.sub)))
  {
    NothingSent(DeliverAll(s.sub.batches), Deliveries([]));
    hide Contiguous, Behind, Upto, Deliveries, DeliverAll, Segment, Flatten;
    if !s.sub.phase.Delivering? && !s.sub.phase.Closed? {
      assert Through(s.log.history, s.sub, s.sub.cursor) && s.sub.messages == DeliverAll(s.sub.batches);
      assert Close(s.sub) == s.sub.(phase := Closed([], s.sub.cursor, 0));
      SameThrough(s.log.history, s.sub, Close(s.sub), s.sub.cursor);
    }
  }

  lemma SameThrough(h: seq<Event>, sub: Subscriber, other: Subscriber, here: nat)
    requires Through(h, sub, here) && sub.start == other.start && sub.batches == other.batches
    ensures Through(h, other, here)
  {
  }

  lemma {:induction false} RunKeeps(s: System, steps: seq<Step>, readCount: nat)
    requires Inv(s)
    ensures Inv(Run(s, steps, readCount))
    decreases |steps|
  {
    if steps != [] {
      StepKeeps(s, steps[0], readCount);
      RunKeeps(Apply(s, steps[0], readCount), steps[1..], readCount);
    }
  }

  // ---------------------------------------------------------------- the promises

  /** For every interleaving with any number of appenders: whatever a subscription that does not start at 0-0 has
      delivered is, batch by batch, a segment of the history without gaps from its start. */
  lemma GapFree(log: Log, start: nat, steps: seq<Step>, readCount: nat)
    requires LogInv(log) && start != 0
    ensures var s := Run(Subscribe(log, start), steps, readCount);
            && LogInv(s.log)
            && (s.sub.phase.Waiting? ==>
                  s.sub.messages == DeliverAll(s.sub.batches) &&
                  Flatten(s.sub.batches) == Segment(s.log.history, start, s.sub.cursor))
            && s.sub.messages <= DeliverAll(Begun(s.sub))
            && exists here :: Flatten(Begun(s.sub)) == Segment(s.log.history, start, here)
  {
    var s0 := Subscribe(log, start);
    assert Flatten(s0.sub.batches) == [] == Segment(log.history, start, start);
    RunKeeps(s0, steps, readCount);
    var s := Run(s0, steps, readCount);
    StartIsFixed(s0, steps, readCount);
    var here := Delivered(s);
  }

  /** The batches delivered so far, the one under way included. */
  function Begun(sub: Subscriber): seq<seq<Event>>
  {
    match sub.phase
    case Delivering(batch, _, _) => sub.batches + [batch]
    case Closed(batch, _, _) => if batch == [] then sub.batches else sub.batches + [batch]
    case _ => sub.batches
  }

  lemma PartOfBatch(h: seq<Event>, sub: Subscriber, from: nat, batch: seq<Event>, sent: nat)
    requires Ascending(h) && Through(h, sub, from) && Behind(h, from, batch) && Contiguous(h, from, batch)
    requires sent <= |Deliveries(batch)| && sub.messages == DeliverAll(sub.batches) + Deliveries(batch)[..sent]
    ensures sub.messages <= DeliverAll(sub.batches + [batch])
    ensures Flatten(sub.batches + [batch]) == Segment(h, sub.start, batch[|batch| - 1].id)
  {
    FlattenSnoc(sub.batches, batch);
    ThroughMore(h, sub, from, batch);
    hide Deliveries, DeliverAll, Flatten, Segment;
  }

  lemma Delivered(s: System) returns (here: nat)
    requires Inv(s)
    ensures s.sub.messages <= DeliverAll(Begun(s.sub))
            && Flatten(Begun(s.sub)) == Segment(s.log.history, s.sub.start, here)
  {
    var h := s.log.history;
    match s.sub.phase
    case Waiting => here := s.sub.cursor;
    case Checking(_) => here := s.sub.cursor;
    case Bounding(_, _) => here := s.sub.cursor;
    case Delivering(batch, from, sent) =>
      here := batch[|batch| - 1].id;
      PartOfBatch(h, s.sub, from, batch, sent);
    case Closed(batch, from, sent) =>
      if batch == [] {
        here := from;
        assert Deliveries(batch) == [];
      } else {
        here := batch[|batch| - 1].id;
        PartOfBatch(h, s.sub, from, batch, sent);
      }
  }

  lemma {:induction false} StartIsFixed(s: System, steps: seq<Step>, readCount: nat)
    ensures Run(s, steps, readCount).sub.start == s.sub.start
    decreases |steps|
  {
    if steps != [] { StartIsFixed(Apply(s, steps[0], readCount), steps[1..], readCount); }
  }

  /** Whenever the subscription has delivered its batches in full, the client's view is that of every record
      of the history behind the start, up to the cursor. */
  lemma ViewOfHistory(log: Log, start: nat, steps: seq<Step>, readCount: nat, v: View)
    requires LogInv(log) && start != 0
    requires var s := Run(Subscribe(log, start), steps, readCount);
             s.sub.phase.Waiting? && Faithful(v, Segment(s.log.history, start, s.sub.cursor))
    ensures var s := Run(Subscribe(log, start), steps, readCount);
            Fold(v, s.sub.messages) == Fold(v, Segment(s.log.history, start, s.sub.cursor))
  {
    var s := Run(Subscribe(log, start), steps, readCount);
    GapFree(log, start, steps, readCount);
    CompactionPreservesView(v, s.sub.batches);
  }

  /** The record behind the cursor is gone, and no read of it or of the first ID is under way. */
  ghost predicate Missed(s: System)
  {
    && LogInv(s.log) && s.sub.cursor != 0 && Seen(s.log.history, s.sub.cursor)
    && Upto(s.log.history, s.sub.cursor) < Trimmed(s.log)
    && match s.sub.phase
       case Waiting => true
       case Checking(_) => true
       case Bounding(_, first) => first.Some? ==> first.value > s.sub.cursor
       case Delivering(_, _, _) => false
       case Closed(_, _, _) => true
  }

  lemma MissedStep(s: System, step: Step, readCount: nat)
    requires Missed(s)
    ensures Missed(Apply(s, step, readCount)) && Apply(s, step, readCount).sub.messages == s.sub.messages
  {
    match step
    case Redis(command) =>
      ExecuteKeeps(s.log, command);
      UptoIsStable(s.log.history, Execute(s.log, command).history, s.sub.cursor);
    case ReadFirst =>
      if s.log.records != [] {
        UptoSplits(s.log.history, s.sub.cursor);
        assert s.log.records[0] == s.log.history[Trimmed(s.log)];
      }
    case _ =>
  }

  /** Once the record behind the cursor is trimmed, nothing more is delivered: the subscription can only close. */
  lemma {:induction false} NeverSkips(s: System, steps: seq<Step>, readCount: nat)
    requires Missed(s)
    ensures Run(s, steps, readCount).sub.messages == s.sub.messages
    ensures !Run(s, steps, readCount).sub.phase.Delivering?
    decreases |steps|
  {
    if steps != [] {
      MissedStep(s, steps[0], readCount);
      NeverSkips(Apply(s, steps[0], readCount), steps[1..], readCount);
    }
  }

  // ---------------------------------------------------------------- progress

  function Sends(count: nat): seq<Step>
  {
    if count == 0 then [] else [Send] + Sends(count - 1)
  }

  lemma RunConcat(s: System, a: seq<Step>, b: seq<Step>, readCount: nat)
    ensures Run(s, a + b, readCount) == Run(Run(s, a, readCount), b, readCount)
    decreases |a|
  {
    if a == [] {
      assert a + b == b;
    } else {
      assert (a + b)[1..] == a[1..] + b;
      RunConcat(Apply(s, a[0], readCount), a[1..], b, readCount);
    }
  }

  lemma OneSend(s: System, rest: seq<Step>, readCount: nat)
    requires s.sub.phase.Delivering? && s.sub.phase.sent < |Deliveries(s.sub.phase.batch)|
    ensures Run(s, [Send] + rest, readCount) == Run(s.(sub := SendNext(s.sub)), rest, readCount)
  {
    hide Deliveries;
    assert ([Send] + rest)[1..] == rest;
    assert Apply(s, Send, readCount) == s.(sub := SendNext(s.sub));
  }

  lemma RestAfter(messages: seq<Event>, deliveries: seq<Event>, sent: nat)
    requires sent < |deliveries|
    ensures messages + [deliveries[sent]] + deliveries[sent + 1..] == messages + deliveries[sent..]
    ensures sent + 1 == |deliveries| ==> messages + [deliveries[sent]] == messages + deliveries[sent..]
  {
    assert deliveries[sent..] == [deliveries[sent]] + deliveries[sent + 1..];
  }

  /** The subscriber once its batch is delivered. */
  function Finished(sub: Subscriber): Subscriber
    requires sub.phase.Delivering? && sub.phase.sent < |Deliveries(sub.phase.batch)|
  {
    var deliveries := Deliveries(sub.phase.batch);
    Subscriber(sub.start, deliveries[|deliveries| - 1].id, Waiting, sub.batches + [sub.phase.batch],
               sub.messages + deliveries[sub.phase.sent..])
  }

  lemma LastSendFinishes(sub: Subscriber)
    requires sub.phase.Delivering? && sub.phase.sent < |Deliveries(sub.phase.batch)|
    ensures sub.phase.sent + 1 == |Deliveries(sub.phase.batch)| ==> SendNext(sub) == Finished(sub)
    ensures sub.phase.sent + 1 < |Deliveries(sub.phase.batch)| ==>
              SendNext(sub).phase == Delivering(sub.phase.batch, sub.phase.from, sub.phase.sent + 1)
                && Finished(SendNext(sub)) == Finished(sub)
  {
    RestAfter(sub.messages, Deliveries(sub.phase.batch), sub.phase.sent);
    hide Deliveries;
  }

  /** The events still to be sent arrive one by one, and the cursor follows. */
  lemma {:induction false} SendsDeliver(s: System, count: nat, readCount: nat)
    requires s.sub.phase.Delivering? && s.sub.phase.sent + count == |Deliveries(s.sub.phase.batch)| && count > 0
    ensures Run(s, Sends(count), readCount) == s.(sub := Finished(s.sub))
    decreases count
  {
    OneSend(s, Sends(count - 1), readCount);
    LastSendFinishes(s.sub);
    assert Run(s.(sub := SendNext(s.sub)), [], readCount) == s.(sub := SendNext(s.sub));
    assert Sends(count) == [Send] + Sends(count - 1);
    assert count == 1 ==> Sends(count - 1) == [];
    hide *;
    if count > 1 { SendsDeliver(s.(sub := SendNext(s.sub)), count - 1, readCount); }
  }

  /** A subscriber whose cursor is still stored is never turned away: undisturbed, one round delivers the batch it reads
      and moves the cursor to the batch's last record. */
  lemma RoundDelivers(s: System, readCount: nat)
    requires s.sub.phase.Waiting? && LogInv(s.log) && s.log.records != [] && s.sub.cursor != 0
    requires s.log.records[0].id <= s.sub.cursor < s.log.records[|s.log.records| - 1].id && readCount > 0
    ensures var batch := ReadAfter(s.log.records, s.sub.cursor, readCount);
            && batch != []
            && Run(s, [Read, ReadFirst, ReadLast] + Sends(|Deliveries(batch)|), readCount) ==
                 s.(sub := Subscriber(s.sub.start, batch[|batch| - 1].id, Waiting, s.sub.batches + [batch],
                                      s.sub.messages + Deliveries(batch)))
  {
    var batch := ReadAfter(s.log.records, s.sub.cursor, readCount);
    StoredPosition(s.log, s.sub.cursor);
    UptoSplits(s.log.records, s.sub.cursor);
    assert batch != [];
    LastIsDelivered(batch);
    var checked := s.(sub := s.sub.(phase := Delivering(batch, s.sub.cursor, 0)));
    ThreeSteps(s, readCount);
    RunConcat(s, [Read, ReadFirst, ReadLast], Sends(|Deliveries(batch)|), readCount);
    hide Run, ReadAfter, Deliveries, Upto;
    SendsDeliver(checked, |Deliveries(batch)|, readCount);
    assert Deliveries(batch)[0..] == Deliveries(batch);
  }

  lemma ThreeSteps(s: System, readCount: nat)
    requires s.sub.phase.Waiting? && s.log.records != [] && s.sub.cursor != 0
    requires s.log.records[0].id <= s.sub.cursor <= s.log.records[|s.log.records| - 1].id
    requires ReadAfter(s.log.records, s.sub.cursor, readCount) != []
    ensures Run(s, [Read, ReadFirst, ReadLast], readCount) ==
            s.(sub := s.sub.(phase := Delivering(ReadAfter(s.log.records, s.sub.cursor, readCount), s.sub.cursor, 0)))
  {
    var batch := ReadAfter(s.log.records, s.sub.cursor, readCount);
    hide ReadAfter, Deliveries;
    var s1 := Apply(s, Read, readCount);
    assert s1 == s.(sub := s.sub.(phase := Checking(batch)));
    var s2 := Apply(s1, ReadFirst, readCount);
    var s3 := Apply(s2, ReadLast, readCount);
    assert [Read, ReadFirst, ReadLast][1..] == [ReadFirst, ReadLast] && [ReadFirst, ReadLast][1..] == [ReadLast];
    assert Run(s2, [ReadLast], readCount) == Run(s3, [], readCount);
  }
}
