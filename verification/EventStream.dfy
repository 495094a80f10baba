/** The bounded Redis stream of one topic and the separate commands of an append. */
module EventStream {
  import opened Wrappers
  import opened Compaction

  // ---------------------------------------------------------------- stream IDs

  const SEQUENCE_LIMIT := 0x8000_0000_0000_0000

  datatype StreamId = StreamId(milliseconds: nat, sequence: nat)
  {
    predicate Valid() { milliseconds < SEQUENCE_LIMIT && sequence < SEQUENCE_LIMIT }

    /** An ID as one number; events carry their IDs in this form, 0 is 0-0. */
    function Rank(): nat { milliseconds * SEQUENCE_LIMIT + sequence }
  }

  function CompareStreamIDs(left: StreamId, right: StreamId): int
  {
    if left.milliseconds < right.milliseconds then -1
    else if left.milliseconds > right.milliseconds then 1
    else if left.sequence < right.sequence then -1
    else if left.sequence > right.sequence then 1
    else 0
  }

  function ReplayIDWithinBounds(candidate: StreamId, first: StreamId, last: StreamId): bool
  {
    CompareStreamIDs(candidate, first) >= 0 && CompareStreamIDs(candidate, last) <= 0
  }

  /** Comparing IDs part by part is comparing their ranks. */
  lemma CompareIsByRank(left: StreamId, right: StreamId)
    requires left.Valid() && right.Valid()
    ensures CompareStreamIDs(left, right) < 0 <==> left.Rank() < right.Rank()
    ensures CompareStreamIDs(left, right) == 0 <==> left == right
    ensures left.Rank() == right.Rank() <==> left == right
  {
    if left.milliseconds < right.milliseconds {
      assert (left.milliseconds + 1) * SEQUENCE_LIMIT <= right.milliseconds * SEQUENCE_LIMIT;
    } else if left.milliseconds > right.milliseconds {
      assert (right.milliseconds + 1) * SEQUENCE_LIMIT <= left.milliseconds * SEQUENCE_LIMIT;
    }
  }

  lemma WithinBoundsIsByRank(candidate: StreamId, first: StreamId, last: StreamId)
    requires candidate.Valid() && first.Valid() && last.Valid()
    ensures ReplayIDWithinBounds(candidate, first, last) <==> first.Rank() <= candidate.Rank() <= last.Rank()
  {
    CompareIsByRank(candidate, first);
    CompareIsByRank(candidate, last);
  }

  // ---------------------------------------------------------------- the stream

  /** The stored records, every record ever appended, and whether the key is set to expire. */
  datatype Log = Log(records: seq<Event>, history: seq<Event>, expiring: bool)

  datatype Command =
    | TrimMinId(cutoff: nat)
    | TrimMaxLen(count: nat)
    | Add(event: Event, maxEvents: nat)
    | SetExpiry
    | Lapse

  predicate Ascending(h: seq<Event>)
  {
    (forall i :: 0 <= i < |h| ==> h[i].id > 0) && forall i, j :: 0 <= i < j < |h| ==> h[i].id < h[j].id
  }

  function DropBelow(records: seq<Event>, cutoff: nat): seq<Event>
  {
    if records != [] && records[0].id < cutoff then DropBelow(records[1..], cutoff) else records
  }

  function Newest(records: seq<Event>, count: nat): seq<Event>
  {
    if |records| <= count then records else records[|records| - count..]
  }

  predicate Follows(event: Event, history: seq<Event>)
  {
    event.id > 0 && (history == [] || event.id > history[|history| - 1].id)
  }

  /** A command as one atomic step. Redis gives a new record an ID above every ID before it. */
  function Execute(log: Log, command: Command): Log
  {
    match command
    case TrimMinId(cutoff) => log.(records := DropBelow(log.records, cutoff))
    case TrimMaxLen(count) => log.(records := Newest(log.records, count))
    case Add(event, maxEvents) =>
      if Follows(event, log.history)
      then log.(records := Newest(log.records + [event], maxEvents), history := log.history + [event])
      else log
    case SetExpiry => if log.records != [] then log.(expiring := true) else log
    case Lapse => if log.expiring then log.(records := [], expiring := false) else log
  }

  predicate IsSuffix(records: seq<Event>, history: seq<Event>)
  {
    |records| <= |history| && records == history[|history| - |records|..]
  }

  /** The stream is the newest part of everything appended. */
  predicate LogInv(log: Log)
  {
    Ascending(log.history) && IsSuffix(log.records, log.history)
  }

  /** How many of the records ever appended are gone from the stream. */
  function Trimmed(log: Log): nat
    requires LogInv(log)
  {
    |log.history| - |log.records|
  }

  lemma {:induction false} DropBelowIsSuffix(records: seq<Event>, cutoff: nat)
    ensures IsSuffix(DropBelow(records, cutoff), records)
  {
    if records != [] && records[0].id < cutoff { DropBelowIsSuffix(records[1..], cutoff); }
  }

  /** Trimming by age keeps exactly the records that are young enough. */
  lemma {:induction false} DropBelowIsExact(records: seq<Event>, cutoff: nat)
    requires Ascending(records)
    ensures forall e :: e in DropBelow(records, cutoff) <==> e in records && e.id >= cutoff
  {
    if records != [] && records[0].id < cutoff {
      assert Ascending(records[1..]);
      DropBelowIsExact(records[1..], cutoff);
    } else {
      forall e | e in records ensures e.id >= cutoff {
        var i :| 0 <= i < |records| && records[i] == e;
      }
    }
  }

  lemma SuffixOfSuffix(a: seq<Event>, b: seq<Event>, c: seq<Event>)
    requires IsSuffix(a, b) && IsSuffix(b, c)
    ensures IsSuffix(a, c)
  {
  }

  lemma NewestIsSuffix(records: seq<Event>, count: nat)
    ensures IsSuffix(Newest(records, count), records)
  {
  }

  lemma AscendingSnoc(h: seq<Event>, e: Event)
    requires Ascending(h) && Follows(e, h)
    ensures Ascending(h + [e])
  {
    forall i | 0 <= i < |h| ensures h[i].id < e.id {
      if i < |h| - 1 { assert h[i].id < h[|h| - 1].id; }
    }
  }

  lemma SuffixSnoc(records: seq<Event>, history: seq<Event>, e: Event)
    requires IsSuffix(records, history)
    ensures IsSuffix(records + [e], history + [e])
  {
  }

  /** after keeps the invariant, extends the history and brings nothing back. */
  ghost predicate Grows(log: Log, after: Log)
    requires LogInv(log)
  {
    LogInv(after) && log.history <= after.history && Trimmed(log) <= Trimmed(after)
  }

  lemma TrimKeeps(log: Log, after: Log)
    requires LogInv(log) && IsSuffix(after.records, log.records) && after.history == log.history
    ensures Grows(log, after)
  {
    SuffixOfSuffix(after.records, log.records, log.history);
  }

  lemma AppendedGrows(log: Log, event: Event)
    requires LogInv(log) && Follows(event, log.history)
    ensures Grows(log, log.(records := log.records + [event], history := log.history + [event]))
  {
    AscendingSnoc(log.history, event);
    SuffixSnoc(log.records, log.history, event);
    hide Ascending, IsSuffix;
  }

  lemma GrowsTransitively(a: Log, b: Log, c: Log)
    requires LogInv(a) && Grows(a, b) && Grows(b, c)
    ensures Grows(a, c)
  {
    hide LogInv;
  }

  lemma AddKeeps(log: Log, event: Event, maxEvents: nat)
    requires LogInv(log) && Follows(event, log.history)
    ensures Grows(log, log.(records := Newest(log.records + [event], maxEvents), history := log.history + [event]))
  {
    var added := log.(records := log.records + [event], history := log.history + [event]);
    var after := log.(records := Newest(log.records + [event], maxEvents), history := log.history + [event]);
    AppendedGrows(log, event);
    NewestIsSuffix(log.records + [event], maxEvents);
    assert LogInv(added);
    hide Newest, LogInv, IsSuffix, Grows;
    TrimKeeps(added, after);
    GrowsTransitively(log, added, after);
  }

  /** One command of any append: the stream stays a suffix of a history that only grows, and what is gone stays gone. */
  lemma ExecuteKeeps(log: Log, command: Command)
    requires LogInv(log)
    ensures Grows(log, Execute(log, command))
  {
    hide LogInv, Grows, IsSuffix, Newest, DropBelow;
    match command
    case TrimMinId(cutoff) =>
      DropBelowIsSuffix(log.records, cutoff);
      TrimKeeps(log, Execute(log, command));
    case TrimMaxLen(count) =>
      NewestIsSuffix(log.records, count);
      TrimKeeps(log, Execute(log, command));
    case Add(event, maxEvents) =>
      SameGrows(log);
      if Follows(event, log.history) {
        AddKeeps(log, event, maxEvents);
      }
    case SetExpiry =>
      SameGrows(log);
    case Lapse =>
      SameGrows(log);
  }

  lemma SameGrows(log: Log)
    requires LogInv(log)
    ensures Grows(log, log) && Grows(log, log.(expiring := true)) && Grows(log, log.(records := [], expiring := false))
  {
  }

  predicate AddsKeep(command: Command, maxEvents: nat)
  {
    command.Add? ==> command.maxEvents == maxEvents
  }

  lemma ExecuteIsBounded(log: Log, command: Command, maxEvents: nat)
    requires |log.records| <= maxEvents && AddsKeep(command, maxEvents)
    ensures |Execute(log, command).records| <= maxEvents
  {
    if command.TrimMinId? { DropBelowIsSuffix(log.records, command.cutoff); }
  }

  function ExecuteAll(log: Log, commands: seq<Command>): Log
    decreases |commands|
  {
    if commands == [] then log else ExecuteAll(Execute(log, commands[0]), commands[1..])
  }

  /** Every interleaving of any callers' commands: the stream is a suffix of the append history, and never too long. */
  lemma {:induction false} StreamIsBoundedSuffix(log: Log, commands: seq<Command>, maxEvents: nat)
    requires LogInv(log) && |log.records| <= maxEvents
    requires forall i :: 0 <= i < |commands| ==> AddsKeep(commands[i], maxEvents)
    ensures LogInv(ExecuteAll(log, commands)) && |ExecuteAll(log, commands).records| <= maxEvents
    decreases |commands|
  {
    if commands != [] {
      ExecuteKeeps(log, commands[0]);
      ExecuteIsBounded(log, commands[0], maxEvents);
      StreamIsBoundedSuffix(Execute(log, commands[0]), commands[1..], maxEvents);
    }
  }

  /** An append nobody interrupts stores the new record behind the newest ones that are not too old. */
  lemma AppendEffect(log: Log, event: Event, cutoff: nat, maxEvents: nat)
    requires Follows(event, log.history) && maxEvents > 0
    ensures Execute(Execute(Execute(Execute(log, TrimMinId(cutoff)), TrimMaxLen(maxEvents - 1)),
                                    Add(event, maxEvents)), SetExpiry) ==
            Log(Newest(DropBelow(log.records, cutoff), maxEvents - 1) + [event], log.history + [event], true)
  {
    var young := DropBelow(log.records, cutoff);
    hide DropBelow, Follows;
    assert Execute(log, TrimMinId(cutoff)) == log.(records := young);
    var kept := Newest(young, maxEvents - 1);
    assert Execute(log.(records := young), TrimMaxLen(maxEvents - 1)) == log.(records := kept);
    assert |kept| < maxEvents && Newest(kept + [event], maxEvents) == kept + [event];
    var added := log.(records := kept + [event], history := log.history + [event]);
    assert Execute(log.(records := kept), Add(event, maxEvents)) == added;
    assert Execute(added, SetExpiry) == added.(expiring := true);
  }

  /** A command that keeps a record with this ID, as long as no more than count records are stored from it on. */
  predicate Spares(command: Command, id: nat, count: nat)
  {
    match command
    case TrimMinId(cutoff) => cutoff <= id
    case TrimMaxLen(kept) => kept >= count
    case Add(_, kept) => kept >= count
    case SetExpiry => true
    case Lapse => false
  }

  /** The record at index i of the history is stored. */
  ghost predicate Stores(log: Log, i: nat)
    requires LogInv(log)
  {
    Trimmed(log) <= i < |log.history|
  }

  lemma {:induction false} DropSpares(records: seq<Event>, cutoff: nat, k: nat)
    requires k < |records| && cutoff <= records[k].id
    requires forall i, j :: 0 <= i < j < |records| ==> records[i].id < records[j].id
    ensures |records| - |DropBelow(records, cutoff)| <= k
  {
    if records[0].id < cutoff { DropSpares(records[1..], cutoff, k - 1); }
  }

  lemma {:induction false} HistoryGrows(log: Log, commands: seq<Command>)
    ensures log.history <= ExecuteAll(log, commands).history
    decreases |commands|
  {
    if commands != [] {
      assert log.history <= Execute(log, commands[0]).history;
      HistoryGrows(Execute(log, commands[0]), commands[1..]);
    }
  }

  lemma StepSpares(log: Log, command: Command, i: nat, count: nat)
    requires LogInv(log) && Stores(log, i) && Spares(command, log.history[i].id, count)
    requires |Execute(log, command).history| - i <= count
    ensures LogInv(Execute(log, command)) && Stores(Execute(log, command), i)
  {
    ExecuteKeeps(log, command);
    if command.TrimMinId? { DropSpares(log.records, command.cutoff, i - Trimmed(log)); }
  }

  /** Over every run of any callers' commands a record stays stored, as long as no trimming by age reaches it, the
      number of records from it on stays within the limits, and the key does not lapse. */
  lemma {:induction false} RecordIsRetained(log: Log, commands: seq<Command>, i: nat, count: nat)
    requires LogInv(log) && Stores(log, i)
    requires forall k :: 0 <= k < |commands| ==> Spares(commands[k], log.history[i].id, count)
    requires |ExecuteAll(log, commands).history| - i <= count
    ensures LogInv(ExecuteAll(log, commands)) && log.history[i] in ExecuteAll(log, commands).records
    decreases |commands|
  {
    if commands == [] {
      assert log.records[i - Trimmed(log)] == log.history[i];
    } else {
      var next := Execute(log, commands[0]);
      HistoryGrows(next, commands[1..]);
      HistoryGrows(log, [commands[0]]);
      assert log.history <= next.history;
      StepSpares(log, commands[0], i, count);
      RecordIsRetained(next, commands[1..], i, count);
    }
  }

  /** A stored stream can be set to expire; when it lapses, all its records go at once, and it lapses only once. An
      empty stream cannot be set to expire. */
  lemma Lapses(log: Log)
    ensures var timed := Execute(log, SetExpiry);
            var lapsed := Execute(timed, Lapse);
            && timed.records == log.records && lapsed.history == log.history
            && (log.records != [] ==> lapsed.records == [])
            && (log.records == [] ==> timed == log)
            && !lapsed.expiring && Execute(lapsed, Lapse) == lapsed
            && (!log.expiring ==> Execute(log, Lapse) == log)
  {
  }

  /** The stream of one topic, and one append when no other caller's command comes in between. */
  class Stream {
    var log: Log
    const maxEvents: nat

    ghost predicate Valid()
      reads this
    {
      LogInv(log) && |log.records| <= maxEvents && maxEvents > 0
    }

    constructor (maxEvents: nat)
      requires maxEvents > 0
      ensures Valid() && log == Log([], [], false) && this.maxEvents == maxEvents
    {
      log, this.maxEvents := Log([], [], false), maxEvents;
    }

    method Do(command: Command)
      requires Valid() && AddsKeep(command, maxEvents)
      modifies this
      ensures Valid() && log == Execute(old(log), command)
    {
      ExecuteKeeps(log, command);
      ExecuteIsBounded(log, command, maxEvents);
      log := Execute(log, command);
    }

    /** Trim by age, trim by count, append, set the key's expiry. */
    method Append(event: Event, cutoff: nat)
      requires Valid() && Follows(event, log.history)
      modifies this
      ensures Valid()
      ensures log == Log(Newest(DropBelow(old(log.records), cutoff), maxEvents - 1) + [event],
                         old(log.history) + [event], true)
    {
      ghost var before := log;
      AppendEffect(log, event, cutoff, maxEvents);
      hide *;
      Do(TrimMinId(cutoff));
      Do(TrimMaxLen(maxEvents - 1));
      Do(Add(event, maxEvents));
      Do(SetExpiry);
    }
  }
}
