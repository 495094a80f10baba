/** What a handler may do between its statement and its record, and that nothing but statements changes the room. */
module LiveHandlers {
  import opened Wrappers
  import opened QueueOrder
  import opened RoomQueue
  import opened QueueRecords
  import opened LiveQueue
  import QueueInvariant
  import QueueDeltas
  import Compaction

  /** The statements of a run that come in time, in order. */
  function Statements(now: int, actions: seq<Action>): seq<QueueInvariant.Event>
    decreases |actions|
  {
    if actions == [] then []
    else if actions[0].Store? && actions[0].at >= now
    then [QueueInvariant.Event(actions[0].change, actions[0].at)] + Statements(actions[0].at + 1, actions[1..])
    else Statements(now, actions[1..])
  }

  ghost predicate Ascending(run: seq<QueueInvariant.Event>, now: int)
  {
    && (forall i :: 0 <= i < |run| ==> run[i].now >= now)
    && forall i, j :: 0 <= i < j < |run| ==> run[i].now < run[j].now
  }

  lemma {:induction false} StatementsAscend(now: int, actions: seq<Action>)
    ensures Ascending(Statements(now, actions), now)
    decreases |actions|
  {
    if actions != [] {
      var stores := actions[0].Store? && actions[0].at >= now;
      var rest := Statements(if stores then actions[0].at + 1 else now, actions[1..]);
      StatementsAscend(if stores then actions[0].at + 1 else now, actions[1..]);
      assert stores ==> Statements(now, actions) == [QueueInvariant.Event(actions[0].change, actions[0].at)] + rest;
      assert !stores ==> Statements(now, actions) == rest;
    }
  }

  lemma StatementsAreClocked(r: Room, now: int, actions: seq<Action>)
    requires Stamped(r, now)
    ensures QueueInvariant.Clocked(r, Statements(now, actions))
  {
    StatementsAscend(now, actions);
  }

  lemma ActStores(s: State, action: Action, readCount: nat, enabled: set<Source>)
    requires Stamped(s.room, s.now)
    ensures var t := Act(s, action, readCount, enabled);
            if action.Store? && action.at >= s.now
            then t.room == QueueInvariant.Apply(s.room, action.change, action.at, enabled) && t.now == action.at + 1
            else t.room == s.room && t.now == s.now
  {
    hide QueueInvariant.Apply, TaskOf, Stamped;
  }

  lemma RunsOne(r: Room, e: QueueInvariant.Event, rest: seq<QueueInvariant.Event>, enabled: set<Source>)
    requires QueueInvariant.Clocked(r, [e] + rest)
    ensures Stamped(r, e.now) && QueueInvariant.Clocked(QueueInvariant.Apply(r, e.step, e.now, enabled), rest)
    ensures QueueInvariant.Run(r, [e] + rest, enabled) ==
            QueueInvariant.Run(QueueInvariant.Apply(r, e.step, e.now, enabled), rest, enabled)
  {
    assert ([e] + rest)[1..] == rest && ([e] + rest)[0] == e;
    assert forall i :: 0 <= i < |rest| ==> rest[i] == ([e] + rest)[i + 1];
    hide QueueInvariant.Apply;
  }

  /** Whatever handlers, appenders and connections do in between, the room is what the statements alone make of it. */
  lemma {:induction false} RoomIsStatements(s: State, actions: seq<Action>, readCount: nat, enabled: set<Source>)
    requires Stamped(s.room, s.now)
    ensures QueueInvariant.Clocked(s.room, Statements(s.now, actions))
    ensures Run(s, actions, readCount, enabled).room ==
            QueueInvariant.Run(s.room, Statements(s.now, actions), enabled)
    decreases |actions|
  {
    StatementsAreClocked(s.room, s.now, actions);
    if actions == [] {
      assert Statements(s.now, actions) == [];
    } else {
      var action := actions[0];
      var t := Act(s, action, readCount, enabled);
      ActStores(s, action, readCount, enabled);
      var stores := action.Store? && action.at >= s.now;
      assert Statements(s.now, actions) ==
             (if stores then [QueueInvariant.Event(action.change, action.at)] + Statements(t.now, actions[1..])
              else Statements(t.now, actions[1..]));
      assert Run(s, actions, readCount, enabled) == Run(t, actions[1..], readCount, enabled);
      hide *;
      RoomIsStatements(t, actions[1..], readCount, enabled);
      if stores {
        RunsOne(s.room, QueueInvariant.Event(action.change, action.at), Statements(t.now, actions[1..]), enabled);
      }
    }
  }

  /** A done handler appends nothing. */
  ghost predicate NoneFrom(entries: seq<Entry>, from: nat, handler: nat)
  {
    forall i :: from <= i < |entries| ==> entries[i].storedAt != handler
  }

  lemma ActOfDone(s: State, action: Action, readCount: nat, enabled: set<Source>, handler: nat)
    requires Stamped(s.room, s.now) && handler < |s.handlers| && s.handlers[handler].Done?
    ensures var t := Act(s, action, readCount, enabled);
            && handler < |t.handlers| && t.handlers[handler].Done? && s.entries <= t.entries
            && NoneFrom(t.entries, |s.entries|, handler)
  {
    hide QueueInvariant.Apply, TaskOf, Stamped;
  }

  /** A handler that has appended its record, or failed before it could, never appends one again. */
  lemma {:induction false} DoneIsSilent(s: State, actions: seq<Action>, readCount: nat, enabled: set<Source>,
                                        handler: nat)
    requires Stamped(s.room, s.now) && handler < |s.handlers| && s.handlers[handler].Done?
    ensures var t := Run(s, actions, readCount, enabled);
            && handler < |t.handlers| && t.handlers[handler].Done? && s.entries <= t.entries
            && NoneFrom(t.entries, |s.entries|, handler)
    decreases |actions|
  {
    if actions != [] {
      ActOfDone(s, actions[0], readCount, enabled, handler);
      hide Act;
      DoneIsSilent(Act(s, actions[0], readCount, enabled), actions[1..], readCount, enabled, handler);
    }
  }

  /** A failure or an append makes its handler done, with one record for an append and none for a failure. */
  lemma HandlerEnds(s: State, handler: nat, id: nat, maxEvents: nat, readCount: nat, enabled: set<Source>)
    requires Stamped(s.room, s.now) && handler < |s.handlers|
    ensures var t := Act(s, Fail(handler), readCount, enabled);
            t.handlers[handler].Done? && t.entries == s.entries && t.system == s.system
    ensures var t := Act(s, Append(handler, id, maxEvents), readCount, enabled);
            if CanAppend(s, handler, id)
            then && t.handlers[handler].Done? && |t.entries| == |s.entries| + 1
                 && t.entries[|s.entries|].storedAt == handler
                 && t.system.log.history == s.system.log.history + [AsEvent(s.handlers[handler].record, id)]
            else t == s
  {
  }

  /** An import's lone addition can be appended at once, every other record waits until its handler has read the
      listing. */
  lemma ReadyAtOnce(s: State, change: QueueInvariant.Step, again: bool, at: int, readCount: nat, enabled: set<Source>)
    requires Stamped(s.room, s.now) && at >= s.now && TaskOf(s.room, change, again, at, enabled).Some?
    ensures var task := TaskOf(s.room, change, again, at, enabled).value;
            var t := Act(s, Store(change, again, at), readCount, enabled);
            var handler := |s.handlers|;
            && |t.handlers| == handler + 1 && (t.handlers[handler].Prepared? <==> task.Adding?)
            && (!task.Adding? ==>
                  Act(t, ReadListing(handler), readCount, enabled).handlers[handler] ==
                    Prepared(Built(task, QueueDeltas.Show(QueueDeltas.Listing(t.room, enabled))), handler + 1))
  {
    hide QueueInvariant.Apply, TaskOf, Stamped;
  }
}
