/** An import and the queue it fills: workers, retries and everybody else's changes to the queue. */
module ImportedQueue {
  import opened Wrappers
  import opened QueueOrder
  import opened RoomQueue
  import QueueOperations
  import QueueInvariant
  import PlaylistImport

  /** What an add of a staged item reports, and the items another statement takes out of the queue. */
  datatype Happening = Reported(id: nat, outcome: AddOutcome) | Removed(ids: set<nat>)

  /** items holds the staged items by position. */
  datatype State = State(core: PlaylistImport.System, room: Room, items: seq<Item>, now: int, history: seq<Happening>)

  datatype Action = Worker(step: PlaylistImport.Step) | Queue(change: QueueInvariant.Step)

  predicate Adds(s: State, step: PlaylistImport.Step)
  {
    step.AddItem? && step.worker in s.core.workers && s.core.workers[step.worker].Claimed? &&
    s.core.workers[step.worker].position < |s.items|
  }

  /** One statement. A worker whose add fails gives its claim up for the next attempt. */
  ghost function Act(s: State, action: Action, user: nat, enabled: set<Source>): (t: State)
    requires Stamped(s.room, s.now)
    ensures Stamped(t.room, t.now)
  {
    match action
    case Worker(step) =>
      if Adds(s, step) then
        var item := s.items[s.core.workers[step.worker].position];
        (match AddStatement(s.room, item, user, false, s.now, enabled)
         case Failure => s.(core := PlaylistImport.Apply(s.core, PlaylistImport.Crash(step.worker)))
         case Success(result) =>
           s.(core := PlaylistImport.Apply(s.core, step), room := result.room, now := s.now + 1,
              history := s.history + [Reported(item.id, result.outcome)]))
      else if step.AddItem? || (step.Stage? && step.count != |s.items|) then s
      else s.(core := PlaylistImport.Apply(s.core, step))
    case Queue(step) =>
      var after := QueueInvariant.Apply(s.room, step, s.now, enabled);
      s.(room := after, now := s.now + 1, history := s.history + [Removed(s.room.items.Keys - after.items.Keys)])
  }

  ghost function Run(s: State, actions: seq<Action>, user: nat, enabled: set<Source>): (t: State)
    requires Stamped(s.room, s.now)
    ensures Stamped(t.room, t.now)
    decreases |actions|
  {
    if actions == [] then s else Run(Act(s, actions[0], user, enabled), actions[1..], user, enabled)
  }

  // ---------------------------------------------------------------- the invariant

  predicate AddedAt(h: seq<Happening>, i: nat, id: nat)
  {
    i < |h| && h[i] == Reported(id, Added)
  }

  ghost predicate RemovedBetween(h: seq<Happening>, i: nat, j: nat, id: nat)
  {
    exists m :: i < m < j && m < |h| && h[m].Removed? && id in h[m].ids
  }

  /** An item reported as added is in the queue until it is removed. */
  ghost predicate Accounted(h: seq<Happening>, room: Room)
  {
    forall i: nat, id: nat :: AddedAt(h, i, id) ==> id in room.items || RemovedBetween(h, i, |h|, id)
  }

  ghost predicate OncePerRemoval(h: seq<Happening>)
  {
    forall i: nat, j: nat, id: nat :: i < j && AddedAt(h, i, id) && AddedAt(h, j, id) ==> RemovedBetween(h, i, j, id)
  }

  ghost predicate IsReported(h: seq<Happening>, id: nat)
  {
    exists i :: 0 <= i < |h| && h[i].Reported? && h[i].id == id
  }

  /** Every position a worker is done adding has been reported. */
  ghost predicate AllReported(s: State)
  {
    s.core.size <= |s.items| && forall p :: p in s.core.added ==> p < |s.items| && IsReported(s.history, s.items[p].id)
  }

  ghost predicate Inv(s: State)
  {
    PlaylistImport.Inv(s.core) && Accounted(s.history, s.room) && OncePerRemoval(s.history) && AllReported(s)
  }

  lemma BetweenIsStable(h: seq<Happening>, e: Happening, i: nat, j: nat, id: nat)
    requires RemovedBetween(h, i, j, id)
    ensures RemovedBetween(h + [e], i, j, id) && RemovedBetween(h + [e], i, |h| + 1, id)
  {
    var m :| i < m < j && m < |h| && h[m].Removed? && id in h[m].ids;
    assert (h + [e])[m] == h[m];
  }

  /** One happening more: items leave the queue only by being removed, and an item is added only when it
      is not there. */
  lemma OneMore(h: seq<Happening>, room: Room, e: Happening, after: Room)
    requires Accounted(h, room) && OncePerRemoval(h)
    requires forall id :: id in room.items && id !in after.items ==> e.Removed? && id in e.ids
    requires e.Reported? && e.outcome.Added? ==> e.id !in room.items && e.id in after.items
    ensures Accounted(h + [e], after) && OncePerRemoval(h + [e])
  {
    var g := h + [e];
    forall i: nat, id: nat | AddedAt(g, i, id) ensures id in after.items || RemovedBetween(g, i, |g|, id) {
      if i < |h| {
        assert AddedAt(h, i, id);
        if id !in room.items {
          BetweenIsStable(h, e, i, |h|, id);
        } else if id !in after.items {
          assert g[|h|].Removed? && id in g[|h|].ids;
        }
      }
    }
    forall i: nat, j: nat, id: nat | i < j && AddedAt(g, i, id) && AddedAt(g, j, id)
      ensures RemovedBetween(g, i, j, id)
    {
      assert AddedAt(h, i, id);
      if j < |h| {
        assert AddedAt(h, j, id);
        BetweenIsStable(h, e, i, j, id);
      } else {
        BetweenIsStable(h, e, i, |h|, id);
        assert RemovedBetween(g, i, |h|, id) by { BetweenIsStable(h, e, i, |h|, id); }
      }
    }
  }

  lemma ReportedIsStable(h: seq<Happening>, e: Happening, id: nat)
    ensures IsReported(h, id) ==> IsReported(h + [e], id)
    ensures e.Reported? && e.id == id ==> IsReported(h + [e], id)
  {
    if IsReported(h, id) {
      var i :| 0 <= i < |h| && h[i].Reported? && h[i].id == id;
      assert (h + [e])[i] == h[i];
    }
    assert (h + [e])[|h|] == e;
  }

  lemma ImportAdds(r: Room, item: Item, user: nat, now: int, enabled: set<Source>)
    requires AddStatement(r, item, user, false, now, enabled).Success?
    ensures var result := AddStatement(r, item, user, false, now, enabled).value;
            && (result.outcome.Added? ==> item.id !in r.items && item.id in result.room.items)
            && (forall id :: id in r.items ==> id in result.room.items)
  {
    QueueOperations.AddOutcome(r, item, user, false, now, enabled);
    hide AddStatement;
  }

  /** Only adding changes what was added, only staging the size. */
  lemma CoreStep(core: PlaylistImport.System, step: PlaylistImport.Step)
    ensures var after := PlaylistImport.Apply(core, step);
            && (if step.AddItem? && step.worker in core.workers && core.workers[step.worker].Claimed?
                then after.added == core.added + {core.workers[step.worker].position} else after.added == core.added)
            && (after.size == core.size || (step.Stage? && after.size == step.count))
  {
  }

  lemma MoreReported(s: State, added: set<nat>, position: nat, e: Happening)
    requires AllReported(s) && added <= s.core.added + {position}
    requires position in added - s.core.added ==> position < |s.items| && e.Reported? && e.id == s.items[position].id
    ensures forall p :: p in added ==> p < |s.items| && IsReported(s.history + [e], s.items[p].id)
  {
    forall p | p in added ensures p < |s.items| && IsReported(s.history + [e], s.items[p].id) {
      ReportedIsStable(s.history, e, s.items[p].id);
    }
  }

  lemma AddKeeps(s: State, step: PlaylistImport.Step, user: nat, enabled: set<Source>)
    requires Inv(s) && Stamped(s.room, s.now) && Adds(s, step)
    ensures Inv(Act(s, Worker(step), user, enabled))
  {
    hide AddStatement, Accounted, OncePerRemoval, PlaylistImport.Inv, PlaylistImport.Apply, IsReported, Stamped;
    var position := s.core.workers[step.worker].position;
    var item := s.items[position];
    var result := AddStatement(s.room, item, user, false, s.now, enabled);
    PlaylistImport.StepKeeps(s.core, step);
    PlaylistImport.StepKeeps(s.core, PlaylistImport.Crash(step.worker));
    CoreStep(s.core, step);
    CoreStep(s.core, PlaylistImport.Crash(step.worker));
    if result.Success? {
      ImportAdds(s.room, item, user, s.now, enabled);
      var e := Reported(item.id, result.value.outcome);
      OneMore(s.history, s.room, e, result.value.room);
      MoreReported(s, s.core.added + {position}, position, e);
    }
  }

  lemma QueueKeeps(s: State, step: QueueInvariant.Step, user: nat, enabled: set<Source>)
    requires Inv(s) && Stamped(s.room, s.now)
    ensures Inv(Act(s, Queue(step), user, enabled))
  {
    hide QueueInvariant.Apply, Accounted, OncePerRemoval, PlaylistImport.Inv, IsReported, Stamped;
    var after := QueueInvariant.Apply(s.room, step, s.now, enabled);
    var e := Removed(s.room.items.Keys - after.items.Keys);
    OneMore(s.history, s.room, e, after);
    MoreReported(s, s.core.added, 0, e);
  }

  lemma ActKeeps(s: State, action: Action, user: nat, enabled: set<Source>)
    requires Inv(s) && Stamped(s.room, s.now)
    ensures Inv(Act(s, action, user, enabled))
  {
    match action
    case Worker(step) =>
      if Adds(s, step) { AddKeeps(s, step, user, enabled); } else { OtherStepKeeps(s, step, user, enabled); }
    case Queue(step) => QueueKeeps(s, step, user, enabled);
  }

  lemma OtherStepKeeps(s: State, step: PlaylistImport.Step, user: nat, enabled: set<Source>)
    requires Inv(s) && Stamped(s.room, s.now) && !Adds(s, step)
    ensures Inv(Act(s, Worker(step), user, enabled))
  {
    hide Accounted, OncePerRemoval, PlaylistImport.Inv, PlaylistImport.Apply, IsReported, Stamped;
    PlaylistImport.StepKeeps(s.core, step);
    CoreStep(s.core, step);
  }

  lemma {:induction false} RunKeeps(s: State, actions: seq<Action>, user: nat, enabled: set<Source>)
    requires Inv(s) && Stamped(s.room, s.now)
    ensures Inv(Run(s, actions, user, enabled))
    decreases |actions|
  {
    if actions != [] {
      ActKeeps(s, actions[0], user, enabled);
      RunKeeps(Act(s, actions[0], user, enabled), actions[1..], user, enabled);
    }
  }

  /** For every run of workers, with crashes, retries and expired leases, among any statements of everybody else: a
      staged item is reported as added at most once between two removals of it, and every completed position was
      reported. In particular an item that is still in the queue is never added a second time. */
  lemma AddedOncePerRemoval(room: Room, items: seq<Item>, now: int, actions: seq<Action>, user: nat,
                            enabled: set<Source>)
    requires Stamped(room, now)
    ensures var s := Run(State(PlaylistImport.START, room, items, now, []), actions, user, enabled);
            && OncePerRemoval(s.history)
            && (forall p :: p in s.core.completed ==> p < |s.items| && IsReported(s.history, s.items[p].id))
  {
    var start := State(PlaylistImport.START, room, items, now, []);
    assert PlaylistImport.Inv(PlaylistImport.START);
    assert Inv(start);
    RunKeeps(start, actions, user, enabled);
  }
}
