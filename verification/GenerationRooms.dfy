/** The one statement that creates a room for a generation: it reads and writes both the generations and the names. */
module GenerationRooms {
  import opened Wrappers
  import Generation
  import GenerationOutcomes
  import Reservations

  /** owners holds the owner of every generation ever inserted. */
  datatype State = State(generations: Generation.System, names: Reservations.Names, owners: map<nat, nat>)

  datatype Action =
    | Insert(id: nat, target: Option<nat>, owner: nat)
    | Work(step: Generation.Step)
    | Change(change: Reservations.Step)
    | CreateGenerationRoom(worker: nat, name: nat, token: Option<nat>)

  /** The generation of the worker's claim is locked and has no room. */
  predicate Attachable(s: State, worker: nat)
  {
    worker in s.generations.workers &&
    var ticket := s.generations.workers[worker];
    && Generation.Locked(s.generations.rows, ticket.id, ticket.attempt)
    && s.generations.rows[ticket.id].room.None? && ticket.id in s.owners
  }

  function OwnerOf(s: State, worker: nat): nat
  {
    if Attachable(s, worker) then s.owners[s.generations.workers[worker].id] else 0
  }

  function Act(s: State, action: Action, maxAttempts: nat): State
  {
    match action
    case Insert(id, target, owner) =>
      if id in s.generations.claims then s
      else s.(generations := Generation.Apply(s.generations, Generation.Insert(id, target), maxAttempts),
              owners := s.owners[id := owner])
    case Work(step) =>
      if step.Insert? || step.Attach? then s else s.(generations := Generation.Apply(s.generations, step, maxAttempts))
    case Change(change) => if change.Generate? then s else s.(names := Reservations.Apply(s.names, change))
    case CreateGenerationRoom(worker, name, token) =>
      var (names, created) := Reservations.GenerateStatement(s.names, name, OwnerOf(s, worker), token,
                                                               Attachable(s, worker));
      s.(names := names,
         generations := Generation.Apply(s.generations, Generation.Attach(worker, name, created), maxAttempts))
  }

  function Run(s: State, actions: seq<Action>, maxAttempts: nat): State
    decreases |actions|
  {
    if actions == [] then s else Run(Act(s, actions[0], maxAttempts), actions[1..], maxAttempts)
  }

  // ---------------------------------------------------------------- the invariant

  ghost predicate RoomsOnce(attached: seq<Generation.Attachment>)
  {
    forall i, j :: 0 <= i < j < |attached| ==> attached[i].room != attached[j].room
  }

  /** Every attached room's name is consumed. */
  ghost predicate AttachedAreConsumed(s: State)
  {
    forall i :: 0 <= i < |s.generations.attached| ==> Reservations.ConsumedName(s.names, s.generations.attached[i].room)
  }

  ghost predicate Inv(s: State, maxAttempts: nat)
  {
    && Generation.Inv(s.generations, maxAttempts) && Reservations.Inv(s.names)
    && RoomsOnce(s.generations.attached) && AttachedAreConsumed(s)
  }

  lemma ConsumedStays(s: Reservations.Names, step: Reservations.Step, name: nat)
    requires Reservations.ConsumedName(s, name)
    ensures Reservations.ConsumedName(Reservations.Apply(s, step), name)
  {
  }

  lemma WorkAttachesNothing(s: Generation.System, step: Generation.Step, maxAttempts: nat)
    requires !step.Attach?
    ensures Generation.Apply(s, step, maxAttempts).attached == s.attached
  {
  }

  /** The worker's generation gets the room exactly when the statement creates it. */
  lemma CreatedIsAttached(s: State, worker: nat, name: nat, token: Option<nat>, maxAttempts: nat)
    ensures var after := Act(s, CreateGenerationRoom(worker, name, token), maxAttempts);
            var created := Reservations.MayGenerate(s.names, name, OwnerOf(s, worker), token, Attachable(s, worker));
            && (created ==> name in after.names.rooms - s.names.rooms)
            && (created ==> !Reservations.ConsumedName(s.names, name) && Reservations.ConsumedName(after.names, name))
            && after.generations.attached ==
                 if created then s.generations.attached +
                   [Generation.Attachment(s.generations.workers[worker].id, name,
                                           s.generations.workers[worker].attempt)]
                 else s.generations.attached
  {
  }

  lemma CreateKeeps(s: State, worker: nat, name: nat, token: Option<nat>, maxAttempts: nat)
    requires Inv(s, maxAttempts)
    ensures Inv(Act(s, CreateGenerationRoom(worker, name, token), maxAttempts), maxAttempts)
  {
    hide Generation.Inv, Reservations.Inv, Generation.Apply, Attachable, Reservations.ConsumedName;
    var owner, attachable := OwnerOf(s, worker), Attachable(s, worker);
    var created := Reservations.GenerateStatement(s.names, name, owner, token, attachable).1;
    Generation.StepKeeps(s.generations, Generation.Attach(worker, name, created), maxAttempts);
    Reservations.StepKeeps(s.names, Reservations.Generate(name, owner, token, attachable));
    CreatedIsAttached(s, worker, name, token, maxAttempts);
    var after := Act(s, CreateGenerationRoom(worker, name, token), maxAttempts);
    forall i | 0 <= i < |s.generations.attached|
      ensures Reservations.ConsumedName(after.names, s.generations.attached[i].room)
    {
      ConsumedStays(s.names, Reservations.Generate(name, owner, token, attachable), s.generations.attached[i].room);
    }
  }

  lemma ActKeeps(s: State, action: Action, maxAttempts: nat)
    requires Inv(s, maxAttempts)
    ensures Inv(Act(s, action, maxAttempts), maxAttempts)
  {
    hide Generation.Inv, Reservations.Inv, Generation.Apply, Reservations.Apply, Reservations.ConsumedName;
    match action
    case Insert(id, target, owner) =>
      Generation.StepKeeps(s.generations, Generation.Insert(id, target), maxAttempts);
      WorkAttachesNothing(s.generations, Generation.Insert(id, target), maxAttempts);
    case Work(step) =>
      Generation.StepKeeps(s.generations, step, maxAttempts);
      if !step.Attach? { WorkAttachesNothing(s.generations, step, maxAttempts); }
    case Change(change) =>
      Reservations.StepKeeps(s.names, change);
      forall i | 0 <= i < |s.generations.attached|
        ensures Reservations.ConsumedName(Reservations.Apply(s.names, change), s.generations.attached[i].room)
      {
        ConsumedStays(s.names, change, s.generations.attached[i].room);
      }
    case CreateGenerationRoom(worker, name, token) => CreateKeeps(s, worker, name, token, maxAttempts);
  }

  lemma {:induction false} RunKeeps(s: State, actions: seq<Action>, maxAttempts: nat)
    requires Inv(s, maxAttempts)
    ensures Inv(Run(s, actions, maxAttempts), maxAttempts)
    decreases |actions|
  {
    if actions != [] {
      ActKeeps(s, actions[0], maxAttempts);
      RunKeeps(Act(s, actions[0], maxAttempts), actions[1..], maxAttempts);
    }
  }

  /** For every run of workers, owners and everybody who creates rooms: no room is attached to two generations and no
      generation to two rooms, and whatever a further step attaches, that step has just created as a new room. */
  lemma RoomsAreTheirOwn(pool: map<nat, Reservations.PoolRow>, actions: seq<Action>, next: Action, maxAttempts: nat)
    ensures var start := State(Generation.START, Reservations.Names({}, pool, map[], 0, 0), map[]);
            var s := Run(start, actions, maxAttempts);
            var after := Act(s, next, maxAttempts);
            && RoomsOnce(s.generations.attached) && Generation.AttachedOnce(s.generations.attached)
            && (after.generations.attached != s.generations.attached ==>
                  |after.generations.attached| == |s.generations.attached| + 1
                  && after.generations.attached[|s.generations.attached|].room in after.names.rooms - s.names.rooms)
  {
    var start := State(Generation.START, Reservations.Names({}, pool, map[], 0, 0), map[]);
    Reservations.EmptyIsFine(pool, 0);
    assert Generation.Inv(Generation.START, maxAttempts);
    RunKeeps(start, actions, maxAttempts);
    var s := Run(start, actions, maxAttempts);
    match next
    case CreateGenerationRoom(worker, name, token) => CreatedIsAttached(s, worker, name, token, maxAttempts);
    case Insert(id, target, owner) => WorkAttachesNothing(s.generations, Generation.Insert(id, target), maxAttempts);
    case Work(step) => if !step.Attach? { WorkAttachesNothing(s.generations, step, maxAttempts); }
    case Change(_) =>
  }

  /** Of the generations that were attached to rooms, a report for a room concerns only the one attached to it. */
  lemma ReportsAreForOne(s: State, i: nat, j: nat, maxAttempts: nat)
    requires Inv(s, maxAttempts) && i < |s.generations.attached| && j < |s.generations.attached| && i != j
    requires s.generations.attached[j].id in s.generations.rows
    ensures var room, other := s.generations.attached[i].room, s.generations.attached[j].id;
            var completed := Act(s, Work(Generation.Complete(room)), maxAttempts).generations.rows;
            var failed := Act(s, Work(Generation.Fail(room)), maxAttempts).generations.rows;
            && other in completed && completed[other] == s.generations.rows[other]
            && other in failed && failed[other] == s.generations.rows[other]
  {
    assert Generation.LogInv(s.generations, j);
  }

  /** A generation's owner never changes, in any run. */
  lemma {:induction false} OwnersStay(s: State, actions: seq<Action>, id: nat, maxAttempts: nat)
    requires id in s.owners && id in s.generations.claims
    ensures var t := Run(s, actions, maxAttempts);
            id in t.owners && t.owners[id] == s.owners[id] && id in t.generations.claims
    decreases |actions|
  {
    if actions != [] {
      var next := Act(s, actions[0], maxAttempts);
      assert id in next.generations.claims;
      OwnersStay(next, actions[1..], id, maxAttempts);
    }
  }

  /** A new room comes from an ordinary creation, or it has just been attached to a generation. */
  lemma NewRoomsAreAccountedFor(s: State, next: Action, name: nat, maxAttempts: nat)
    requires name !in s.names.rooms && name in Act(s, next, maxAttempts).names.rooms
    ensures (next.Change? && next.change.Create? && next.change.name == name) ||
            Act(s, next, maxAttempts).generations.attached ==
              s.generations.attached + [Generation.Attachment(s.generations.workers[next.worker].id, name,
                                                              s.generations.workers[next.worker].attempt)]
  {
  }

  /** The worker has the first claim of the owner's generation, which has no room. */
  ghost predicate Claimed(s: State, id: nat, owner: nat, worker: nat, maxAttempts: nat)
  {
    && Inv(s, maxAttempts) && id in s.generations.rows && id in s.generations.claims && id in s.owners
    && s.generations.rows[id] == Generation.Row(None, 1, s.generations.rows[id].updatedAt, false, false)
    && s.generations.claims[id] == 1 && s.owners[id] == owner
    && worker in s.generations.workers && s.generations.workers[worker] == Generation.Ticket(id, 1)
  }

  lemma ClaimedByWorker(s: State, id: nat, owner: nat, worker: nat, maxAttempts: nat)
    requires Inv(s, maxAttempts) && id !in s.generations.claims && maxAttempts >= 1
    ensures var t := Act(Act(s, Insert(id, None, owner), maxAttempts), Work(Generation.TryPoll(worker, id)),
                         maxAttempts);
            Claimed(t, id, owner, worker, maxAttempts) && t.names == s.names
              && t.generations.attached == s.generations.attached
  {
    ActKeeps(s, Insert(id, None, owner), maxAttempts);
    var inserted := Act(s, Insert(id, None, owner), maxAttempts);
    ActKeeps(inserted, Work(Generation.TryPoll(worker, id)), maxAttempts);
    GenerationOutcomes.PollClaimsIff(inserted.generations, worker, id, maxAttempts);
  }

  lemma ClaimedIsAttached(s: State, id: nat, owner: nat, name: nat, token: nat, worker: nat, maxAttempts: nat)
    requires Claimed(s, id, owner, worker, maxAttempts)
    requires name in s.names.reservations && s.names.clock < s.names.reservations[name].expires
    requires s.names.reservations[name].token == token && s.names.reservations[name].owner == owner
    requires name !in s.names.rooms && !Reservations.ConsumedName(s.names, name)
    ensures Act(s, CreateGenerationRoom(worker, name, None), maxAttempts) == s
    ensures var created := Act(s, CreateGenerationRoom(worker, name, Some(token)), maxAttempts);
            && created.names.rooms == s.names.rooms + {name} && name !in created.names.reservations
            && created.generations.attached == s.generations.attached + [Generation.Attachment(id, name, 1)]
  {
    Reservations.CreatedIff(s.names, name, owner, Some(token), true);
    Reservations.CreatedIff(s.names, name, owner, None, true);
    GenerationOutcomes.LatestClaimAttaches(s.generations, worker, name, true, maxAttempts);
    GenerationOutcomes.LatestClaimAttaches(s.generations, worker, name, false, maxAttempts);
    hide Generation.Apply, Inv;
  }

  /** A name reserved by a generation's owner becomes its room for a worker that has the token, and for nobody without
      it. */
  lemma ReservedNameIsAttached(s: State, id: nat, owner: nat, name: nat, ttl: nat, worker: nat, maxAttempts: nat)
    requires Inv(s, maxAttempts) && id !in s.generations.claims && maxAttempts >= 1 && ttl > 0
    requires Reservations.ReserveStatement(s.names, name, owner, ttl).1.Some?
    ensures var token := Reservations.ReserveStatement(s.names, name, owner, ttl).1;
            var reserved := Act(s, Change(Reservations.Reserve(name, owner, ttl)), maxAttempts);
            var claimed := Act(Act(reserved, Insert(id, None, owner), maxAttempts),
                               Work(Generation.TryPoll(worker, id)), maxAttempts);
            var created := Act(claimed, CreateGenerationRoom(worker, name, token), maxAttempts);
            && Act(claimed, CreateGenerationRoom(worker, name, None), maxAttempts) == claimed
            && created.names.rooms == s.names.rooms + {name} && name !in created.names.reservations
            && created.generations.attached == s.generations.attached + [Generation.Attachment(id, name, 1)]
  {
    var token := Reservations.ReserveStatement(s.names, name, owner, ttl).1;
    var reserved := Act(s, Change(Reservations.Reserve(name, owner, ttl)), maxAttempts);
    ActKeeps(s, Change(Reservations.Reserve(name, owner, ttl)), maxAttempts);
    Reservations.GrantedIff(s.names, name, owner, ttl);
    ClaimedByWorker(reserved, id, owner, worker, maxAttempts);
    var claimed := Act(Act(reserved, Insert(id, None, owner), maxAttempts), Work(Generation.TryPoll(worker, id)),
                       maxAttempts);
    hide Inv, Generation.Apply, Generation.PollStatement;
    ClaimedIsAttached(claimed, id, owner, name, token.value, worker, maxAttempts);
  }
}
