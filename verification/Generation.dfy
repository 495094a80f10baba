/** The life of a room generation: claims numbered by attempt, one attached room, one final outcome. */
module Generation {
  import opened Wrappers

  const RETRY_AFTER := 5 * 60 * 1000

  datatype Row = Row(room: Option<nat>, attempt: nat, updatedAt: int, completed: bool, failed: bool)
  {
    predicate Unfinished() { !completed && !failed }
  }

  type Rows = map<nat, Row>

  // ---------------------------------------------------------------- the statements

  predicate Claimable(row: Row, maxAttempts: nat, now: int)
  {
    row.Unfinished() && (row.attempt >= maxAttempts || row.attempt == 0 || row.updatedAt <= now - RETRY_AFTER)
  }

  datatype Poll = NoneReady | Claimed(attempt: nat) | Exhausted

  /** Of the claimable rows the oldest unlocked one is polled; here id may be any of them. */
  function PollStatement(rows: Rows, id: nat, maxAttempts: nat, now: int): (Rows, Poll)
  {
    if id !in rows || !Claimable(rows[id], maxAttempts, now) then (rows, NoneReady)
    else if rows[id].attempt < maxAttempts
    then (rows[id := rows[id].(attempt := rows[id].attempt + 1, updatedAt := now)], Claimed(rows[id].attempt + 1))
    else (rows[id := rows[id].(failed := true, updatedAt := now)], Exhausted)
  }

  /** The locked row of a worker's attempt. */
  predicate Locked(rows: Rows, id: nat, attempt: nat)
  {
    id in rows && rows[id].attempt == attempt && rows[id].Unfinished()
  }

  /** Creates and attaches a room when the name is free, or returns the room attached before. */
  function AttachStatement(rows: Rows, id: nat, attempt: nat, name: nat, nameIsFree: bool, now: int)
    : (Rows, Option<nat>)
  {
    if !Locked(rows, id, attempt) then (rows, None)
    else if rows[id].room.Some? then (rows, rows[id].room)
    else if nameIsFree then (rows[id := rows[id].(room := Some(name), updatedAt := now)], Some(name))
    else (rows, None)
  }

  function CompleteStatement(rows: Rows, room: nat, now: int): Rows
  {
    map id | id in rows :: if rows[id].room == Some(room) && rows[id].Unfinished()
                           then rows[id].(completed := true, updatedAt := now) else rows[id]
  }

  function FailStatement(rows: Rows, room: nat, maxAttempts: nat, now: int): Rows
  {
    map id | id in rows :: if rows[id].room == Some(room) && rows[id].Unfinished()
                           then rows[id].(attempt := maxAttempts, failed := true, updatedAt := now) else rows[id]
  }

  /** The room_generations table, updated in place. */
  class Generations {
    var rows: Rows
    const maxAttempts: nat

    constructor (maxAttempts: nat)
      ensures rows == map[] && this.maxAttempts == maxAttempts
    {
      rows, this.maxAttempts := map[], maxAttempts;
    }

    method ProcessNext(id: nat, now: int) returns (poll: Poll)
      modifies this
      ensures (rows, poll) == PollStatement(old(rows), id, maxAttempts, now)
    {
      poll := NoneReady;
      if id in rows && Claimable(rows[id], maxAttempts, now) {
        if rows[id].attempt < maxAttempts {
          rows := rows[id := rows[id].(attempt := rows[id].attempt + 1, updatedAt := now)];
          poll := Claimed(rows[id].attempt);
        } else {
          rows := rows[id := rows[id].(failed := true, updatedAt := now)];
          poll := Exhausted;
        }
      }
    }

    /** The loop over the generated names: the first one that a statement attaches or finds attached. */
    method CreateGenerationRoom(id: nat, attempt: nat, names: seq<nat>, free: set<nat>, now: int)
      returns (room: Option<nat>)
      modifies this
      ensures !Locked(old(rows), id, attempt) ==> room.None? && rows == old(rows)
      ensures Locked(old(rows), id, attempt) && old(rows)[id].room.Some? && names != [] ==>
                room == old(rows)[id].room && rows == old(rows)
      ensures Locked(old(rows), id, attempt) && old(rows)[id].room.None? ==>
                match room
                case None => rows == old(rows) && forall i :: 0 <= i < |names| ==> names[i] !in free
                case Some(name) =>
                  && rows == old(rows)[id := old(rows)[id].(room := Some(name), updatedAt := now)]
                  && exists i :: 0 <= i < |names| && names[i] == name && name in free
                             && forall j :: 0 <= j < i ==> names[j] !in free
    {
      room := None;
      var index := 0;
      while index < |names| && room.None?
        invariant 0 <= index <= |names|
        invariant room.None? ==> rows == old(rows)
        invariant room.None? && index > 0 && Locked(rows, id, attempt) ==> rows[id].room.None?
        invariant room.None? && Locked(rows, id, attempt) ==> forall i :: 0 <= i < index ==> names[i] !in free
        invariant room.Some? ==> index > 0 && Locked(old(rows), id, attempt)
        invariant room.Some? && old(rows)[id].room.Some? ==> room == old(rows)[id].room && rows == old(rows)
        invariant room.Some? && old(rows)[id].room.None? ==>
                    && rows == old(rows)[id := old(rows)[id].(room := room, updatedAt := now)]
                    && room.value == names[index - 1] && room.value in free
                    && forall j :: 0 <= j < index - 1 ==> names[j] !in free
      {
        var (after, attached) := AttachStatement(rows, id, attempt, names[index], names[index] in free, now);
        rows, room := after, attached;
        index := index + 1;
      }
    }
  }

  // ---------------------------------------------------------------- many workers

  /** What a worker was given by its poll. */
  datatype Ticket = Ticket(id: nat, attempt: nat)

  datatype Attachment = Attachment(id: nat, room: nat, attempt: nat)

  /** claims counts the granted claims of every generation ever inserted; attached logs the created rooms. */
  datatype System = System(rows: Rows, workers: map<nat, Ticket>, claims: map<nat, nat>, attached: seq<Attachment>,
                           clock: int)

  datatype Step =
    | Insert(id: nat, target: Option<nat>)
    | TryPoll(worker: nat, id: nat)
    | Attach(worker: nat, name: nat, nameIsFree: bool)
    | Complete(room: nat)
    | Fail(room: nat)
    | Cleanup(id: nat)
    | Crash(worker: nat)
    | Tick(milliseconds: nat)

  function Apply(s: System, step: Step, maxAttempts: nat): System
  {
    match step
    case Insert(id, target) =>
      if id in s.claims then s
      else s.(rows := s.rows[id := Row(target, 0, s.clock, false, false)], claims := s.claims[id := 0])
    case TryPoll(worker, id) =>
      var (rows, poll) := PollStatement(s.rows, id, maxAttempts, s.clock);
      if poll.Claimed? && id in s.claims
      then s.(rows := rows, workers := s.workers[worker := Ticket(id, poll.attempt)],
              claims := s.claims[id := s.claims[id] + 1])
      else s.(rows := rows)
    case Attach(worker, name, nameIsFree) =>
      if worker !in s.workers then s
      else
        var ticket := s.workers[worker];
        var (rows, room) := AttachStatement(s.rows, ticket.id, ticket.attempt, name, nameIsFree, s.clock);
        if Locked(s.rows, ticket.id, ticket.attempt) && s.rows[ticket.id].room.None? && nameIsFree
        then s.(rows := rows, attached := s.attached + [Attachment(ticket.id, name, ticket.attempt)])
        else s.(rows := rows)
    case Complete(room) => s.(rows := CompleteStatement(s.rows, room, s.clock))
    case Fail(room) => s.(rows := FailStatement(s.rows, room, maxAttempts, s.clock))
    case Cleanup(id) => if id in s.rows && !s.rows[id].Unfinished() then s.(rows := s.rows - {id}) else s
    case Crash(worker) => s.(workers := s.workers - {worker})
    case Tick(milliseconds) => s.(clock := s.clock + milliseconds)
  }

  function Run(s: System, steps: seq<Step>, maxAttempts: nat): System
    decreases |steps|
  {
    if steps == [] then s else Run(Apply(s, steps[0], maxAttempts), steps[1..], maxAttempts)
  }

  const START := System(map[], map[], map[], [], 0)

  // ---------------------------------------------------------------- the invariant

  ghost predicate RowInv(s: System, id: nat, maxAttempts: nat)
    requires id in s.rows
  {
    var row := s.rows[id];
    && id in s.claims && s.claims[id] <= row.attempt <= maxAttempts && !(row.completed && row.failed)
    && (row.Unfinished() ==> s.claims[id] == row.attempt)
  }

  /** A logged room is its generation's room. */
  ghost predicate LogInv(s: System, i: nat)
    requires i < |s.attached|
  {
    var entry := s.attached[i];
    entry.id in s.claims && (entry.id in s.rows ==> s.rows[entry.id].room == Some(entry.room))
  }

  ghost predicate AttachedOnce(attached: seq<Attachment>)
  {
    forall i, j :: 0 <= i < j < |attached| ==> attached[i].id != attached[j].id
  }

  ghost predicate Inv(s: System, maxAttempts: nat)
  {
    && (forall id :: id in s.rows ==> RowInv(s, id, maxAttempts))
    && (forall id :: id in s.claims ==> s.claims[id] <= maxAttempts)
    && (forall w :: w in s.workers ==> s.workers[w].attempt > 0)
    && (forall i :: 0 <= i < |s.attached| ==> LogInv(s, i))
    && AttachedOnce(s.attached)
  }

  lemma AttachKeeps(s: System, worker: nat, name: nat, nameIsFree: bool, maxAttempts: nat)
    requires Inv(s, maxAttempts)
    ensures Inv(Apply(s, Attach(worker, name, nameIsFree), maxAttempts), maxAttempts)
  {
    var t := Apply(s, Attach(worker, name, nameIsFree), maxAttempts);
    forall id | id in t.rows ensures RowInv(t, id, maxAttempts) { assert RowInv(s, id, maxAttempts); }
    forall i | 0 <= i < |t.attached| ensures LogInv(t, i) {
      if i < |s.attached| { assert LogInv(s, i); }
    }
    forall i, j | 0 <= i < j < |t.attached| ensures t.attached[i].id != t.attached[j].id {
      assert LogInv(s, i);
    }
  }

  lemma RowsAreKept(s: System, step: Step, maxAttempts: nat, id: nat)
    requires Inv(s, maxAttempts) && !step.Attach? && id in Apply(s, step, maxAttempts).rows
    ensures RowInv(Apply(s, step, maxAttempts), id, maxAttempts)
  {
    if id in s.rows { assert RowInv(s, id, maxAttempts); }
  }

  lemma StepKeeps(s: System, step: Step, maxAttempts: nat)
    requires Inv(s, maxAttempts)
    ensures Inv(Apply(s, step, maxAttempts), maxAttempts)
  {
    if step.Attach? {
      AttachKeeps(s, step.worker, step.name, step.nameIsFree, maxAttempts);
    } else {
      hide RowInv;
      var t := Apply(s, step, maxAttempts);
      assert t.attached == s.attached;
      forall id | id in t.rows ensures RowInv(t, id, maxAttempts) { RowsAreKept(s, step, maxAttempts, id); }
      forall i | 0 <= i < |t.attached| ensures LogInv(t, i) { assert LogInv(s, i); }
    }
  }

  lemma {:induction false} RunKeeps(s: System, steps: seq<Step>, maxAttempts: nat)
    requires Inv(s, maxAttempts)
    ensures Inv(Run(s, steps, maxAttempts), maxAttempts)
    decreases |steps|
  {
    if steps != [] {
      StepKeeps(s, steps[0], maxAttempts);
      RunKeeps(Apply(s, steps[0], maxAttempts), steps[1..], maxAttempts);
    }
  }

  // ---------------------------------------------------------------- the promises

  /** For every interleaving of any workers: a generation is attached to at most one room and keeps it, is claimed at
      most the maximum number of times, and never both completes and fails. */
  lemma Lifecycle(steps: seq<Step>, maxAttempts: nat)
    ensures var s := Run(START, steps, maxAttempts);
            && AttachedOnce(s.attached)
            && (forall i :: 0 <= i < |s.attached| && s.attached[i].id in s.rows ==>
                  s.rows[s.attached[i].id].room == Some(s.attached[i].room))
            && (forall id :: id in s.claims ==> s.claims[id] <= maxAttempts)
            && (forall id :: id in s.rows ==> !(s.rows[id].completed && s.rows[id].failed))
  {
    RunKeeps(START, steps, maxAttempts);
    var s := Run(START, steps, maxAttempts);
    forall i | 0 <= i < |s.attached| && s.attached[i].id in s.rows
      ensures s.rows[s.attached[i].id].room == Some(s.attached[i].room)
    {
      assert LogInv(s, i);
    }
    forall id | id in s.rows ensures !(s.rows[id].completed && s.rows[id].failed) {
      assert RowInv(s, id, maxAttempts);
    }
  }

  /** An attempt that attaches is the latest claim. */
  lemma LatestAttaches(s: System, step: Step, maxAttempts: nat)
    requires Inv(s, maxAttempts) && |Apply(s, step, maxAttempts).attached| > |s.attached|
    ensures var entry := Apply(s, step, maxAttempts).attached[|s.attached|];
            entry.id in s.claims && entry.attempt == s.claims[entry.id] && entry.id in s.rows
              && s.rows[entry.id].room.None?
  {
    assert RowInv(s, s.workers[step.worker].id, maxAttempts);
  }

  /** A generation's attempt never goes back while it is there, and an ID is not used again. */
  predicate AttemptAtLeast(s: System, id: nat, attempt: nat)
  {
    id in s.claims && (id in s.rows ==> s.rows[id].attempt >= attempt)
  }

  lemma StepKeepsAttempt(s: System, step: Step, maxAttempts: nat, id: nat, attempt: nat)
    requires AttemptAtLeast(s, id, attempt) && Inv(s, maxAttempts)
    ensures var t := Apply(s, step, maxAttempts);
            && AttemptAtLeast(t, id, attempt) && s.attached <= t.attached
            && forall i :: |s.attached| <= i < |t.attached| && t.attached[i].id == id ==>
               t.attached[i].attempt >= attempt
  {
    assert id in s.rows ==> RowInv(s, id, maxAttempts);
  }

  /** The attempt is a fencing token: once a later attempt is claimed, no run of any workers attaches for an
      earlier one. */
  lemma {:induction false} OlderAttemptsAreFenced(s: System, steps: seq<Step>, maxAttempts: nat, id: nat, attempt: nat)
    requires Inv(s, maxAttempts) && AttemptAtLeast(s, id, attempt)
    ensures var t := Run(s, steps, maxAttempts);
            && s.attached <= t.attached
            && forall i :: |s.attached| <= i < |t.attached| && t.attached[i].id == id ==>
               t.attached[i].attempt >= attempt
    decreases |steps|
  {
    if steps != [] {
      var next := Apply(s, steps[0], maxAttempts);
      StepKeepsAttempt(s, steps[0], maxAttempts, id, attempt);
      StepKeeps(s, steps[0], maxAttempts);
      OlderAttemptsAreFenced(next, steps[1..], maxAttempts, id, attempt);
      var t := Run(next, steps[1..], maxAttempts);
      assert forall i :: |s.attached| <= i < |next.attached| ==> t.attached[i] == next.attached[i];
    }
  }

  /** A finished generation stays exactly as it is until it is cleaned up, and then stays away. */
  lemma {:induction false} FinishedIsFinal(s: System, steps: seq<Step>, maxAttempts: nat, id: nat, row: Row)
    requires id in s.claims && !row.Unfinished() && (id in s.rows ==> s.rows[id] == row)
    ensures var t := Run(s, steps, maxAttempts);
            id in t.rows ==> t.rows[id] == row
    decreases |steps|
  {
    if steps != [] {
      FinishedIsFinal(Apply(s, steps[0], maxAttempts), steps[1..], maxAttempts, id, row);
    }
  }

  /** A generation that was claimed the maximum number of times is claimable at once, and the poll fails it. */
  lemma ExhaustedIsFailed(s: System, id: nat, worker: nat, maxAttempts: nat)
    requires Inv(s, maxAttempts) && id in s.rows && s.rows[id].Unfinished() && s.claims[id] == maxAttempts
    ensures var t := Apply(s, TryPoll(worker, id), maxAttempts);
            id in t.rows && t.rows[id].failed && t.claims == s.claims && t.workers == s.workers
  {
    assert RowInv(s, id, maxAttempts);
  }

  /** A repeated claim waits until the row has not been touched for five minutes. */
  lemma ClaimsAreSpaced(s: System, worker: nat, id: nat, maxAttempts: nat)
    requires Inv(s, maxAttempts) && id in s.claims && Apply(s, TryPoll(worker, id), maxAttempts).claims != s.claims
    ensures s.claims[id] == 0 || s.rows[id].updatedAt + RETRY_AFTER <= s.clock
  {
    assert RowInv(s, id, maxAttempts);
  }

  /** A claim, or attaching a room, keeps other workers out for the next five minutes; but the last attempt is not
      protected: while its worker is still at it, the next poll fails the generation. */
  lemma WorkIsLeased(s: System, step: Step, worker: nat, id: nat, milliseconds: nat, maxAttempts: nat)
    requires Inv(s, maxAttempts) && id in s.claims && milliseconds < RETRY_AFTER
    requires var t := Apply(s, step, maxAttempts);
             (step.TryPoll? && step.id == id && t.claims != s.claims) ||
             (step.Attach? && |t.attached| > |s.attached| && t.attached[|s.attached|].id == id)
    ensures var t := Apply(Apply(s, step, maxAttempts), Tick(milliseconds), maxAttempts);
            var polled := Apply(t, TryPoll(worker, id), maxAttempts);
            && id in t.rows && t.rows[id].Unfinished() && polled.claims == t.claims
            && id in polled.rows && (polled.rows[id].failed <==> t.claims[id] == maxAttempts)
  {
    assert id in s.rows && RowInv(s, id, maxAttempts);
    StepKeeps(s, step, maxAttempts);
    var t := Apply(s, step, maxAttempts);
    assert RowInv(t, id, maxAttempts);
    assert t.rows[id].attempt > 0 && t.rows[id].updatedAt == t.clock;
    LeasedIsSkipped(Apply(t, Tick(milliseconds), maxAttempts), worker, id, maxAttempts);
  }

  lemma LeasedIsSkipped(s: System, worker: nat, id: nat, maxAttempts: nat)
    requires id in s.rows && s.rows[id].Unfinished() && s.clock < s.rows[id].updatedAt + RETRY_AFTER
             && s.rows[id].attempt > 0
    ensures var polled := Apply(s, TryPoll(worker, id), maxAttempts);
            polled.claims == s.claims && id in polled.rows
              && (polled.rows[id].failed <==> s.rows[id].attempt >= maxAttempts)
  {
  }
}
