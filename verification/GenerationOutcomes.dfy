/** What completing and failing a generation mean for every later run of the workers. */
module GenerationOutcomes {
  import opened Wrappers
  import opened Generation

  /** The generation has ended, successfully or not, or was cleaned up afterwards; nobody gets it again. */
  ghost predicate Ended(s: System, id: nat, completed: bool, maxAttempts: nat)
  {
    && id in s.claims
    && (id in s.rows ==> s.rows[id].completed == completed && s.rows[id].failed == !completed)
    && (forall now :: PollStatement(s.rows, id, maxAttempts, now) == (s.rows, NoneReady))
    && (forall attempt, name, now :: AttachStatement(s.rows, id, attempt, name, true, now) == (s.rows, None))
  }

  /** No step polled or attached the generation since. */
  ghost predicate Untouched(s: System, t: System, id: nat)
  {
    && id in s.claims && id in t.claims && t.claims[id] == s.claims[id] && s.attached <= t.attached
    && (forall i :: |s.attached| <= i < |t.attached| ==> t.attached[i].id != id)
    && (forall worker :: worker in t.workers && t.workers[worker].id == id ==>
          worker in s.workers && s.workers[worker] == t.workers[worker])
  }

  lemma EndedStep(s: System, step: Step, id: nat, completed: bool, maxAttempts: nat)
    requires Ended(s, id, completed, maxAttempts)
    ensures Ended(Apply(s, step, maxAttempts), id, completed, maxAttempts)
    ensures Untouched(s, Apply(s, step, maxAttempts), id)
  {
    if id in s.rows { assert !s.rows[id].Unfinished(); }
  }

  /** An ended generation stays as it ended, in every run. */
  lemma {:induction false} EndedStays(s: System, steps: seq<Step>, id: nat, completed: bool, maxAttempts: nat)
    requires Ended(s, id, completed, maxAttempts)
    ensures var t := Run(s, steps, maxAttempts);
            Ended(t, id, completed, maxAttempts) && Untouched(s, t, id)
    decreases |steps|
  {
    if steps != [] {
      EndedStep(s, steps[0], id, completed, maxAttempts);
      EndedStays(Apply(s, steps[0], maxAttempts), steps[1..], id, completed, maxAttempts);
    }
  }

  /** A report for a room concerns the unfinished generations of that room and no other row. */
  lemma ReportsConcernTheirRoom(s: System, room: nat, maxAttempts: nat, id: nat)
    requires id in s.rows && Inv(s, maxAttempts)
    ensures var t := Apply(s, Complete(room), maxAttempts);
            && t == s.(rows := t.rows) && t.rows.Keys == s.rows.Keys
            && (if s.rows[id].room == Some(room) && s.rows[id].Unfinished()
                then t.rows[id] == s.rows[id].(completed := true, updatedAt := s.clock)
                     && Ended(t, id, true, maxAttempts)
                else t.rows[id] == s.rows[id])
    ensures var t := Apply(s, Fail(room), maxAttempts);
            && t == s.(rows := t.rows) && t.rows.Keys == s.rows.Keys
            && (if s.rows[id].room == Some(room) && s.rows[id].Unfinished()
                then t.rows[id] == s.rows[id].(attempt := maxAttempts, failed := true, updatedAt := s.clock)
                     && Ended(t, id, false, maxAttempts)
                else t.rows[id] == s.rows[id])
  {
    assert RowInv(s, id, maxAttempts);
  }

  /** After any run: once a worker attached a room to a generation, completing that room while the generation is
      unfinished makes it completed and not failed, in every later run; and it is never polled or attached again. */
  lemma CompletionIsKept(steps: seq<Step>, later: seq<Step>, entry: Attachment, maxAttempts: nat)
    requires var s := Run(START, steps, maxAttempts);
             entry in s.attached && entry.id in s.rows && s.rows[entry.id].Unfinished()
    ensures var s := Run(START, steps, maxAttempts);
            var t := Apply(s, Complete(entry.room), maxAttempts);
            && entry.id in t.rows && t.rows[entry.id].completed && !t.rows[entry.id].failed
            && Ended(Run(t, later, maxAttempts), entry.id, true, maxAttempts)
            && Untouched(t, Run(t, later, maxAttempts), entry.id)
  {
    RunKeeps(START, steps, maxAttempts);
    var s := Run(START, steps, maxAttempts);
    var i :| 0 <= i < |s.attached| && s.attached[i] == entry;
    assert LogInv(s, i);
    ReportsConcernTheirRoom(s, entry.room, maxAttempts, entry.id);
    EndedStays(Apply(s, Complete(entry.room), maxAttempts), later, entry.id, true, maxAttempts);
    hide Apply, Run, Inv, Ended, Untouched;
  }

  /** In the same way a report of failure makes it failed and not completed, whatever attempts it had left. */
  lemma FailureIsKept(steps: seq<Step>, later: seq<Step>, entry: Attachment, maxAttempts: nat)
    requires var s := Run(START, steps, maxAttempts);
             entry in s.attached && entry.id in s.rows && s.rows[entry.id].Unfinished()
    ensures var s := Run(START, steps, maxAttempts);
            var t := Apply(s, Fail(entry.room), maxAttempts);
            && entry.id in t.rows && t.rows[entry.id].failed && !t.rows[entry.id].completed
            && Ended(Run(t, later, maxAttempts), entry.id, false, maxAttempts)
            && Untouched(t, Run(t, later, maxAttempts), entry.id)
  {
    RunKeeps(START, steps, maxAttempts);
    var s := Run(START, steps, maxAttempts);
    var i :| 0 <= i < |s.attached| && s.attached[i] == entry;
    assert LogInv(s, i);
    ReportsConcernTheirRoom(s, entry.room, maxAttempts, entry.id);
    EndedStays(Apply(s, Fail(entry.room), maxAttempts), later, entry.id, false, maxAttempts);
    hide Apply, Run, Inv, Ended, Untouched;
  }

  // ---------------------------------------------------------------- who gets a generation

  /** A poll claims exactly an unfinished generation with claims left that is new or was not touched for five minutes,
      and the worker is given the next attempt; it fails an unfinished one without claims left. */
  lemma PollClaimsIff(s: System, worker: nat, id: nat, maxAttempts: nat)
    requires Inv(s, maxAttempts)
    ensures var t := Apply(s, TryPoll(worker, id), maxAttempts);
            if && id in s.rows && !s.rows[id].completed && !s.rows[id].failed && s.claims[id] < maxAttempts
               && (s.claims[id] == 0 || s.rows[id].updatedAt + 300_000 <= s.clock)
            then t == s.(claims := s.claims[id := s.claims[id] + 1],
                         workers := s.workers[worker := Ticket(id, s.claims[id] + 1)],
                         rows := s.rows[id := s.rows[id].(attempt := s.claims[id] + 1, updatedAt := s.clock)])
            else if id in s.rows && !s.rows[id].completed && !s.rows[id].failed && s.claims[id] >= maxAttempts
            then t == s.(rows := s.rows[id := s.rows[id].(failed := true, updatedAt := s.clock)])
            else t == s
  {
    assert id in s.rows ==> RowInv(s, id, maxAttempts);
  }

  /** A worker attaches a room exactly to an unfinished generation without one of which it has the latest claim, if the
      name is free. */
  lemma LatestClaimAttaches(s: System, worker: nat, name: nat, nameIsFree: bool, maxAttempts: nat)
    requires Inv(s, maxAttempts) && worker in s.workers
    ensures var t := Apply(s, Attach(worker, name, nameIsFree), maxAttempts);
            var id, attempt := s.workers[worker].id, s.workers[worker].attempt;
            if && id in s.rows && !s.rows[id].completed && !s.rows[id].failed && s.rows[id].room == None
               && s.claims[id] == attempt && nameIsFree
            then t == s.(rows := s.rows[id := s.rows[id].(room := Some(name), updatedAt := s.clock)],
                         attached := s.attached + [Attachment(id, name, attempt)])
            else t == s
  {
    var id := s.workers[worker].id;
    assert id in s.rows ==> RowInv(s, id, maxAttempts);
  }

  // ---------------------------------------------------------------- from the first claim to the end

  /** An unfinished generation stays in the table whatever anybody does, and a finished one until it is cleaned up. */
  lemma OnlyFinishedGoes(s: System, step: Step, id: nat, maxAttempts: nat)
    requires id in s.rows
    ensures id !in Apply(s, step, maxAttempts).rows <==>
            step == Cleanup(id) && (s.rows[id].completed || s.rows[id].failed)
  {
  }

  /** A new generation that was claimed by a worker that crashed. */
  lemma FirstAttemptCrashes(s: System, id: nat, crashed: nat, wait: nat, maxAttempts: nat)
    requires Inv(s, maxAttempts) && id !in s.claims && maxAttempts >= 1
    ensures Run(s, [Insert(id, None), TryPoll(crashed, id), Crash(crashed)] + [Tick(wait)], maxAttempts) ==
            s.(rows := s.rows[id := Row(None, 1, s.clock, false, false)], claims := s.claims[id := 1],
               workers := s.workers - {crashed}, clock := s.clock + wait)
  {
    RunThree(s, Insert(id, None), TryPoll(crashed, id), Crash(crashed), [Tick(wait)], maxAttempts);
    var s1 := Apply(s, Insert(id, None), maxAttempts);
    StepKeeps(s, Insert(id, None), maxAttempts);
    assert s1.rows[id] == Row(None, 0, s.clock, false, false) && s1.claims[id] == 0;
    PollClaimsIff(s1, crashed, id, maxAttempts);
    hide Inv, PollStatement;
    CrashAndWait(Apply(s1, TryPoll(crashed, id), maxAttempts), crashed, wait, maxAttempts);
    hide Apply, Run;
    assert s.rows[id := Row(None, 0, s.clock, false, false)][id := Row(None, 1, s.clock, false, false)] ==
           s.rows[id := Row(None, 1, s.clock, false, false)];
    assert s.claims[id := 0][id := 1] == s.claims[id := 1];
    assert s.workers[crashed := Ticket(id, 1)] - {crashed} == s.workers - {crashed};
  }

  lemma CrashAndWait(s: System, worker: nat, wait: nat, maxAttempts: nat)
    ensures Run(Apply(s, Crash(worker), maxAttempts), [Tick(wait)], maxAttempts) ==
            s.(workers := s.workers - {worker}, clock := s.clock + wait)
  {
    var crashed := Apply(s, Crash(worker), maxAttempts);
    assert Run(crashed, [Tick(wait)], maxAttempts) == Run(Apply(crashed, Tick(wait), maxAttempts), [], maxAttempts);
  }

  /** The next worker claims, attaches and completes it. */
  lemma SecondAttemptSucceeds(s: System, id: nat, worker: nat, name: nat, maxAttempts: nat)
    requires Inv(s, maxAttempts) && id in s.rows && maxAttempts >= 2
    requires s.rows[id] == Row(None, 1, s.rows[id].updatedAt, false, false) && s.rows[id].updatedAt + 300_000 <= s.clock
    ensures Run(s, [TryPoll(worker, id), Attach(worker, name, true), Complete(name)] + [], maxAttempts) ==
            s.(rows := CompleteStatement(s.rows[id := Row(Some(name), 2, s.clock, false, false)], name, s.clock),
               claims := s.claims[id := 2], workers := s.workers[worker := Ticket(id, 2)],
               attached := s.attached + [Attachment(id, name, 2)])
  {
    assert RowInv(s, id, maxAttempts);
    RunThree(s, TryPoll(worker, id), Attach(worker, name, true), Complete(name), [], maxAttempts);
    PollClaimsIff(s, worker, id, maxAttempts);
    var s1 := Apply(s, TryPoll(worker, id), maxAttempts);
    StepKeeps(s, TryPoll(worker, id), maxAttempts);
    LatestClaimAttaches(s1, worker, name, true, maxAttempts);
    var s2 := Apply(s1, Attach(worker, name, true), maxAttempts);
    assert s2.rows == s.rows[id := Row(Some(name), 2, s.clock, false, false)];
    hide CompleteStatement, PollStatement, AttachStatement;
  }

  /** A new generation whose first worker crashed is claimed by another worker five minutes later, gets its room and is
      completed; then it is cleaned up and its ID is not used again. */
  lemma SecondAttemptCompletes(s: System, id: nat, crashed: nat, worker: nat, name: nat, wait: nat, maxAttempts: nat)
    requires Inv(s, maxAttempts) && id !in s.claims && maxAttempts >= 2 && wait >= 300_000
    ensures var begun := Run(s, [Insert(id, None), TryPoll(crashed, id), Crash(crashed)] + [Tick(wait)], maxAttempts);
            var t := Run(begun, [TryPoll(worker, id), Attach(worker, name, true), Complete(name)] + [], maxAttempts);
            && id in t.rows && t.rows[id] == Row(Some(name), 2, s.clock + wait, true, false)
            && t.claims == s.claims[id := 2] && t.attached == s.attached + [Attachment(id, name, 2)]
            && Apply(t, Cleanup(id), maxAttempts) == t.(rows := t.rows - {id})
            && Apply(Apply(t, Cleanup(id), maxAttempts), Insert(id, None), maxAttempts) == t.(rows := t.rows - {id})
  {
    var first := [Insert(id, None), TryPoll(crashed, id), Crash(crashed)] + [Tick(wait)];
    FirstAttemptCrashes(s, id, crashed, wait, maxAttempts);
    RunKeeps(s, first, maxAttempts);
    var begun := Run(s, first, maxAttempts);
    SecondAttemptSucceeds(begun, id, worker, name, maxAttempts);
    hide Run, Inv, Apply;
    assert begun.claims[id := 2] == s.claims[id := 2];
    var t := Run(begun, [TryPoll(worker, id), Attach(worker, name, true), Complete(name)] + [], maxAttempts);
    assert t.rows[id] == Row(Some(name), 2, s.clock + wait, true, false);
    hide CompleteStatement;
    CleanedUp(t, id, maxAttempts);
    assert t.attached == s.attached + [Attachment(id, name, 2)];
    assert Apply(Apply(t, Cleanup(id), maxAttempts), Insert(id, None), maxAttempts) == t.(rows := t.rows - {id});
  }

  lemma CleanedUp(s: System, id: nat, maxAttempts: nat)
    requires id in s.rows && id in s.claims && !s.rows[id].Unfinished()
    ensures Apply(s, Cleanup(id), maxAttempts) == s.(rows := s.rows - {id})
    ensures Apply(s.(rows := s.rows - {id}), Insert(id, None), maxAttempts) == s.(rows := s.rows - {id})
  {
  }

  lemma RunThree(s: System, a: Step, b: Step, c: Step, rest: seq<Step>, maxAttempts: nat)
    ensures Run(s, [a, b, c] + rest, maxAttempts) ==
            Run(Apply(Apply(Apply(s, a, maxAttempts), b, maxAttempts), c, maxAttempts), rest, maxAttempts)
  {
    hide Apply;
    var s1 := Apply(s, a, maxAttempts);
    assert ([a, b, c] + rest)[1..] == [b, c] + rest && ([b, c] + rest)[1..] == [c] + rest && ([c] + rest)[1..] == rest;
    assert Run(s1, [b, c] + rest, maxAttempts) == Run(Apply(s1, b, maxAttempts), [c] + rest, maxAttempts);
  }
}
