/** Importing a playlist: staged rows, a leased import row, and workers that claim, add and complete. */
module PlaylistImport {
  import opened Wrappers

  const MAX_ATTEMPTS := 5

  /** The lease of a claim, in milliseconds. */
  const RETRY_INTERVAL := 5 * 60 * 1000

  /** A playlist_imports row; updatedAt is also the end of the lease. */
  datatype ImportRow = ImportRow(next: nat, attempts: nat, updatedAt: int)

  /** The staged positions of one import, and its row. */
  datatype Table = Table(staged: set<nat>, row: Option<ImportRow>)

  datatype Claim = NotReady | Granted(position: nat) | Exhausted

  // ---------------------------------------------------------------- the statements

  /** HAVING COUNT(*) = count AND MIN(position) = 0 AND MAX(position) = count - 1. */
  predicate Complete(staged: set<nat>, count: nat)
  {
    count > 0 && |staged| == count && 0 in staged && count - 1 in staged && forall p :: p in staged ==> p < count
  }

  function Positions(from: nat, to: nat): (positions: set<nat>)
    ensures forall p :: p in positions <==> from <= p < to
    ensures from <= to ==> |positions| == to - from
    decreases if from < to then to - from else 0
  {
    if from >= to then {} else Positions(from + 1, to) + {from}
  }

  lemma SameSize<T>(a: set<T>, b: set<T>)
    requires a <= b && |a| == |b|
    ensures a == b
  {
    forall x | x in b ensures x in a {
      assert |b - {x}| < |b|;
      if x !in a { SubsetSize(a, b - {x}); }
    }
  }

  /** The count, minimum and maximum that creating an import checks hold for exactly the gapless staging. */
  lemma CreateChecksForGaps(staged: set<nat>, count: nat)
    requires count > 0
    ensures Complete(staged, count) <==> staged == Positions(0, count)
  {
    if Complete(staged, count) {
      SameSize(staged, Positions(0, count));
    }
  }

  function CreateStatement(t: Table, count: nat, now: int): Table
  {
    if Complete(t.staged, count) && t.row.None? then t.(row := Some(ImportRow(0, 0, now))) else t
  }

  function ClaimStatement(t: Table, now: int, retryAfter: nat): (Table, Claim)
  {
    match t.row
    case None => (t, NotReady)
    case Some(row) =>
      if row.updatedAt > now || row.next !in t.staged then (t, NotReady)
      else if row.attempts < MAX_ATTEMPTS
      then (t.(row := Some(row.(attempts := row.attempts + 1, updatedAt := now + retryAfter))), Granted(row.next))
      else (t, Exhausted)
  }

  /** Both updates ask whether this statement deleted the item and whether others remain in its snapshot. */
  function CompleteStatement(t: Table, position: nat, now: int): (Table, nat)
  {
    if position !in t.staged then (t, 0)
    else
      var left := t.staged - {position};
      match t.row
      case None => (t.(staged := left), 0)
      case Some(row) =>
        if left != {} then (Table(left, Some(ImportRow(row.next + 1, 0, now))), 1) else (Table(left, None), 1)
  }

  /** The staged rows and the import row of one import, updated in place. */
  class Imports {
    var staged: set<nat>
    var row: Option<ImportRow>

    ghost function State(): Table
      reads this
    {
      Table(staged, row)
    }

    constructor ()
      ensures State() == Table({}, None)
    {
      staged, row := {}, None;
    }

    method Claim(now: int, retryAfter: nat) returns (claim: Claim)
      modifies this
      ensures (State(), claim) == ClaimStatement(old(State()), now, retryAfter)
    {
      claim := NotReady;
      if row.Some? && row.value.updatedAt <= now && row.value.next in staged {
        if row.value.attempts < MAX_ATTEMPTS {
          claim := Granted(row.value.next);
          row := Some(ImportRow(row.value.next, row.value.attempts + 1, now + retryAfter));
        } else {
          claim := Exhausted;
        }
      }
    }

    method CompleteItem(position: nat, now: int) returns (updatedCount: nat)
      modifies this
      ensures (State(), updatedCount) == CompleteStatement(old(State()), position, now)
    {
      var deleted, remaining := position in staged, staged - {position} != {};
      staged := staged - {position};
      updatedCount := 0;
      if row.Some? && deleted {
        row := if remaining then Some(ImportRow(row.value.next + 1, 0, now)) else None;
        updatedCount := 1;
      }
      assert !deleted ==> staged == old(staged);
    }

    method Delete()
      modifies this
      ensures State() == Table({}, None)
    {
      staged, row := {}, None;
    }
  }

  // ---------------------------------------------------------------- many workers

  /** A worker between two of its statements: until is the end of the lease it was granted; a worker that gives up
      found the attempts at position used up. */
  datatype Worker = Claimed(position: nat, until: int) | Finishing(position: nat, until: int) | GivingUp(position: nat)

  datatype Phase = Staging | Active | Over

  /** added and completed log the positions put into the queue and completed, grants the claims granted for each. */
  datatype System = System(table: Table, size: nat, phase: Phase, workers: map<nat, Worker>, clock: int,
                           added: set<nat>, completed: seq<nat>, grants: multiset<nat>, abandoned: bool)

  datatype Step =
    | Stage(count: nat)
    | Create(count: nat)
    | TryClaim(worker: nat)
    | AddItem(worker: nat)
    | Finish(worker: nat)
    | GiveUp(worker: nat)
    | Crash(worker: nat)
    | Tick(milliseconds: nat)

  function Apply(s: System, step: Step): System
  {
    match step
    case Stage(count) =>
      if s.phase.Staging? && s.table == Table({}, None) && count > 0
      then s.(table := Table(Positions(0, count), None), size := count)
      else s
    case Create(count) =>
      if s.phase.Staging? && Complete(s.table.staged, count)
      then s.(table := CreateStatement(s.table, count, s.clock), phase := Active)
      else s
    case TryClaim(worker) =>
      if worker in s.workers then s
      else
        var (table, claim) := ClaimStatement(s.table, s.clock, RETRY_INTERVAL);
        (match claim
         case NotReady => s
         case Granted(position) =>
           s.(table := table, grants := s.grants + multiset{position},
              workers := s.workers[worker := Claimed(position, s.clock + RETRY_INTERVAL)])
         case Exhausted => s.(workers := s.workers[worker := GivingUp(s.table.row.value.next)]))
    case AddItem(worker) =>
      if worker in s.workers && s.workers[worker].Claimed?
      then s.(added := s.added + {s.workers[worker].position},
              workers := s.workers[worker := Finishing(s.workers[worker].position, s.workers[worker].until)])
      else s
    case Finish(worker) =>
      if worker in s.workers && s.workers[worker].Finishing? then
        var (table, updatedCount) := CompleteStatement(s.table, s.workers[worker].position, s.clock);
        s.(table := table, workers := s.workers - {worker},
           completed := if updatedCount == 1 then s.completed + [s.workers[worker].position] else s.completed,
           phase := if updatedCount == 1 && table.row.None? then Over else s.phase)
      else s
    case GiveUp(worker) =>
      if worker in s.workers && s.workers[worker].GivingUp?
      then s.(table := Table({}, None), phase := Over, workers := s.workers - {worker},
              abandoned := s.abandoned || s.table.row.Some?)
      else s
    case Crash(worker) => s.(workers := s.workers - {worker})
    case Tick(milliseconds) => s.(clock := s.clock + milliseconds)
  }

  function Run(s: System, steps: seq<Step>): System
    decreases |steps|
  {
    if steps == [] then s else Run(Apply(s, steps[0]), steps[1..])
  }

  const START := System(Table({}, None), 0, Staging, map[], 0, {}, [], multiset{}, false)

  // ---------------------------------------------------------------- the invariant

  /** 0, 1, 2, ... in this order, each once. */
  predicate InOrder(completed: seq<nat>)
  {
    forall i :: 0 <= i < |completed| ==> completed[i] == i
  }

  ghost predicate TableInv(s: System)
  {
    match s.phase
    case Staging =>
      && s.table == Table(Positions(0, s.size), None) && s.completed == [] && s.grants == multiset{}
      && s.workers == map[] && !s.abandoned
    case Active =>
      && s.table.row.Some? && s.table.row.value.next == |s.completed| < s.size && !s.abandoned
      && s.table.staged == Positions(|s.completed|, s.size)
      && s.table.row.value.attempts <= MAX_ATTEMPTS
      && |s.grants| <= MAX_ATTEMPTS * |s.completed| + s.table.row.value.attempts
    case Over =>
      && s.table == Table({}, None) && |s.grants| <= MAX_ATTEMPTS * s.size
      && |s.completed| <= s.size && (|s.completed| == s.size <==> !s.abandoned)
  }

  /** The row's attempts are the claims granted for its position. */
  ghost predicate GrantsInv(s: System)
  {
    && (forall k: nat :: s.grants[k] <= MAX_ATTEMPTS)
    && (s.phase.Staging? ==> s.grants == multiset{})
    && (s.phase.Active? && s.table.row.Some? ==>
          s.grants[|s.completed|] == s.table.row.value.attempts
          && forall k: nat :: k > |s.completed| ==> s.grants[k] == 0)
  }

  ghost predicate WorkerInv(s: System, w: nat)
    requires w in s.workers
  {
    match s.workers[w]
    case Claimed(position, until) => position <= |s.completed| && LeaseInv(s, position, until)
    case Finishing(position, until) =>
      position <= |s.completed| && position in s.added && LeaseInv(s, position, until)
    case GivingUp(position) => position <= |s.completed| && UsedUpInv(s, position)
  }

  /** An exhausted position stays exhausted until it is completed. */
  ghost predicate UsedUpInv(s: System, position: nat)
  {
    s.phase.Active? && position == |s.completed| ==> s.table.row.Some? && s.table.row.value.attempts == MAX_ATTEMPTS
  }

  /** The import row's lease outlasts every lease granted for its position. */
  ghost predicate LeaseInv(s: System, position: nat, until: int)
  {
    s.phase.Active? && position == |s.completed| ==> s.table.row.Some? && until <= s.table.row.value.updatedAt
  }

  ghost predicate Inv(s: System)
  {
    && TableInv(s) && GrantsInv(s) && InOrder(s.completed)
    && (forall i :: 0 <= i < |s.completed| ==> s.completed[i] in s.added)
    && (forall w :: w in s.workers ==> WorkerInv(s, w))
  }

  lemma CreateKeeps(s: System, count: nat)
    requires Inv(s)
    ensures Inv(Apply(s, Create(count)))
  {
    if s.phase.Staging? && Complete(s.table.staged, count) {
      CreateChecksForGaps(s.table.staged, count);
      assert Positions(0, s.size) == Positions(0, count);
      assert count - 1 in Positions(0, s.size) && s.size == |Positions(0, s.size)|;
    }
  }

  /** The two outcomes of a claim on a row that is due. */
  lemma TryClaimIs(s: System, worker: nat)
    requires Inv(s)
    ensures var after := Apply(s, TryClaim(worker));
            after == s || (s.phase.Active? && worker !in s.workers && s.table.row.value.updatedAt <= s.clock &&
              var k, attempts := |s.completed|, s.table.row.value.attempts;
              after == if attempts < MAX_ATTEMPTS
                then s.(table := s.table.(row := Some(ImportRow(k, attempts + 1, s.clock + RETRY_INTERVAL))),
                        grants := s.grants + multiset{k},
                        workers := s.workers[worker := Claimed(k, s.clock + RETRY_INTERVAL)])
                else s.(workers := s.workers[worker := GivingUp(k)]))
  {
    hide Positions, InOrder, GrantsInv, WorkerInv;
  }

  lemma TryClaimKeeps(s: System, worker: nat)
    requires Inv(s)
    ensures Inv(Apply(s, TryClaim(worker)))
  {
    TryClaimIs(s, worker);
    var after := Apply(s, TryClaim(worker));
    hide Apply, Positions, InOrder;
    if after != s {
      assert TableInv(after);
      assert GrantsInv(after);
      hide TableInv, GrantsInv;
      forall w | w in after.workers ensures WorkerInv(after, w) {
        if w != worker { assert WorkerInv(s, w); }
      }
    }
  }

  lemma AddItemKeeps(s: System, worker: nat)
    requires Inv(s)
    ensures Inv(Apply(s, AddItem(worker)))
  {
    var after := Apply(s, AddItem(worker));
    forall w | w in after.workers ensures WorkerInv(after, w) {
      assert WorkerInv(s, w);
    }
  }

  lemma CompletedNext(s: System, position: nat)
    requires Inv(s) && s.phase.Active? && position == |s.completed|
    ensures s.table.staged - {position} == Positions(position + 1, s.size)
    ensures position + 1 < s.size <==> s.table.staged - {position} != {}
    ensures MAX_ATTEMPTS * |s.completed| + s.table.row.value.attempts <= MAX_ATTEMPTS * (|s.completed| + 1)
    ensures MAX_ATTEMPTS * (|s.completed| + 1) <= MAX_ATTEMPTS * s.size
  {
    assert position + 1 < s.size ==> position + 1 in Positions(position + 1, s.size);
  }

  /** What the next position's completion leaves, and that any other position's leaves everything. */
  function Finished(s: System, worker: nat): System
  {
    var k := |s.completed|;
    s.(table := Table(Positions(k + 1, s.size), if k + 1 < s.size then Some(ImportRow(k + 1, 0, s.clock)) else None),
       workers := s.workers - {worker}, completed := s.completed + [k],
       phase := if k + 1 < s.size then Active else Over)
  }

  lemma FinishIs(s: System, worker: nat)
    requires Inv(s) && worker in s.workers && s.workers[worker].Finishing?
    ensures Apply(s, Finish(worker)) ==
            if s.phase.Active? && s.workers[worker].position == |s.completed| then Finished(s, worker)
            else s.(workers := s.workers - {worker})
  {
    var position := s.workers[worker].position;
    assert WorkerInv(s, worker);
    if s.phase.Active? && position == |s.completed| {
      CompletedNext(s, position);
      assert position in s.table.staged;
    } else {
      assert CompleteStatement(s.table, position, s.clock) == (s.table, 0);
    }
  }

  lemma FinishedTable(s: System, worker: nat)
    requires Inv(s) && s.phase.Active?
    ensures TableInv(Finished(s, worker))
  {
    CompletedNext(s, |s.completed|);
    hide Positions, WorkerInv, InOrder, GrantsInv;
    assert |s.completed + [|s.completed|]| == |s.completed| + 1;
  }

  lemma FinishedGrants(s: System, worker: nat)
    requires Inv(s) && s.phase.Active?
    ensures GrantsInv(Finished(s, worker)) && InOrder(Finished(s, worker).completed)
  {
    hide Positions, WorkerInv;
  }

  lemma FinishedKeeps(s: System, worker: nat)
    requires Inv(s) && s.phase.Active? && worker in s.workers && s.workers[worker].Finishing?
    requires s.workers[worker].position == |s.completed|
    ensures Inv(Finished(s, worker))
  {
    var after := Finished(s, worker);
    assert WorkerInv(s, worker);
    FinishedTable(s, worker);
    FinishedGrants(s, worker);
    hide Positions, TableInv, GrantsInv, InOrder;
    forall w | w in after.workers ensures WorkerInv(after, w) {
      assert WorkerInv(s, w);
    }
  }

  lemma FinishKeeps(s: System, worker: nat)
    requires Inv(s)
    ensures Inv(Apply(s, Finish(worker)))
  {
    if worker in s.workers && s.workers[worker].Finishing? {
      FinishIs(s, worker);
      if s.phase.Active? && s.workers[worker].position == |s.completed| {
        FinishedKeeps(s, worker);
      } else {
        hide Apply;
        forall w | w in s.workers - {worker} ensures WorkerInv(s.(workers := s.workers - {worker}), w) {
          assert WorkerInv(s, w);
        }
      }
    }
  }

  lemma GiveUpKeeps(s: System, worker: nat)
    requires Inv(s)
    ensures Inv(Apply(s, GiveUp(worker)))
  {
    var after := Apply(s, GiveUp(worker));
    if worker in s.workers && s.workers[worker].GivingUp? {
      forall w | w in after.workers ensures WorkerInv(after, w) {
        assert WorkerInv(s, w);
      }
    }
  }

  lemma StepKeeps(s: System, step: Step)
    requires Inv(s)
    ensures Inv(Apply(s, step))
  {
    match step
    case Stage(count) =>
      var after := Apply(s, step);
      forall w | w in after.workers ensures WorkerInv(after, w) { assert WorkerInv(s, w); }
    case Create(count) => CreateKeeps(s, count);
    case TryClaim(worker) => TryClaimKeeps(s, worker);
    case AddItem(worker) => AddItemKeeps(s, worker);
    case Finish(worker) => FinishKeeps(s, worker);
    case GiveUp(worker) => GiveUpKeeps(s, worker);
    case Crash(worker) =>
      var after := Apply(s, step);
      forall w | w in after.workers ensures WorkerInv(after, w) { assert WorkerInv(s, w); }
    case Tick(milliseconds) =>
      var after := Apply(s, step);
      forall w | w in after.workers ensures WorkerInv(after, w) { assert WorkerInv(s, w); }
  }

  lemma {:induction false} RunKeeps(s: System, steps: seq<Step>)
    requires Inv(s)
    ensures Inv(Run(s, steps))
    decreases |steps|
  {
    if steps != [] {
      StepKeeps(s, steps[0]);
      RunKeeps(Apply(s, steps[0]), steps[1..]);
    }
  }

  // ---------------------------------------------------------------- the promises

  /** Over every run of any number of workers, with crashes, retries and expired leases: while the import lasts its
      staged rows are exactly next_position..size-1, items were completed in order and each once, only after being
      put into the queue, and the granted claims are bounded; at the end everything is completed unless given up. */
  lemma ImportInOrder(steps: seq<Step>)
    ensures var s := Run(START, steps);
            && InOrder(s.completed) && (forall p :: p in s.completed ==> p in s.added)
            && |s.grants| <= MAX_ATTEMPTS * s.size && (forall k: nat :: s.grants[k] <= MAX_ATTEMPTS)
            && (s.phase.Active? ==> s.table.row.Some? && s.table.row.value.next == |s.completed| < s.size
                                    && s.table.staged == Positions(|s.completed|, s.size))
            && (s.phase.Over? && !s.abandoned ==> s.completed == seq(s.size, i => i))
            && (s.phase.Over? ==> s.table == Table({}, None))
  {
    assert Inv(START);
    RunKeeps(START, steps);
    var s := Run(START, steps);
    if s.phase.Active? {
      assert MAX_ATTEMPTS * |s.completed| + MAX_ATTEMPTS <= MAX_ATTEMPTS * s.size;
    }
  }

  /** A worker that completes a position someone else has completed changes nothing and is told so. */
  lemma StaleCompletion(s: System, worker: nat)
    requires Inv(s) && worker in s.workers && s.workers[worker].Finishing?
    requires s.workers[worker].position < |s.completed|
    ensures CompleteStatement(s.table, s.workers[worker].position, s.clock) == (s.table, 0)
    ensures Apply(s, Finish(worker)) == s.(workers := s.workers - {worker})
  {
  }

  /** Every completion that has an effect is of the position the row is at. */
  lemma EffectiveCompletion(s: System, worker: nat)
    requires Inv(s) && worker in s.workers && s.workers[worker].Finishing?
    ensures CompleteStatement(s.table, s.workers[worker].position, s.clock).1 == 1 <==>
            s.phase.Active? && s.workers[worker].position == |s.completed|
  {
    assert WorkerInv(s, worker);
  }

  /** What an undisturbed worker has done when it is about to complete. */
  function ClaimedAndAdded(s: System, worker: nat): System
    requires s.table.row.Some?
  {
    var row := s.table.row.value;
    s.(table := s.table.(row := Some(ImportRow(row.next, row.attempts + 1, s.clock + RETRY_INTERVAL))),
       grants := s.grants + multiset{row.next},
       added := s.added + {row.next}, workers := s.workers[worker := Finishing(row.next, s.clock + RETRY_INTERVAL)])
  }

  predicate Due(s: System)
  {
    s.table.row.Some? && s.table.row.value.updatedAt <= s.clock && s.table.row.value.attempts < MAX_ATTEMPTS &&
    s.table.row.value.next in s.table.staged
  }

  lemma ClaimAndAdd(s: System, worker: nat)
    requires Due(s) && worker !in s.workers
    ensures Apply(Apply(s, TryClaim(worker)), AddItem(worker)) == ClaimedAndAdded(s, worker)
  {
    var claimed := Apply(s, TryClaim(worker));
    assert claimed.workers == s.workers[worker := Claimed(s.table.row.value.next, s.clock + RETRY_INTERVAL)];
    assert Apply(claimed, AddItem(worker)).workers == ClaimedAndAdded(s, worker).workers;
  }

  /** An undisturbed worker completes exactly the next position, and the import is over with the last one. */
  lemma RoundCompletes(s: System, worker: nat)
    requires Inv(s) && s.phase.Active? && worker !in s.workers
    requires s.table.row.value.updatedAt <= s.clock && s.table.row.value.attempts < MAX_ATTEMPTS
    ensures var after := Apply(Apply(Apply(s, TryClaim(worker)), AddItem(worker)), Finish(worker));
            && after.completed == s.completed + [|s.completed|] && after.added == s.added + {|s.completed|}
            && after.workers == s.workers && (after.phase.Over? <==> |after.completed| == s.size) && !after.abandoned
  {
    assert Due(s) && s.table.row.value.next == |s.completed| < s.size && !s.abandoned;
    ClaimAndAdd(s, worker);
    StepKeeps(s, TryClaim(worker));
    StepKeeps(Apply(s, TryClaim(worker)), AddItem(worker));
    hide Apply, Inv, Positions, Due;
    FinishIs(ClaimedAndAdded(s, worker), worker);
    assert s.workers[worker := Finishing(|s.completed|, s.clock + RETRY_INTERVAL)] - {worker} == s.workers;
  }

  /** After a completion the next position is claimable at once, with all its attempts. */
  lemma NextIsFresh(s: System, worker: nat, other: nat)
    requires Inv(s) && worker in s.workers && s.workers[worker].Finishing? && other !in s.workers
    requires |Apply(s, Finish(worker)).completed| > |s.completed| && |s.completed| + 1 < s.size
    ensures var after := Apply(s, Finish(worker));
            var claimed := Apply(after, TryClaim(other));
            && after.phase.Active? && ClaimsLeft(after) == MAX_ATTEMPTS * (s.size - |after.completed|)
            && claimed.workers == after.workers[other := Claimed(|s.completed| + 1, s.clock + RETRY_INTERVAL)]
  {
    assert |s.completed| + 1 in Positions(|s.completed| + 1, s.size);
    hide Inv, CompleteStatement, Positions;
    EffectiveCompletion(s, worker);
    FinishIs(s, worker);
    var after := Finished(s, worker);
    assert ClaimStatement(after.table, s.clock, RETRY_INTERVAL).1 == Granted(|s.completed| + 1);
  }

  /** A claim is granted only when every earlier lease on the position has run out. */
  lemma GrantWaitsForLeases(s: System, worker: nat, other: nat)
    requires Inv(s) && ClaimStatement(s.table, s.clock, 0).1.Granted?
    requires other in s.workers && !s.workers[other].GivingUp?
    requires s.workers[other].position == ClaimStatement(s.table, s.clock, 0).1.position
    ensures s.workers[other].until <= s.clock
  {
    assert WorkerInv(s, other);
  }

  /** What is left to do: claims that can still be granted before the import is given up. */
  function ClaimsLeft(s: System): int
  {
    match s.phase
    case Staging => MAX_ATTEMPTS * s.size
    case Active =>
      if s.table.row.Some? then MAX_ATTEMPTS * (s.size - s.table.row.value.next) - s.table.row.value.attempts else 0
    case Over => 0
  }

  lemma FinishUsesNoClaims(s: System, worker: nat)
    requires Inv(s)
    ensures ClaimsLeft(Apply(s, Finish(worker))) <= ClaimsLeft(s) && Apply(s, Finish(worker)).grants == s.grants
  {
    if worker in s.workers && s.workers[worker].Finishing? {
      EffectiveCompletion(s, worker);
      LeftIsBounded(s);
    }
  }

  lemma GrantUsesOneClaim(s: System, worker: nat)
    requires Inv(s)
    ensures var after := Apply(s, TryClaim(worker));
            if |after.grants| > |s.grants| then ClaimsLeft(after) == ClaimsLeft(s) - 1
            else ClaimsLeft(after) == ClaimsLeft(s)
  {
    TryClaimIs(s, worker);
    hide Apply, Inv;
  }

  lemma OthersUseNoClaims(s: System, step: Step)
    requires !s.phase.Staging? && !step.Finish? && !step.TryClaim?
    ensures ClaimsLeft(Apply(s, step)) == ClaimsLeft(s) || ClaimsLeft(Apply(s, step)) == 0
    ensures Apply(s, step).grants == s.grants
  {
  }

  /** From any reachable state of a created import, no step of anybody adds claims and each granted claim
      uses one up. */
  lemma ClaimsRunOut(s: System, step: Step)
    requires Inv(s) && !s.phase.Staging?
    ensures 0 <= ClaimsLeft(Apply(s, step)) <= ClaimsLeft(s)
    ensures |Apply(s, step).grants| > |s.grants| ==> ClaimsLeft(Apply(s, step)) < ClaimsLeft(s)
  {
    StepKeeps(s, step);
    LeftIsBounded(s);
    LeftIsBounded(Apply(s, step));
    hide *;
    match step
    case Finish(worker) => FinishUsesNoClaims(s, worker);
    case TryClaim(worker) => GrantUsesOneClaim(s, worker);
    case _ => OthersUseNoClaims(s, step);
  }

  /** Once they are used up, the next claim that is due gives the import up: every import ends. */
  lemma LastClaimEnds(s: System, worker: nat)
    requires Inv(s) && s.phase.Active? && ClaimsLeft(s) == 0
    requires worker !in s.workers && s.table.row.value.updatedAt <= s.clock
    ensures Apply(Apply(s, TryClaim(worker)), GiveUp(worker)).phase.Over?
  {
    LeftIsBounded(s);
  }

  lemma LeftIsBounded(s: System)
    requires Inv(s)
    ensures ClaimsLeft(s) >= 0
    ensures s.phase.Active? && ClaimsLeft(s) == 0 ==>
              s.table.row.value.attempts == MAX_ATTEMPTS && s.table.row.value.next in s.table.staged
  {
    if s.phase.Active? {
      assert MAX_ATTEMPTS * (s.size - s.table.row.value.next) >= MAX_ATTEMPTS;
    }
  }

  lemma RunCons(s: System, step: Step, rest: seq<Step>)
    ensures Run(s, [step] + rest) == Run(Apply(s, step), rest)
  {
    assert ([step] + rest)[1..] == rest;
  }

  /** Workers from, ..., to - 1 claim one after the other, each after the lease before has run out. */
  function Claims(from: nat, to: nat): seq<Step>
    decreases if from < to then to - from else 0
  {
    if from >= to then [] else [TryClaim(from)] + ([Tick(RETRY_INTERVAL)] + Claims(from + 1, to))
  }

  /** A state in which attempts workers have claimed position 0 of 2, the last lease has run out and no one is done. */
  ghost predicate ClaimedBy(s: System, attempts: nat)
  {
    && s.phase.Active? && s.table == Table(Positions(0, 2), Some(ImportRow(0, attempts, s.clock))) && s.size == 2
    && s.completed == [] && !s.abandoned && s.grants[0] == attempts && s.grants[1] == 0
    && (forall w :: w in s.workers ==> w < attempts)
    && (attempts > 0 ==> attempts - 1 in s.workers && s.workers[attempts - 1] == Claimed(0, s.clock))
  }

  lemma OneMoreClaim(s: System, worker: nat)
    requires ClaimedBy(s, worker) && worker < MAX_ATTEMPTS
    ensures ClaimedBy(Apply(Apply(s, TryClaim(worker)), Tick(RETRY_INTERVAL)), worker + 1)
  {
    assert 0 in s.table.staged && worker !in s.workers;
    hide Positions;
  }

  lemma {:induction false} FiveClaims(s: System, from: nat, rest: seq<Step>) returns (after: System)
    requires from <= MAX_ATTEMPTS && ClaimedBy(s, from)
    ensures ClaimedBy(after, MAX_ATTEMPTS) && Run(s, Claims(from, MAX_ATTEMPTS) + rest) == Run(after, rest)
    decreases MAX_ATTEMPTS - from
  {
    if from < MAX_ATTEMPTS {
      OneMoreClaim(s, from);
      var more := Claims(from + 1, MAX_ATTEMPTS) + rest;
      assert Claims(from, MAX_ATTEMPTS) + rest == [TryClaim(from)] + ([Tick(RETRY_INTERVAL)] + more);
      RunCons(s, TryClaim(from), [Tick(RETRY_INTERVAL)] + more);
      RunCons(Apply(s, TryClaim(from)), Tick(RETRY_INTERVAL), more);
      hide *;
      after := FiveClaims(Apply(Apply(s, TryClaim(from)), Tick(RETRY_INTERVAL)), from + 1, rest);
    } else {
      after := s;
      assert Claims(from, MAX_ATTEMPTS) + rest == rest;
    }
  }

  /** Worker 5 finds the import exhausted; worker 4, whose lease has run out, still completes position 0; then worker 5
      deletes the import. */
  const OVERTAKE := [TryClaim(5)] + ([AddItem(4)] + ([Finish(4)] + ([GiveUp(5)] + [])))

  lemma Overtaken(s: System)
    requires ClaimedBy(s, MAX_ATTEMPTS)
    ensures var end := Run(s, OVERTAKE);
            end.abandoned && end.phase.Over? && end.completed == [0] && end.size == 2 && end.grants[1] == 0
  {
    assert 0 in s.table.staged && 1 in s.table.staged - {0};
    var s1 := Apply(s, TryClaim(5));
    var s2 := Apply(s1, AddItem(4));
    var s3 := Apply(s2, Finish(4));
    var s4 := Apply(s3, GiveUp(5));
    assert s1.workers[5] == GivingUp(0) && s1.workers[4] == Claimed(0, s.clock);
    assert s3.completed == [0] && s3.table.row.Some? && s3.workers[5] == GivingUp(0);
    hide Apply;
    RunCons(s, TryClaim(5), [AddItem(4)] + ([Finish(4)] + ([GiveUp(5)] + [])));
    RunCons(s1, AddItem(4), [Finish(4)] + ([GiveUp(5)] + []));
    RunCons(s2, Finish(4), [GiveUp(5)] + []);
    RunCons(s3, GiveUp(5), []);
  }

  /** A worker that found the import exhausted can be overtaken by one whose lease has run out, and then deletes an item
      nobody ever claimed. */
  lemma OvertakenGiveUpDropsItems()
    ensures var s := Run(START, [Stage(2)] + ([Create(2)] + (Claims(0, MAX_ATTEMPTS) + OVERTAKE)));
            s.abandoned && s.phase.Over? && s.completed == [0] && s.size == 2 && s.grants[1] == 0
  {
    CreateChecksForGaps(Positions(0, 2), 2);
    var staged := Apply(START, Stage(2));
    var created := Apply(staged, Create(2));
    assert ClaimedBy(created, 0);
    RunCons(START, Stage(2), [Create(2)] + (Claims(0, MAX_ATTEMPTS) + OVERTAKE));
    RunCons(staged, Create(2), Claims(0, MAX_ATTEMPTS) + OVERTAKE);
    hide *;
    var claimed := FiveClaims(created, 0, OVERTAKE);
    Overtaken(claimed);
  }

  /** Exactly when it does harm: over every run, a give-up deletes a next item that still has claims left if and only if
      the row's attempts are not used up at that moment, and then the exhausted position was completed meanwhile; a
      give-up at the position found exhausted deletes an item all of whose claims were granted. */
  lemma GiveUpIsDeserved(steps: seq<Step>, worker: nat)
    requires var s := Run(START, steps);
             s.phase.Active? && worker in s.workers && s.workers[worker].GivingUp?
    ensures var s := Run(START, steps);
            var next, position := |s.completed|, s.workers[worker].position;
            && s.table.row.Some? && s.table.row.value.next == next && position <= next
            && (s.grants[next] < MAX_ATTEMPTS <==> s.table.row.value.attempts < MAX_ATTEMPTS)
            && (s.grants[next] < MAX_ATTEMPTS ==> position < next && position in s.completed)
            && (position == next ==> s.grants[next] == MAX_ATTEMPTS == s.table.row.value.attempts)
  {
    assert Inv(START);
    RunKeeps(START, steps);
    var s := Run(START, steps);
    assert WorkerInv(s, worker);
    var position := s.workers[worker].position;
    assert position < |s.completed| ==> s.completed[position] == position;
  }
}
