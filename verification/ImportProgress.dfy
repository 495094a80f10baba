/** What the import statements do to the stored rows, and that undisturbed workers bring every import to its end. */
module ImportProgress {
  import opened Wrappers
  import opened PlaylistImport

  /** An import is created exactly once, for the positions 0 to count - 1 without a gap. */
  lemma CreatedIff(t: Table, count: nat, now: int)
    ensures CreateStatement(t, count, now) ==
            if count > 0 && t.row == None && t.staged == Positions(0, count)
            then Table(t.staged, Some(ImportRow(0, 0, now))) else t
  {
    if count > 0 { CreateChecksForGaps(t.staged, count); }
  }

  /** A completion takes the staged item out; with it the row moves on to a position with all its claims, or goes with
      the last item. */
  lemma CompletionIs(t: Table, position: nat, now: int)
    ensures var (after, updated) := CompleteStatement(t, position, now);
            && after.staged == t.staged - {position}
            && updated == (if position in t.staged && t.row.Some? then 1 else 0)
            && after.row == (if updated == 0 then t.row
                             else if after.staged == {} then None
                             else Some(ImportRow(t.row.value.next + 1, 0, now)))
  {
  }

  /** A claim whose worker crashed keeps everybody out for five minutes; then the item is claimed again, if it was not
      its last claim. */
  lemma CrashedClaimIsRetried(s: System, worker: nat, other: nat, milliseconds: nat)
    requires Due(s) && worker !in s.workers && other !in s.workers
    ensures var crashed := Apply(Apply(s, TryClaim(worker)), Crash(worker));
            var later := Apply(crashed, Tick(milliseconds));
            var row := s.table.row.value;
            && crashed.workers == s.workers && later.clock == s.clock + milliseconds
            && (milliseconds < 300_000 ==> Apply(later, TryClaim(other)) == later)
            && (milliseconds >= 300_000 ==>
                  other in Apply(later, TryClaim(other)).workers &&
                  Apply(later, TryClaim(other)).workers[other] ==
                    if row.attempts + 1 < 5 then Claimed(row.next, later.clock + 300_000) else GivingUp(row.next))
  {
    var claimed := Apply(s, TryClaim(worker));
    assert claimed.workers - {worker} == s.workers;
    var later := Apply(Apply(claimed, Crash(worker)), Tick(milliseconds));
    var row := s.table.row.value;
    assert later.table.row == Some(ImportRow(row.next, row.attempts + 1, s.clock + 300_000));
    assert later.table.staged == s.table.staged && later.workers == s.workers;
  }

  // ---------------------------------------------------------------- a whole import

  /** One worker claims, adds and completes rounds items. */
  function Rounds(rounds: nat): seq<Step>
  {
    if rounds == 0 then [] else [TryClaim(0)] + ([AddItem(0)] + ([Finish(0)] + Rounds(rounds - 1)))
  }

  lemma RoundIs(s: System, rounds: nat)
    requires rounds > 0
    ensures Run(s, Rounds(rounds)) ==
            Run(Apply(Apply(Apply(s, TryClaim(0)), AddItem(0)), Finish(0)), Rounds(rounds - 1))
  {
    RunCons(s, TryClaim(0), [AddItem(0)] + ([Finish(0)] + Rounds(rounds - 1)));
    RunCons(Apply(s, TryClaim(0)), AddItem(0), [Finish(0)] + Rounds(rounds - 1));
    RunCons(Apply(Apply(s, TryClaim(0)), AddItem(0)), Finish(0), Rounds(rounds - 1));
  }

  /** The position is due, with all its claims. */
  ghost predicate Fresh(s: System)
  {
    && Inv(s) && s.phase.Active? && 0 !in s.workers && s.table.row.Some?
    && s.table.row.value.updatedAt <= s.clock && s.table.row.value.attempts == 0
  }

  lemma RoundLeaves(s: System)
    requires Fresh(s)
    ensures var after := Apply(Apply(Apply(s, TryClaim(0)), AddItem(0)), Finish(0));
            && after.size == s.size && after.added == s.added + {|s.completed|}
            && |after.completed| == |s.completed| + 1
            && after.workers == s.workers && Inv(after) && !after.abandoned
            && (if |after.completed| < s.size then Fresh(after) else after.phase.Over?)
  {
    RoundCompletes(s, 0);
    assert Due(s);
    StepKeeps(s, TryClaim(0));
    StepKeeps(Apply(s, TryClaim(0)), AddItem(0));
    StepKeeps(Apply(Apply(s, TryClaim(0)), AddItem(0)), Finish(0));
    ClaimAndAdd(s, 0);
    FinishIs(ClaimedAndAdded(s, 0), 0);
    hide Inv, Apply;
  }

  lemma {:induction false} RoundsComplete(s: System, rounds: nat)
    requires rounds > 0 && Fresh(s) && |s.completed| + rounds == s.size
    ensures var t := Run(s, Rounds(rounds));
            && t.phase.Over? && !t.abandoned && |t.completed| == t.size == s.size
            && t.added == s.added + Positions(|s.completed|, s.size)
    decreases rounds
  {
    hide *;
    RoundIs(s, rounds);
    RoundLeaves(s);
    NextPosition(|s.completed|, s.size);
    var after := Apply(Apply(Apply(s, TryClaim(0)), AddItem(0)), Finish(0));
    if rounds > 1 {
      RoundsComplete(after, rounds - 1);
    } else {
      RunNothing(after);
    }
  }

  lemma RunNothing(s: System)
    ensures Run(s, Rounds(0)) == s
  {
  }

  lemma NextPosition(from: nat, to: nat)
    requires from < to
    ensures Positions(from, to) == {from} + Positions(from + 1, to)
    ensures from + 1 == to ==> Positions(from, to) == {from}
  {
  }

  lemma StagedIs(count: nat)
    requires count > 0
    ensures Apply(START, Stage(count)) == START.(table := Table(Positions(0, count), None), size := count)
    ensures Inv(Apply(START, Stage(count)))
  {
    assert Inv(START);
    StepKeeps(START, Stage(count));
    hide Inv, Positions;
  }

  lemma CreatedIsFresh(count: nat)
    requires count > 0
    ensures var s := Apply(Apply(START, Stage(count)), Create(count));
            Fresh(s) && s.size == count && s.completed == [] && s.added == {}
  {
    StagedIs(count);
    var staged := Apply(START, Stage(count));
    StepKeeps(staged, Create(count));
    hide Inv, Positions, Complete, CreateStatement;
    CreateChecksForGaps(staged.table.staged, count);
    CreatedIff(staged.table, count, staged.clock);
  }

  /** Every import, however long, that one worker is left alone with is staged, created, added and completed in full. */
  lemma ImportCompletes(count: nat)
    requires count > 0
    ensures var t := Run(START, [Stage(count)] + ([Create(count)] + Rounds(count)));
            t.phase.Over? && !t.abandoned && |t.completed| == count && t.added == Positions(0, count)
  {
    RunCons(START, Stage(count), [Create(count)] + Rounds(count));
    RunCons(Apply(START, Stage(count)), Create(count), Rounds(count));
    CreatedIsFresh(count);
    var created := Apply(Apply(START, Stage(count)), Create(count));
    hide *;
    RoundsComplete(created, count);
    assert {} + Positions(0, count) == Positions(0, count);
  }
}
