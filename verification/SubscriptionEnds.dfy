/** When a subscription ends, what is turned away, and how much one round takes. */
module SubscriptionEnds {
  import opened Wrappers
  import Compaction
  import opened EventStream
  import opened Subscription

  // ---------------------------------------------------------------- endings

  /** A closed subscription stays as it is, whatever happens to the stream. */
  lemma {:induction false} ClosedStays(s: System, steps: seq<Step>, readCount: nat)
    requires s.sub.phase.Closed?
    ensures Run(s, steps, readCount).sub == s.sub
    decreases |steps|
  {
    if steps != [] {
      assert Apply(s, steps[0], readCount).sub == s.sub;
      ClosedStays(Apply(s, steps[0], readCount), steps[1..], readCount);
    }
  }

  /** A cancelled subscription delivers nothing more in any run, and its cursor stays at the last delivered event. */
  lemma CancelEnds(s: System, steps: seq<Step>, readCount: nat)
    ensures var t := Run(Apply(s, Cancel, readCount), steps, readCount);
            && t.sub.phase.Closed? && t.sub.messages == s.sub.messages && t.sub.cursor == s.sub.cursor
            && t.sub.batches == s.sub.batches
  {
    ClosedStays(Apply(s, Cancel, readCount), steps, readCount);
  }

  /** A step closes a subscription only by cancelling it, or when the first stored ID, as read before, and the last one
      do not enclose the cursor. */
  lemma ClosesOnlyWhen(s: System, step: Step, readCount: nat)
    requires !s.sub.phase.Closed? && Apply(s, step, readCount).sub.phase.Closed?
    ensures step == Cancel ||
            (step == ReadLast && s.sub.phase.Bounding? &&
             !(s.sub.phase.first.Some? && s.log.records != [] &&
               s.sub.phase.first.value <= s.sub.cursor <= s.log.records[|s.log.records| - 1].id))
  {
  }

  // ---------------------------------------------------------------- the check

  lemma RunThree(s: System, a: Step, b: Step, c: Step, readCount: nat)
    ensures Run(s, [a, b, c], readCount) ==
            Apply(Apply(Apply(s, a, readCount), b, readCount), c, readCount)
  {
    hide Apply;
    var s1 := Apply(s, a, readCount);
    var s2 := Apply(s1, b, readCount);
    assert [a, b, c][1..] == [b, c] && [b, c][1..] == [c] && [c][1..] == [];
    assert Run(s2, [c], readCount) == Run(Apply(s2, c, readCount), [], readCount);
  }

  lemma SomethingIsRead(s: System, readCount: nat)
    requires LogInv(s.log) && readCount > 0
    requires s.log.records != [] && s.sub.cursor < s.log.records[|s.log.records| - 1].id
    ensures ReadAfter(s.log.records, s.sub.cursor, readCount) != []
  {
    UptoSplits(s.log.records, s.sub.cursor);
  }

  /** With something to read, a waiting subscriber is turned away, without delivering anything, exactly when the stream
      begins behind its cursor; one that starts before everything is not checked at all. */
  lemma TurnedAwayIff(s: System, readCount: nat)
    requires s.sub.phase.Waiting? && LogInv(s.log) && readCount > 0
    requires s.log.records != [] && s.sub.cursor < s.log.records[|s.log.records| - 1].id
    ensures var t := Run(s, [Read, ReadFirst, ReadLast], readCount);
            && t.log == s.log && t.sub.messages == s.sub.messages && t.sub.cursor == s.sub.cursor
            && (if 0 < s.sub.cursor < s.log.records[0].id then t.sub.phase.Closed? && Begun(t.sub) == s.sub.batches
                else t.sub.phase == Delivering(ReadAfter(s.log.records, s.sub.cursor, readCount), s.sub.cursor, 0))
  {
    RunThree(s, Read, ReadFirst, ReadLast, readCount);
    SomethingIsRead(s, readCount);
    hide Run, ReadAfter, LogInv;
    var batch := ReadAfter(s.log.records, s.sub.cursor, readCount);
    var s1 := Apply(s, Read, readCount);
    if s.sub.cursor > 0 {
      assert s1 == s.(sub := s.sub.(phase := Checking(batch)));
    }
  }

  // ---------------------------------------------------------------- how much is taken

  predicate Fits(batch: seq<Compaction.Event>, readCount: nat) { 0 < |batch| <= readCount }

  predicate AllFit(sub: Subscriber, readCount: nat)
  {
    && (forall i :: 0 <= i < |sub.batches| ==> Fits(sub.batches[i], readCount))
    && match sub.phase
       case Waiting => true
       case Checking(batch) => Fits(batch, readCount)
       case Bounding(batch, _) => Fits(batch, readCount)
       case Delivering(batch, _, _) => Fits(batch, readCount)
       case Closed(batch, _, _) => batch == [] || Fits(batch, readCount)
  }

  lemma StepFits(s: System, step: Step, readCount: nat)
    requires AllFit(s.sub, readCount)
    ensures AllFit(Apply(s, step, readCount).sub, readCount)
  {
    hide Compaction.Deliveries, Upto, Execute;
  }

  lemma {:induction false} RunFits(s: System, steps: seq<Step>, readCount: nat)
    requires AllFit(s.sub, readCount)
    ensures AllFit(Run(s, steps, readCount).sub, readCount)
    decreases |steps|
  {
    if steps != [] {
      StepFits(s, steps[0], readCount);
      RunFits(Apply(s, steps[0], readCount), steps[1..], readCount);
    }
  }

  /** Over every run: no batch is empty, and none holds more records than are read at once. */
  lemma BatchesAreBounded(log: Log, start: nat, steps: seq<Step>, readCount: nat, i: nat)
    requires i < |Begun(Run(Subscribe(log, start), steps, readCount).sub)|
    ensures 0 < |Begun(Run(Subscribe(log, start), steps, readCount).sub)[i]| <= readCount
  {
    RunFits(Subscribe(log, start), steps, readCount);
  }
}
