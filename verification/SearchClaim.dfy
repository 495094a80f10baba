/** Single-flight provider searches: callers share one claim key and one cache entry. */
module SearchClaim {
  import opened Wrappers

  /** A caller between two of its Redis commands. Its token is its number: every call draws a fresh one. */
  datatype Phase =
    | Reading      // about to read the cache
    | Claiming     // the cache was empty
    | Rechecking   // won the claim
    | Searching    // sent to the provider
    | Storing      // the provider answered
    | Releasing    // holds a claim it is done with
    | Served

  /** answered counts successful provider searches; expired claims, evicted cache entries and answers that never
      reached the cache are counted too. */
  datatype System = System(cached: bool, claim: Option<nat>, callers: map<nat, Phase>,
                           answered: nat, expired: nat, evicted: nat, lost: nat)

  datatype Step =
    | Begin(caller: nat)
    | ReadCache(caller: nat)
    | Claim(caller: nat)
    | Recheck(caller: nat)
    | Answer(caller: nat)
    | FailSearch(caller: nat)
    | Store(caller: nat)
    | LoseStore(caller: nat)
    | Release(caller: nat)
    | Crash(caller: nat)
    | ExpireClaim
    | EvictCache

  predicate At(s: System, caller: nat, phase: Phase)
  {
    caller in s.callers && s.callers[caller] == phase
  }

  function To(s: System, caller: nat, phase: Phase): System
  {
    s.(callers := s.callers[caller := phase])
  }

  /** SET NX. */
  function ClaimCommand(claim: Option<nat>, token: nat): (Option<nat>, bool)
  {
    if claim.None? then (Some(token), true) else (claim, false)
  }

  /** DELEX IFEQ. */
  function ReleaseCommand(claim: Option<nat>, token: nat): Option<nat>
  {
    if claim == Some(token) then None else claim
  }

  function Apply(s: System, step: Step): System
  {
    match step
    case Begin(c) => if c in s.callers || s.claim == Some(c) then s else To(s, c, Reading)
    case ReadCache(c) => if At(s, c, Reading) then To(s, c, if s.cached then Served else Claiming) else s
    case Claim(c) =>
      if At(s, c, Claiming) then
        var (claim, won) := ClaimCommand(s.claim, c);
        To(s, c, if won then Rechecking else Reading).(claim := claim)
      else s
    case Recheck(c) => if At(s, c, Rechecking) then To(s, c, if s.cached then Releasing else Searching) else s
    case Answer(c) => if At(s, c, Searching) then To(s, c, Storing).(answered := s.answered + 1) else s
    case FailSearch(c) => if At(s, c, Searching) then To(s, c, Releasing) else s
    case Store(c) => if At(s, c, Storing) then To(s, c, Releasing).(cached := true) else s
    case LoseStore(c) => if At(s, c, Storing) then To(s, c, Releasing).(lost := s.lost + 1) else s
    case Release(c) => if At(s, c, Releasing) then To(s, c, Served).(claim := ReleaseCommand(s.claim, c)) else s
    case Crash(c) => s.(callers := s.callers - {c}, lost := s.lost + if At(s, c, Storing) then 1 else 0)
    case ExpireClaim => if s.claim.Some? then s.(claim := None, expired := s.expired + 1) else s
    case EvictCache => if s.cached then s.(cached := false, evicted := s.evicted + 1) else s
  }

  function Run(s: System, steps: seq<Step>): System
    decreases |steps|
  {
    if steps == [] then s else Run(Apply(s, steps[0]), steps[1..])
  }

  const START := System(false, None, map[], 0, 0, 0, 0)

  // ---------------------------------------------------------------- exclusion

  predicate Holding(phase: Phase)
  {
    phase.Rechecking? || phase.Searching? || phase.Storing? || phase.Releasing?
  }

  /** Until a claim expires, whoever acts on one still has it. */
  ghost predicate Exclusive(s: System)
  {
    && (s.expired == 0 ==> forall c :: c in s.callers && Holding(s.callers[c]) ==> s.claim == Some(c))
    && (forall c :: c in s.callers && s.claim == Some(c) ==> Holding(s.callers[c]))
  }

  lemma StepKeepsExclusive(s: System, step: Step)
    requires Exclusive(s)
    ensures Exclusive(Apply(s, step))
  {
  }

  lemma {:induction false} RunKeepsExclusive(s: System, steps: seq<Step>)
    requires Exclusive(s)
    ensures Exclusive(Run(s, steps))
    decreases |steps|
  {
    if steps != [] {
      StepKeepsExclusive(s, steps[0]);
      RunKeepsExclusive(Apply(s, steps[0]), steps[1..]);
    }
  }

  /** For every interleaving in which no claim has expired, at most one caller holds the claim. */
  lemma OneHolder(steps: seq<Step>, c: nat, d: nat)
    requires var s := Run(START, steps);
             s.expired == 0 && c in s.callers && d in s.callers && Holding(s.callers[c]) && Holding(s.callers[d])
    ensures c == d
  {
    RunKeepsExclusive(START, steps);
  }

  /** A caller is sent to the provider only if the cache was empty after it won the claim, and until a claim
      expires the claim is still its own. */
  lemma SentOnEmptyCache(s: System, step: Step, c: nat)
    requires Exclusive(s) && !At(s, c, Searching) && At(Apply(s, step), c, Searching)
    ensures !s.cached && At(s, c, Rechecking) && (s.expired == 0 ==> s.claim == Some(c))
  {
  }

  /** Even with expiries, a claim goes away only by its own holder's release or by expiring. */
  lemma ReleaseIsOwn(s: System, step: Step, holder: nat)
    requires s.claim == Some(holder) && Apply(s, step).claim != Some(holder)
    ensures step == ExpireClaim || (step == Release(holder) && At(s, holder, Releasing))
  {
  }

  // ---------------------------------------------------------------- how many searches

  /** Callers that may still answer although their claim has expired. */
  function Orphans(s: System): set<nat>
  {
    set c | c in s.callers && (s.callers[c].Rechecking? || s.callers[c].Searching?) && s.claim != Some(c)
  }

  /** A caller with the claim may still answer, now or once it gets the claim. */
  predicate Open(s: System)
  {
    (s.claim.Some? && At(s, s.claim.value, Searching))
      || (!s.cached && !(s.claim.Some? && At(s, s.claim.value, Storing)))
  }

  ghost predicate Bounded(s: System)
  {
    s.answered + |Orphans(s)| + (if Open(s) then 1 else 0) <= 1 + s.expired + s.evicted + s.lost
  }

  /** A caller's own step makes nobody else an orphan. */
  lemma OwnStep(s: System, step: Step, c: nat)
    requires Exclusive(s) && !step.ExpireClaim? && !step.EvictCache? && step.caller == c
    ensures Orphans(Apply(s, step)) <= Orphans(s) + {c}
  {
  }

  lemma OrphansChange(s: System, t: System, c: nat)
    requires Orphans(t) <= Orphans(s) + {c}
    ensures |Orphans(t)| <= |Orphans(s)| + 1
    ensures c in Orphans(s) || c !in Orphans(t) ==> |Orphans(t)| <= |Orphans(s)|
    ensures c in Orphans(s) && c !in Orphans(t) ==> |Orphans(t)| < |Orphans(s)|
  {
    hide Orphans;
    SubsetSize(Orphans(t) - {c}, Orphans(s) - {c});
  }

  lemma OrphanIs(s: System, c: nat)
    ensures c in Orphans(s) <==> (At(s, c, Rechecking) || At(s, c, Searching)) && s.claim != Some(c)
  {
  }

  lemma ClaimingKeepsBound(s: System, step: Step)
    requires Exclusive(s) && Bounded(s)
    requires step.Begin? || step.ReadCache? || step.Claim? || step.Recheck?
    ensures Bounded(Apply(s, step))
  {
    OwnStep(s, step, step.caller);
    var t := Apply(s, step);
    OrphanIs(s, step.caller);
    OrphanIs(t, step.caller);
    hide Orphans;
    OrphansChange(s, t, step.caller);
  }

  lemma SearchingKeepsBound(s: System, step: Step)
    requires Exclusive(s) && Bounded(s)
    requires step.Answer? || step.FailSearch?
    ensures Bounded(Apply(s, step))
  {
    OwnStep(s, step, step.caller);
    var t := Apply(s, step);
    OrphanIs(s, step.caller);
    OrphanIs(t, step.caller);
    hide Orphans;
    OrphansChange(s, t, step.caller);
  }

  lemma StoringKeepsBound(s: System, step: Step)
    requires Exclusive(s) && Bounded(s)
    requires step.Store? || step.LoseStore?
    ensures Bounded(Apply(s, step))
  {
    OwnStep(s, step, step.caller);
    var t := Apply(s, step);
    OrphanIs(s, step.caller);
    OrphanIs(t, step.caller);
    hide Orphans;
    OrphansChange(s, t, step.caller);
  }

  lemma LeavingKeepsBound(s: System, step: Step)
    requires Exclusive(s) && Bounded(s)
    requires step.Release? || step.Crash?
    ensures Bounded(Apply(s, step))
  {
    OwnStep(s, step, step.caller);
    var t := Apply(s, step);
    OrphanIs(s, step.caller);
    OrphanIs(t, step.caller);
    hide Orphans;
    OrphansChange(s, t, step.caller);
  }

  lemma ExpiryKeepsBound(s: System)
    requires Exclusive(s) && Bounded(s)
    ensures Bounded(Apply(s, ExpireClaim)) && Bounded(Apply(s, EvictCache))
  {
    assert Orphans(Apply(s, EvictCache)) == Orphans(s);
    if s.claim.Some? { OrphansChange(s, Apply(s, ExpireClaim), s.claim.value); }
  }

  lemma StepKeepsBound(s: System, step: Step)
    requires Exclusive(s) && Bounded(s)
    ensures Bounded(Apply(s, step))
  {
    hide Exclusive, Bounded, Apply;
    match step
    case ExpireClaim => ExpiryKeepsBound(s);
    case EvictCache => ExpiryKeepsBound(s);
    case Answer(_) => SearchingKeepsBound(s, step);
    case FailSearch(_) => SearchingKeepsBound(s, step);
    case Store(_) => StoringKeepsBound(s, step);
    case LoseStore(_) => StoringKeepsBound(s, step);
    case Release(_) => LeavingKeepsBound(s, step);
    case Crash(_) => LeavingKeepsBound(s, step);
    case _ => ClaimingKeepsBound(s, step);
  }

  lemma {:induction false} RunKeepsBound(s: System, steps: seq<Step>)
    requires Exclusive(s) && Bounded(s)
    ensures Bounded(Run(s, steps))
    decreases |steps|
  {
    if steps != [] {
      StepKeepsExclusive(s, steps[0]);
      StepKeepsBound(s, steps[0]);
      RunKeepsBound(Apply(s, steps[0]), steps[1..]);
    }
  }

  /** For every interleaving of any callers: one successful provider search, and at most one more for each claim that
      expired, each cache entry that lapsed and each answer that never reached the cache. */
  lemma SingleFlight(steps: seq<Step>)
    ensures var s := Run(START, steps);
            s.answered <= 1 + s.expired + s.evicted + s.lost
  {
    assert Orphans(START) == {};
    RunKeepsBound(START, steps);
  }

  /** Undisturbed, the caller that wins the claim searches once, and everybody reading later is served
      from the cache. */
  lemma OneSearchServesAll(s: System, c: nat, d: nat)
    requires !s.cached && s.claim.None? && At(s, c, Reading) && At(s, d, Reading) && c != d
    ensures var searching := Run(s, [ReadCache(c), Claim(c), Recheck(c)]);
            var done := Run(searching, [Answer(c), Store(c), Release(c)]);
            && At(searching, c, Searching) && searching.claim == Some(c)
            && done.cached && done.claim.None? && done.answered == s.answered + 1
            && At(done, c, Served) && At(Apply(done, ReadCache(d)), d, Served)
  {
    WinnerSearches(s, c);
    hide Run;
    WinnerServes(Run(s, [ReadCache(c), Claim(c), Recheck(c)]), c);
  }

  lemma WinnerSearches(s: System, c: nat)
    requires !s.cached && s.claim.None? && At(s, c, Reading)
    ensures Run(s, [ReadCache(c), Claim(c), Recheck(c)]) == s.(claim := Some(c), callers := s.callers[c := Searching])
  {
    RunThree(s, ReadCache(c), Claim(c), Recheck(c));
    hide Run;
  }

  lemma WinnerServes(s: System, c: nat)
    requires s.claim == Some(c) && At(s, c, Searching)
    ensures Run(s, [Answer(c), Store(c), Release(c)]) ==
            s.(claim := None, cached := true, answered := s.answered + 1, callers := s.callers[c := Served])
  {
    RunThree(s, Answer(c), Store(c), Release(c));
    hide Run;
  }

  lemma RunThree(s: System, a: Step, b: Step, c: Step)
    ensures Run(s, [a, b, c]) == Apply(Apply(Apply(s, a), b), c)
  {
    hide Apply;
    assert [a, b, c][1..] == [b, c] && [b, c][1..] == [c] && [c][1..] == [];
    assert Run(Apply(Apply(s, a), b), [c]) == Run(Apply(Apply(Apply(s, a), b), c), []);
  }

  // ---------------------------------------------------------------- failed searches

  /** What is stored or about to be stored was answered. */
  ghost predicate AnswersAreReal(s: System)
  {
    (s.cached || exists c :: At(s, c, Storing)) ==> s.answered > 0
  }

  lemma StepKeepsReal(s: System, step: Step)
    requires AnswersAreReal(s)
    ensures AnswersAreReal(Apply(s, step))
  {
    var t := Apply(s, step);
    if s.answered == 0 && !step.Answer? {
      assert forall c :: At(t, c, Storing) ==> At(s, c, Storing);
    }
  }

  lemma {:induction false} RunKeepsReal(s: System, steps: seq<Step>)
    requires AnswersAreReal(s)
    ensures AnswersAreReal(Run(s, steps))
    decreases |steps|
  {
    if steps != [] {
      StepKeepsReal(s, steps[0]);
      RunKeepsReal(Apply(s, steps[0]), steps[1..]);
    }
  }

  /** For every interleaving: the cache is filled only once the provider has answered. */
  lemma CachedMeansAnswered(steps: seq<Step>)
    ensures var s := Run(START, steps);
            s.cached ==> s.answered > 0
  {
    RunKeepsReal(START, steps);
  }

  /** After a search that failed the next caller is sent to the provider, and nothing was cached or answered. */
  lemma FailureIsRetried(s: System, c: nat, d: nat)
    requires !s.cached && s.claim == Some(c) && At(s, c, Searching) && At(s, d, Reading) && c != d
    ensures var failed := Run(s, [FailSearch(c), Release(c)]);
            var next := Run(failed, [ReadCache(d), Claim(d), Recheck(d)]);
            && !failed.cached && failed.claim.None? && failed.answered == s.answered && At(failed, c, Served)
            && At(next, d, Searching) && next.claim == Some(d) && next.answered == s.answered
  {
    var failed := Run(s, [FailSearch(c), Release(c)]);
    assert [FailSearch(c), Release(c)][1..] == [Release(c)] && [Release(c)][1..] == [];
    assert Run(Apply(s, FailSearch(c)), [Release(c)]) == Run(Apply(Apply(s, FailSearch(c)), Release(c)), []);
    assert failed == s.(claim := None, callers := s.callers[c := Served]);
    hide Run;
    WinnerSearches(failed, d);
  }
}
