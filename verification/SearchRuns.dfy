/** What the counters of the search claim count, and runs that reach the bound they give. */
module SearchRuns {
  import opened Wrappers
  import opened SearchClaim

  predicate Someone(s: System, t: System, before: Phase, after: Phase)
  {
    exists c :: c in s.callers && At(s, c, before) && At(t, c, after)
  }

  predicate GoneWith(s: System, t: System, phase: Phase)
  {
    exists c :: c in s.callers && At(s, c, phase) && c !in t.callers
  }

  /** Each counter counts just the steps it is named after: provider answers, claims that went away without being
      released, cache entries that went away, and answers that were neither stored nor are about to be. */
  lemma CountersAreExact(s: System, step: Step)
    ensures var t := Apply(s, step);
            && t.answered == s.answered + (if Someone(s, t, Searching, Storing) then 1 else 0)
            && t.expired == s.expired + (if s.claim.Some? && t.claim.None? && !step.Release? then 1 else 0)
            && t.evicted == s.evicted + (if s.cached && !t.cached then 1 else 0)
            && t.lost == s.lost + (if GoneWith(s, t, Storing) || (Someone(s, t, Storing, Releasing) && !step.Store?)
                                   then 1 else 0)
  {
    if step.ExpireClaim? || step.EvictCache? {
      assert forall c :: c in s.callers <==> c in Apply(s, step).callers;
    } else {
      ChangesOne(s, step);
      var t, c := Apply(s, step), step.caller;
      assert Someone(s, t, Searching, Storing) <==> At(s, c, Searching) && At(t, c, Storing);
      assert Someone(s, t, Storing, Releasing) <==> At(s, c, Storing) && At(t, c, Releasing);
      assert GoneWith(s, t, Storing) <==> At(s, c, Storing) && c !in t.callers;
      hide Someone, GoneWith;
    }
  }

  lemma ChangesOne(s: System, step: Step)
    requires !step.ExpireClaim? && !step.EvictCache?
    ensures forall c :: c != step.caller ==>
              (c in s.callers <==> c in Apply(s, step).callers)
              && (c in s.callers ==> s.callers[c] == Apply(s, step).callers[c])
  {
  }

  /** A step changes no caller but the one that takes it, and a crashed caller is gone. */
  lemma OthersGoOn(s: System, step: Step, c: nat)
    requires step.ExpireClaim? || step.EvictCache? || step.caller != c
    ensures var t := Apply(s, step);
            (c in t.callers <==> c in s.callers) && (c in s.callers ==> t.callers[c] == s.callers[c])
    ensures step.Crash? ==> step.caller !in Apply(s, step).callers
  {
  }

  // ---------------------------------------------------------------- reaching the bound

  /** Nothing is cached, nobody has the claim, and the callers from n on have not come yet. */
  ghost predicate Ready(s: System, n: nat)
  {
    !s.cached && s.claim.None? && forall c :: c in s.callers ==> c < n
  }

  lemma RunCons(s: System, step: Step, rest: seq<Step>)
    ensures Run(s, [step] + rest) == Run(Apply(s, step), rest)
  {
    assert ([step] + rest)[1..] == rest;
  }

  /** Caller n wins the claim and is answered. */
  function Answered(n: nat, rest: seq<Step>): seq<Step>
  {
    [Begin(n)] + ([ReadCache(n)] + ([Claim(n)] + ([Recheck(n)] + ([Answer(n)] + rest))))
  }

  lemma AnsweredLeads(s: System, n: nat, rest: seq<Step>)
    requires Ready(s, n)
    ensures Run(s, Answered(n, rest)) ==
            Run(s.(claim := Some(n), callers := s.callers[n := Storing], answered := s.answered + 1), rest)
  {
    var s1 := Apply(s, Begin(n));
    var s2 := Apply(s1, ReadCache(n));
    var s3 := Apply(s2, Claim(n));
    var s4 := Apply(s3, Recheck(n));
    var s5 := Apply(s4, Answer(n));
    RunCons(s, Begin(n), [ReadCache(n)] + ([Claim(n)] + ([Recheck(n)] + ([Answer(n)] + rest))));
    RunCons(s1, ReadCache(n), [Claim(n)] + ([Recheck(n)] + ([Answer(n)] + rest)));
    RunCons(s2, Claim(n), [Recheck(n)] + ([Answer(n)] + rest));
    RunCons(s3, Recheck(n), [Answer(n)] + rest);
    RunCons(s4, Answer(n), rest);
    hide Run;
    assert s4 == s.(claim := Some(n), callers := s.callers[n := Searching]) by {
      assert s1.callers == s.callers[n := Reading] && s2.callers == s.callers[n := Claiming];
      assert s3 == s.(claim := Some(n), callers := s.callers[n := Rechecking]);
    }
    assert s5 == s.(claim := Some(n), callers := s.callers[n := Storing], answered := s.answered + 1);
  }

  /** expired callers lose their claims while they store, evicted entries lapse, and lost answers never reach the cache;
      the last caller is answered, too. */
  function Script(n: nat, expired: nat, evicted: nat, lost: nat): seq<Step>
    decreases expired + evicted + lost
  {
    if expired > 0 then Answered(n, [ExpireClaim] + Script(n + 1, expired - 1, evicted, lost))
    else if evicted > 0 then
      Answered(n, [Store(n)] + ([Release(n)] + ([EvictCache] + Script(n + 1, expired, evicted - 1, lost))))
    else if lost > 0 then Answered(n, [LoseStore(n)] + ([Release(n)] + Script(n + 1, expired, evicted, lost - 1)))
    else Answered(n, [])
  }

  lemma Expires(s: System, n: nat, rest: seq<Step>) returns (t: System)
    requires Ready(s, n)
    ensures Run(s, Answered(n, [ExpireClaim] + rest)) == Run(t, rest) && Ready(t, n + 1)
    ensures t.answered == s.answered + 1 && t.expired == s.expired + 1 && t.evicted == s.evicted && t.lost == s.lost
  {
    AnsweredLeads(s, n, [ExpireClaim] + rest);
    var a := s.(claim := Some(n), callers := s.callers[n := Storing], answered := s.answered + 1);
    RunCons(a, ExpireClaim, rest);
    t := Apply(a, ExpireClaim);
    hide Run;
  }

  lemma Evicts(s: System, n: nat, rest: seq<Step>) returns (t: System)
    requires Ready(s, n)
    ensures Run(s, Answered(n, [Store(n)] + ([Release(n)] + ([EvictCache] + rest)))) == Run(t, rest) && Ready(t, n + 1)
    ensures t.answered == s.answered + 1 && t.expired == s.expired && t.evicted == s.evicted + 1 && t.lost == s.lost
  {
    AnsweredLeads(s, n, [Store(n)] + ([Release(n)] + ([EvictCache] + rest)));
    var a := s.(claim := Some(n), callers := s.callers[n := Storing], answered := s.answered + 1);
    RunCons(a, Store(n), [Release(n)] + ([EvictCache] + rest));
    RunCons(Apply(a, Store(n)), Release(n), [EvictCache] + rest);
    RunCons(Apply(Apply(a, Store(n)), Release(n)), EvictCache, rest);
    t := Apply(Apply(Apply(a, Store(n)), Release(n)), EvictCache);
    hide Run;
  }

  lemma Loses(s: System, n: nat, rest: seq<Step>) returns (t: System)
    requires Ready(s, n)
    ensures Run(s, Answered(n, [LoseStore(n)] + ([Release(n)] + rest))) == Run(t, rest) && Ready(t, n + 1)
    ensures t.answered == s.answered + 1 && t.expired == s.expired && t.evicted == s.evicted && t.lost == s.lost + 1
  {
    AnsweredLeads(s, n, [LoseStore(n)] + ([Release(n)] + rest));
    var a := s.(claim := Some(n), callers := s.callers[n := Storing], answered := s.answered + 1);
    RunCons(a, LoseStore(n), [Release(n)] + rest);
    RunCons(Apply(a, LoseStore(n)), Release(n), rest);
    t := Apply(Apply(a, LoseStore(n)), Release(n));
    hide Run;
  }

  lemma {:induction false} ScriptReaches(s: System, n: nat, expired: nat, evicted: nat, lost: nat)
    requires Ready(s, n)
    ensures var t := Run(s, Script(n, expired, evicted, lost));
            && t.expired == s.expired + expired && t.evicted == s.evicted + evicted && t.lost == s.lost + lost
            && t.answered == s.answered + 1 + expired + evicted + lost
    decreases expired + evicted + lost
  {
    hide Run, Ready, Answered, Apply;
    if expired > 0 {
      var t := Expires(s, n, Script(n + 1, expired - 1, evicted, lost));
      ScriptReaches(t, n + 1, expired - 1, evicted, lost);
    } else if evicted > 0 {
      var t := Evicts(s, n, Script(n + 1, expired, evicted - 1, lost));
      ScriptReaches(t, n + 1, expired, evicted - 1, lost);
    } else if lost > 0 {
      var t := Loses(s, n, Script(n + 1, expired, evicted, lost - 1));
      ScriptReaches(t, n + 1, expired, evicted, lost - 1);
    } else {
      AnsweredLeads(s, n, []);
      RunNothing(s.(claim := Some(n), callers := s.callers[n := Storing], answered := s.answered + 1));
    }
  }

  lemma RunNothing(s: System)
    ensures Run(s, []) == s
  {
  }

  /** The bound on provider searches is exact: whatever the number of expired claims, lapsed cache entries and lost
      answers, there is a run with one successful search more than these. */
  lemma BoundIsReached(expired: nat, evicted: nat, lost: nat)
    ensures exists steps :: var s := Run(START, steps);
              && s.expired == expired && s.evicted == evicted && s.lost == lost
              && s.answered == 1 + s.expired + s.evicted + s.lost
  {
    ScriptReaches(START, 0, expired, evicted, lost);
    var s := Run(START, Script(0, expired, evicted, lost));
    assert s.expired == expired;
  }
}
