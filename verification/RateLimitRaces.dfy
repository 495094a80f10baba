/** For which policies the rate limits hold when the commands of concurrent calls interleave. */
module RateLimitRaces {
  import opened Wrappers
  import opened RateLimit

  function Cap(limit: int): int { if limit < 0 then 0 else limit }

  ghost predicate IdentityBoundHolds(p: Policy)
  {
    forall steps: seq<Step>, identity: nat, t: int :: |InWindow(p, Run(p, START, steps), identity, t)| <= Cap(p.limit)
  }

  ghost predicate AddressBoundHolds(p: Policy)
  {
    forall steps: seq<Step>, ip: nat, t: int :: |InIpWindow(p, Run(p, START, steps), ip, t)| <= Cap(p.ipLimit)
  }

  // ---------------------------------------------------------------- policies that allow nothing

  /** No call gets past its counts. */
  ghost predicate NothingCounts(s: System)
  {
    forall c :: c in s.calls ==>
      s.calls[c].stage.Fresh? || s.calls[c].stage.IdentityCounted? || s.calls[c].stage.Refused?
  }

  lemma {:induction false} NothingPasses(p: Policy, s: System, steps: seq<Step>)
    requires NothingCounts(s)
    requires p.ipLimit <= 0 || (p.limit <= 0 && forall c :: c in s.calls ==> !s.calls[c].stage.IdentityCounted?)
    ensures NothingCounts(Run(p, s, steps))
    decreases |steps|
  {
    if steps != [] { NothingPasses(p, Apply(p, s, steps[0]), steps[1..]); }
  }

  lemma NothingIsAllowed(p: Policy, steps: seq<Step>, key: nat, t: int)
    requires p.ipLimit <= 0 || p.limit <= 0
    ensures InWindow(p, Run(p, START, steps), key, t) == {} == InIpWindow(p, Run(p, START, steps), key, t)
  {
    NothingPasses(p, START, steps);
    var s := Run(p, START, steps);
    assert forall c :: c in s.calls ==> !s.calls[c].stage.Allowed?;
    assert forall c :: c !in InWindow(p, s, key, t) && c !in InIpWindow(p, s, key, t);
  }

  // ---------------------------------------------------------------- a run that passes a limit

  /** What a call that passes its next check is at afterwards. */
  function Next(p: Policy, stage: Stage, now: int): Stage
  {
    match stage
    case Fresh => if p.limit == 1 then IpCounted else IdentityCounted
    case IdentityCounted => IpCounted
    case IpCounted => IdentitySet(now)
    case IdentitySet(at) => Allowed(at)
    case _ => stage
  }

  /** Calls 0..n-1 of one identity from different addresses, or of different identities from one address: the first k
      are a command further than the rest, and nothing is set before everybody has counted. */
  ghost predicate Lined(p: Policy, s: System, n: nat, one: bool, stage: Stage, now: int, k: int)
  {
    && (forall c :: c in s.calls <==> 0 <= c < n)
    && (forall c :: 0 <= c < n ==> s.calls[c] == CallAt(p, one, stage, now, k, c))
    && (stage.Fresh? || stage.IdentityCounted? ==> s.identities == map[] && s.ips == map[])
    && (stage.IpCounted? && !one ==> forall identity :: identity in s.identities ==> identity < k)
  }

  function CallAt(p: Policy, one: bool, stage: Stage, now: int, k: int, c: nat): Call
  {
    Call(if one then 0 else c, if one then c else 0, if c < k then Next(p, stage, now) else stage)
  }

  predicate Passable(p: Policy, one: bool)
  {
    p.limit >= 1 && p.ipLimit >= 1 && (one ==> p.limit >= 2)
  }

  lemma NoFields(hashes: map<nat, Fields>, key: nat, now: int)
    requires key !in hashes
    ensures FieldsOf(hashes, key) == map[] && Live(FieldsOf(hashes, key), now) == {}
            && Count(FieldsOf(hashes, key), now, 0) == 0
  {
  }

  lemma CommandMoves(p: Policy, s: System, n: nat, one: bool, stage: Stage, now: int, k: nat)
    requires Passable(p, one) && k < n && Lined(p, s, n, one, stage, now, k)
    requires !stage.Allowed? && !stage.Refused? && (stage.IdentityCounted? ==> p.limit != 1)
    ensures var t := Execute(p, s, k, now, 0);
            t.calls == s.calls[k := s.calls[k].(stage := Next(p, stage, now))]
            && (stage.Fresh? || stage.IdentityCounted? ==> t.identities == s.identities && t.ips == s.ips)
            && (stage.IpCounted? ==> t.identities.Keys == s.identities.Keys + {s.calls[k].identity})
  {
    var call := s.calls[k];
    assert call == CallAt(p, one, stage, now, k, k) && call.stage == stage;
    if stage.Fresh? || stage.IdentityCounted? {
      NoFields(s.identities, call.identity, now);
      NoFields(s.ips, call.ip, now);
      hide Count, Live;
    } else if stage.IpCounted? && !one {
      NoFields(s.identities, call.identity, now);
    }
  }

  lemma CommandKeepsLine(p: Policy, s: System, n: nat, one: bool, stage: Stage, now: int, k: nat)
    requires Passable(p, one) && k < n && Lined(p, s, n, one, stage, now, k)
    requires !stage.Allowed? && !stage.Refused? && (stage.IdentityCounted? ==> p.limit != 1)
    ensures Lined(p, Execute(p, s, k, now, 0), n, one, stage, now, k + 1)
  {
    CommandMoves(p, s, n, one, stage, now, k);
    var t := Execute(p, s, k, now, 0);
    hide Execute;
    forall c | 0 <= c < n ensures t.calls[c] == CallAt(p, one, stage, now, k + 1, c) {
      assert s.calls[c] == CallAt(p, one, stage, now, k, c);
    }
  }

  /** The calls from k on execute their next command. */
  function Round(n: nat, now: int, k: nat): seq<Step>
    decreases if k < n then n - k else 0
  {
    if k >= n then [] else [Command(k, now, 0)] + Round(n, now, k + 1)
  }

  lemma RunCons(p: Policy, s: System, step: Step, rest: seq<Step>)
    ensures Run(p, s, [step] + rest) == Run(p, Apply(p, s, step), rest)
  {
    assert ([step] + rest)[1..] == rest;
  }

  lemma {:induction false} RunConcat(p: Policy, s: System, a: seq<Step>, b: seq<Step>)
    ensures Run(p, s, a + b) == Run(p, Run(p, s, a), b)
    decreases |a|
  {
    if a == [] {
      assert a + b == b;
    } else {
      assert (a + b)[1..] == a[1..] + b;
      RunConcat(p, Apply(p, s, a[0]), a[1..], b);
    }
  }

  lemma {:induction false} RoundMoves(p: Policy, s: System, n: nat, one: bool, stage: Stage, now: int, k: nat)
    requires Passable(p, one) && k <= n && Lined(p, s, n, one, stage, now, k)
    requires !stage.Allowed? && !stage.Refused? && (stage.IdentityCounted? ==> p.limit != 1)
    ensures Lined(p, Run(p, s, Round(n, now, k)), n, one, Next(p, stage, now), now, 0)
    decreases n - k
  {
    if k < n {
      CommandKeepsLine(p, s, n, one, stage, now, k);
      RunCons(p, s, Command(k, now, 0), Round(n, now, k + 1));
      hide Lined, Execute;
      RoundMoves(p, Execute(p, s, k, now, 0), n, one, stage, now, k + 1);
    } else {
      assert Run(p, s, Round(n, now, k)) == s;
      forall c | 0 <= c < n ensures s.calls[c] == CallAt(p, one, Next(p, stage, now), now, 0, c) {
        assert s.calls[c] == CallAt(p, one, stage, now, n, c);
      }
    }
  }

  function Arrivals(n: nat, one: bool): seq<Step>
  {
    if n == 0 then [] else Arrivals(n - 1, one) + [Arrive(n - 1, if one then 0 else n - 1, if one then n - 1 else 0)]
  }

  lemma {:induction false} ArrivalsLineUp(p: Policy, n: nat, one: bool, now: int)
    ensures Lined(p, Run(p, START, Arrivals(n, one)), n, one, Fresh, now, 0)
  {
    if n > 0 {
      var last := Arrive(n - 1, if one then 0 else n - 1, if one then n - 1 else 0);
      ArrivalsLineUp(p, n - 1, one, now);
      RunConcat(p, START, Arrivals(n - 1, one), [last]);
      var s := Run(p, START, Arrivals(n - 1, one));
      RunCons(p, s, last, []);
      assert [last] + [] == [last];
      hide Run;
      var t := Apply(p, s, last);
      forall c | 0 <= c < n ensures t.calls[c] == CallAt(p, one, Fresh, now, 0, c) {
        if c < n - 1 { assert s.calls[c] == CallAt(p, one, Fresh, now, 0, c); }
      }
    }
  }

  /** Everybody counts before anybody sets. */
  function Race(p: Policy, n: nat, one: bool, now: int): seq<Step>
  {
    var round := Round(n, now, 0);
    Arrivals(n, one) + (if p.limit == 1 then [] else round) + round + round + round
  }

  /** All n calls of such a race are allowed at the same moment. */
  lemma RaceAllowsAll(p: Policy, n: nat, one: bool, now: int)
    requires Passable(p, one)
    ensures Lined(p, Run(p, START, Race(p, n, one, now)), n, one, Allowed(now), now, 0)
  {
    var round := Round(n, now, 0);
    var first := if p.limit == 1 then [] else round;
    ArrivalsLineUp(p, n, one, now);
    var s0 := Run(p, START, Arrivals(n, one));
    var s1 := Run(p, s0, first);
    var s2 := Run(p, s1, round);
    var s3 := Run(p, s2, round);
    RunConcat(p, START, Arrivals(n, one), first);
    RunConcat(p, START, Arrivals(n, one) + first, round);
    RunConcat(p, START, Arrivals(n, one) + first + round, round);
    RunConcat(p, START, Arrivals(n, one) + first + round + round, round);
    if p.limit == 1 {
      assert s1 == s0;
    } else {
      RoundMoves(p, s0, n, one, Fresh, now, 0);
    }
    hide Run, Lined;
    RoundMoves(p, s1, n, one, if p.limit == 1 then Fresh else IdentityCounted, now, 0);
    RoundMoves(p, s2, n, one, IpCounted, now, 0);
    RoundMoves(p, s3, n, one, IdentitySet(now), now, 0);
  }

  lemma {:induction false} FullWindow(window: set<int>, n: nat)
    requires forall c :: 0 <= c < n ==> c in window
    ensures |window| >= n
    decreases n
  {
    if n > 0 { FullWindow(window - {n - 1}, n - 1); }
  }

  lemma LinedFillsWindow(p: Policy, s: System, n: nat, one: bool, now: int)
    requires Lined(p, s, n, one, Allowed(now), now, 0)
    ensures |if one then InWindow(p, s, 0, now) else InIpWindow(p, s, 0, now)| >= n
  {
    var window := if one then InWindow(p, s, 0, now) else InIpWindow(p, s, 0, now);
    forall c | 0 <= c < n ensures c in window {
      assert s.calls[c] == CallAt(p, one, Allowed(now), now, 0, c);
    }
    FullWindow(window, n);
  }

  // ---------------------------------------------------------------- the exact conditions

  lemma Pick<T>(s: set<T>) returns (x: T)
    requires s != {}
    ensures x in s
  {
    x :| x in s;
  }

  lemma OneAtMost(p: Policy, steps: seq<Step>, identity: nat, t: int)
    requires p.limit == 1
    ensures |InWindow(p, Run(p, START, steps), identity, t)| <= 1
  {
    var window := InWindow(p, Run(p, START, steps), identity, t);
    if |window| > 0 {
      var c := Pick(window);
      forall d | d in window ensures d == c {
        assert c in InWindow(p, Run(p, START, steps), identity, t)
               && d in InWindow(p, Run(p, START, steps), identity, t);
        LimitOneHoldsInterleaved(p, steps, c, d, t);
      }
      assert window == {c};
    }
  }

  /** However the commands of concurrent calls interleave, no window holds more allowed calls of an identity than the
      limit: this holds exactly for limits up to one, and where nothing is allowed at all. */
  lemma IdentityBoundIff(p: Policy)
    ensures IdentityBoundHolds(p) <==> p.limit <= 1 || p.ipLimit <= 0
  {
    if p.limit <= 1 || p.ipLimit <= 0 {
      forall steps: seq<Step>, identity: nat, t: int
        ensures |InWindow(p, Run(p, START, steps), identity, t)| <= Cap(p.limit)
      {
        if p.limit == 1 { OneAtMost(p, steps, identity, t); } else { NothingIsAllowed(p, steps, identity, t); }
      }
    } else {
      RaceAllowsAll(p, p.limit + 1, true, 0);
      LinedFillsWindow(p, Run(p, START, Race(p, p.limit + 1, true, 0)), p.limit + 1, true, 0);
    }
  }

  /** The same for an address: exactly where nothing is allowed at all. */
  lemma AddressBoundIff(p: Policy)
    ensures AddressBoundHolds(p) <==> p.limit <= 0 || p.ipLimit <= 0
  {
    if p.limit <= 0 || p.ipLimit <= 0 {
      forall steps: seq<Step>, ip: nat, t: int
        ensures |InIpWindow(p, Run(p, START, steps), ip, t)| <= Cap(p.ipLimit)
      {
        NothingIsAllowed(p, steps, ip, t);
      }
    } else {
      RaceAllowsAll(p, p.ipLimit + 1, false, 0);
      LinedFillsWindow(p, Run(p, START, Race(p, p.ipLimit + 1, false, 0)), p.ipLimit + 1, false, 0);
    }
  }
}
