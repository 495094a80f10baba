/** The sliding-window rate limiter of one route: expiring hash fields per identity and per IP address. */
module RateLimit {
  import opened Wrappers

  /** rate in milliseconds. */
  datatype Policy = Policy(limit: int, ipLimit: int, rate: int)
  {
    function Window(): int { if rate < 1 then 1 else rate }
  }

  /** A hash: its fields and when they expire. Calls add a field under their own number, single claims REQUEST. */
  type Fields = map<int, int>

  const REQUEST := -1

  function FieldsOf(hashes: map<nat, Fields>, key: nat): Fields
  {
    if key in hashes then hashes[key] else map[]
  }

  function Live(fields: Fields, now: int): set<int>
  {
    set member | member in fields && fields[member] > now
  }

  /** HLEN; lag counts expired fields that are not removed yet. */
  function Count(fields: Fields, now: int, lag: nat): nat
  {
    |Live(fields, now)| + lag
  }

  /** HSETEX. */
  function SetField(hashes: map<nat, Fields>, key: nat, member: int, expires: int): map<nat, Fields>
  {
    hashes[key := FieldsOf(hashes, key)[member := expires]]
  }

  /** HSETEX FNX on the one field of a single claim. */
  function ClaimField(hashes: map<nat, Fields>, key: nat, now: int, expires: int): Option<map<nat, Fields>>
  {
    if REQUEST in Live(FieldsOf(hashes, key), now) then None else Some(SetField(hashes, key, REQUEST, expires))
  }

  // ---------------------------------------------------------------- commands of interleaved calls

  datatype Stage = Fresh | IdentityCounted | IpCounted | IdentitySet(at: int) | Allowed(at: int) | Refused

  datatype Call = Call(identity: nat, ip: nat, stage: Stage)

  datatype System = System(identities: map<nat, Fields>, ips: map<nat, Fields>, calls: map<int, Call>)

  function Move(s: System, c: int, stage: Stage): System
    requires c in s.calls
  {
    s.(calls := s.calls[c := s.calls[c].(stage := stage)])
  }

  /** The next Redis command of a call. */
  function Execute(p: Policy, s: System, c: int, now: int, lag: nat): System
  {
    if c !in s.calls then s
    else
      var call := s.calls[c];
      match call.stage
      case Fresh =>
        if p.limit == 1 then CountIp(p, s, c, now, lag)
        else if Count(FieldsOf(s.identities, call.identity), now, lag) >= p.limit then Move(s, c, Refused)
        else Move(s, c, IdentityCounted)
      case IdentityCounted => CountIp(p, s, c, now, lag)
      case IpCounted =>
        if p.limit == 1 then
          match ClaimField(s.identities, call.identity, now, now + p.Window())
          case None => Move(s, c, Refused)
          case Some(claimed) => Move(s, c, IdentitySet(now)).(identities := claimed)
        else
          Move(s, c, IdentitySet(now)).(identities := SetField(s.identities, call.identity, c, now + p.Window()))
      case IdentitySet(at) =>
        Move(s, c, Allowed(at)).(ips := SetField(s.ips, call.ip, c, now + p.Window()))
      case _ => s
  }

  function CountIp(p: Policy, s: System, c: int, now: int, lag: nat): System
    requires c in s.calls
  {
    if Count(FieldsOf(s.ips, s.calls[c].ip), now, lag) >= p.ipLimit then Move(s, c, Refused) else Move(s, c, IpCounted)
  }

  // ---------------------------------------------------------------- calls as a whole

  datatype Request = Request(identity: nat, ip: nat, now: int, identityLag: nat, ipLag: nat)

  predicate Passes(p: Policy, identities: map<nat, Fields>, ips: map<nat, Fields>, r: Request)
  {
    var own := FieldsOf(identities, r.identity);
    && (if p.limit == 1 then REQUEST !in Live(own, r.now) else Count(own, r.now, r.identityLag) < p.limit)
    && Count(FieldsOf(ips, r.ip), r.now, r.ipLag) < p.ipLimit
  }

  function Member(p: Policy, c: int): int { if p.limit == 1 then REQUEST else c }

  /** One check that nothing interrupts. */
  function Check(p: Policy, s: System, c: int, r: Request): System
  {
    if Passes(p, s.identities, s.ips, r) then
      System(SetField(s.identities, r.identity, Member(p, c), r.now + p.Window()),
             SetField(s.ips, r.ip, c, r.now + p.Window()),
             s.calls[c := Call(r.identity, r.ip, Allowed(r.now))])
    else s.(calls := s.calls[c := Call(r.identity, r.ip, Refused)])
  }

  /** A call's commands at one moment, from its first count on. */
  function Commands(p: Policy, s: System, c: int, r: Request): System
  {
    var counted := if p.limit == 1 then s else Execute(p, s, c, r.now, r.identityLag);
    Execute(p, Execute(p, Execute(p, counted, c, r.now, r.ipLag), c, r.now, 0), c, r.now, 0)
  }

  lemma RefusedStays(p: Policy, s: System, c: int, now: int, lag: nat)
    requires c in s.calls && s.calls[c].stage.Refused?
    ensures Execute(p, s, c, now, lag) == s
  {
  }

  lemma CountedCommands(p: Policy, s: System, c: int, r: Request)
    requires c in s.calls && s.calls[c] == Call(r.identity, r.ip, if p.limit == 1 then Fresh else IdentityCounted)
    requires p.limit != 1 ==> Count(FieldsOf(s.identities, r.identity), r.now, r.identityLag) < p.limit
    ensures Execute(p, Execute(p, Execute(p, s, c, r.now, r.ipLag), c, r.now, 0), c, r.now, 0) == Check(p, s, c, r)
  {
    hide Count, SetField, Live;
    var s1 := Execute(p, s, c, r.now, r.ipLag);
    if Count(FieldsOf(s.ips, r.ip), r.now, r.ipLag) >= p.ipLimit {
      assert s1 == Move(s, c, Refused);
    } else {
      assert s1 == Move(s, c, IpCounted);
      var s2 := Execute(p, s1, c, r.now, 0);
      if p.limit == 1 && REQUEST in Live(FieldsOf(s.identities, r.identity), r.now) {
        assert s2 == Move(s, c, Refused);
      } else {
        assert s2 == Move(s, c, IdentitySet(r.now)).(identities :=
          SetField(s.identities, r.identity, Member(p, c), r.now + p.Window()));
        assert Execute(p, s2, c, r.now, 0).calls == s.calls[c := Call(r.identity, r.ip, Allowed(r.now))];
      }
    }
  }

  /** A call whose commands nothing interrupts is a check. */
  lemma ChecksAreCommands(p: Policy, s: System, c: int, r: Request)
    requires c !in s.calls
    ensures var arrived := s.(calls := s.calls[c := Call(r.identity, r.ip, Fresh)]);
            Commands(p, arrived, c, r) == Check(p, s, c, r)
  {
    hide Count, SetField, Live, ClaimField, CountIp;
    var arrived := s.(calls := s.calls[c := Call(r.identity, r.ip, Fresh)]);
    var counted := Execute(p, arrived, c, r.now, r.identityLag);
    if p.limit == 1 {
      CountedCommands(p, arrived, c, r);
    } else if Count(FieldsOf(s.identities, r.identity), r.now, r.identityLag) < p.limit {
      assert counted == Move(arrived, c, IdentityCounted);
      CountedCommands(p, counted, c, r);
      assert Check(p, counted, c, r) == Check(p, s, c, r);
    } else {
      hide CountIp, Passes;
      assert counted == Move(arrived, c, Refused);
      RefusedStays(p, counted, c, r.now, r.ipLag);
      RefusedStays(p, counted, c, r.now, 0);
      NotPassed(p, s, c, r);
    }
  }

  lemma NotPassed(p: Policy, s: System, c: int, r: Request)
    requires p.limit != 1 && Count(FieldsOf(s.identities, r.identity), r.now, r.identityLag) >= p.limit
    ensures Check(p, s, c, r) == s.(calls := s.calls[c := Call(r.identity, r.ip, Refused)])
  {
  }

  /** The hashes of one route, changed in place. */
  class RateLimiter {
    const policy: Policy
    var identities: map<nat, Fields>
    var ips: map<nat, Fields>

    constructor (policy: Policy)
      ensures this.policy == policy && identities == map[] && ips == map[]
    {
      this.policy, identities, ips := policy, map[], map[];
    }

    /** CheckRateLimit, with the member it draws. */
    method CheckRateLimit(r: Request, member: int) returns (allowed: bool)
      modifies this
      ensures allowed == Passes(policy, old(identities), old(ips), r)
      ensures !allowed ==> identities == old(identities) && ips == old(ips)
      ensures allowed ==>
                identities == SetField(old(identities), r.identity, Member(policy, member), r.now + policy.Window()) &&
                ips == SetField(old(ips), r.ip, member, r.now + policy.Window())
    {
      if policy.limit != 1 {
        var identityCount := Count(FieldsOf(identities, r.identity), r.now, r.identityLag);
        if identityCount >= policy.limit { return false; }
      }
      var ipCount := Count(FieldsOf(ips, r.ip), r.now, r.ipLag);
      if ipCount >= policy.ipLimit { return false; }
      if policy.limit == 1 {
        var claimed := ClaimField(identities, r.identity, r.now, r.now + policy.Window());
        if claimed.None? { return false; }
        identities := claimed.value;
      } else {
        identities := SetField(identities, r.identity, member, r.now + policy.Window());
      }
      ips := SetField(ips, r.ip, member, r.now + policy.Window());
      allowed := true;
    }
  }

  // ---------------------------------------------------------------- windows

  /** The allowed calls of an identity, or of an address, in the window that starts at t. */
  function InWindow(p: Policy, s: System, identity: nat, t: int): set<int>
  {
    set c | c in s.calls && s.calls[c].stage.Allowed? && s.calls[c].identity == identity
            && t <= s.calls[c].stage.at < t + p.Window()
  }

  function InIpWindow(p: Policy, s: System, ip: nat, t: int): set<int>
  {
    set c | c in s.calls && s.calls[c].stage.Allowed? && s.calls[c].ip == ip
            && t <= s.calls[c].stage.at < t + p.Window()
  }

  /** Every allowed call's fields are there, for a window's length. */
  ghost predicate Recorded(p: Policy, s: System)
  {
    forall c :: c in s.calls && s.calls[c].stage.Allowed? ==>
      HasFields(p, FieldsOf(s.identities, s.calls[c].identity), FieldsOf(s.ips, s.calls[c].ip), c, s.calls[c].stage.at)
  }

  predicate HasFields(p: Policy, own: Fields, address: Fields, c: int, at: int)
  {
    && c in address && address[c] == at + p.Window()
    && (p.limit != 1 ==> c in own && own[c] == at + p.Window())
    && (p.limit == 1 ==> REQUEST in own && own[REQUEST] >= at + p.Window())
  }

  ghost predicate WindowsHold(p: Policy, s: System)
  {
    && (forall identity: nat, t: int :: |InWindow(p, s, identity, t)| <= if p.limit < 0 then 0 else p.limit)
    && (forall ip: nat, t: int :: |InIpWindow(p, s, ip, t)| <= if p.ipLimit < 0 then 0 else p.ipLimit)
  }

  ghost predicate Inv(p: Policy, s: System)
  {
    Recorded(p, s) && WindowsHold(p, s)
  }

  lemma CheckKeepsRecorded(p: Policy, s: System, c: int, r: Request)
    requires Recorded(p, s) && c !in s.calls
    ensures Recorded(p, Check(p, s, c, r))
  {
  }

  /** Every earlier call of the window is still counted when the window's last call checks. */
  lemma WindowIsLive(p: Policy, s: System, identity: nat, ip: nat, t: int, now: int)
    requires Recorded(p, s) && now < t + p.Window()
    ensures p.limit != 1 ==> InWindow(p, s, identity, t) <= Live(FieldsOf(s.identities, identity), now)
    ensures p.limit == 1 && InWindow(p, s, identity, t) != {} ==> REQUEST in Live(FieldsOf(s.identities, identity), now)
    ensures InIpWindow(p, s, ip, t) <= Live(FieldsOf(s.ips, ip), now)
  {
    forall c | c in InWindow(p, s, identity, t)
      ensures (if p.limit == 1 then REQUEST else c) in Live(FieldsOf(s.identities, identity), now)
    {
      assert HasFields(p, FieldsOf(s.identities, identity), FieldsOf(s.ips, s.calls[c].ip), c, s.calls[c].stage.at);
    }
    forall c | c in InIpWindow(p, s, ip, t) ensures c in Live(FieldsOf(s.ips, ip), now)
    {
      assert HasFields(p, FieldsOf(s.identities, s.calls[c].identity), FieldsOf(s.ips, ip), c, s.calls[c].stage.at);
    }
  }

  /** A check adds its own call to the windows it falls into, and only if it passes. */
  lemma WindowsAfter(p: Policy, s: System, c: int, r: Request, identity: nat, ip: nat, t: int)
    requires c !in s.calls
    ensures InWindow(p, Check(p, s, c, r), identity, t) ==
            InWindow(p, s, identity, t) +
              if Passes(p, s.identities, s.ips, r) && identity == r.identity && t <= r.now < t + p.Window()
              then {c}
              else {}
    ensures InIpWindow(p, Check(p, s, c, r), ip, t) ==
            InIpWindow(p, s, ip, t) +
              if Passes(p, s.identities, s.ips, r) && ip == r.ip && t <= r.now < t + p.Window() then {c} else {}
  {
    hide Passes;
  }

  lemma CheckKeepsIdentityWindow(p: Policy, s: System, c: int, r: Request, identity: nat, t: int)
    requires Inv(p, s) && c !in s.calls
    ensures |InWindow(p, Check(p, s, c, r), identity, t)| <= if p.limit < 0 then 0 else p.limit
  {
    var earlier := InWindow(p, s, identity, t);
    WindowsAfter(p, s, c, r, identity, r.ip, t);
    hide InWindow, Recorded, Check, Live;
    assert |earlier| <= if p.limit < 0 then 0 else p.limit;
    if Passes(p, s.identities, s.ips, r) && identity == r.identity && t <= r.now < t + p.Window() {
      WindowIsLive(p, s, identity, r.ip, t, r.now);
      if p.limit == 1 {
        assert earlier == {};
      } else {
        SubsetSize(earlier, Live(FieldsOf(s.identities, identity), r.now));
      }
    }
  }

  lemma CheckKeepsIpWindow(p: Policy, s: System, c: int, r: Request, ip: nat, t: int)
    requires Inv(p, s) && c !in s.calls
    ensures |InIpWindow(p, Check(p, s, c, r), ip, t)| <= if p.ipLimit < 0 then 0 else p.ipLimit
  {
    var earlier := InIpWindow(p, s, ip, t);
    WindowsAfter(p, s, c, r, r.identity, ip, t);
    hide InIpWindow, Recorded, Check, Live;
    assert |earlier| <= if p.ipLimit < 0 then 0 else p.ipLimit;
    if Passes(p, s.identities, s.ips, r) && ip == r.ip && t <= r.now < t + p.Window() {
      WindowIsLive(p, s, r.identity, ip, t, r.now);
      SubsetSize(earlier, Live(FieldsOf(s.ips, ip), r.now));
    }
  }

  lemma CheckKeeps(p: Policy, s: System, c: int, r: Request)
    requires Inv(p, s) && c !in s.calls
    ensures Inv(p, Check(p, s, c, r))
  {
    CheckKeepsRecorded(p, s, c, r);
    var after := Check(p, s, c, r);
    hide Recorded, Check, InWindow, InIpWindow;
    forall identity: nat, t: int
      ensures |InWindow(p, after, identity, t)| <= if p.limit < 0 then 0 else p.limit
    {
      CheckKeepsIdentityWindow(p, s, c, r, identity, t);
    }
    forall ip: nat, t: int
      ensures |InIpWindow(p, after, ip, t)| <= if p.ipLimit < 0 then 0 else p.ipLimit
    {
      CheckKeepsIpWindow(p, s, c, r, ip, t);
    }
  }

  /** Calls are numbered in the order of their checks. */
  function CheckAll(p: Policy, s: System, first: int, requests: seq<Request>): System
    decreases |requests|
  {
    if requests == [] then s else CheckAll(p, Check(p, s, first, requests[0]), first + 1, requests[1..])
  }

  lemma {:induction false} CheckAllKeeps(p: Policy, s: System, first: int, requests: seq<Request>)
    requires Inv(p, s) && forall c :: c in s.calls ==> c < first
    ensures Inv(p, CheckAll(p, s, first, requests))
    decreases |requests|
  {
    if requests != [] {
      CheckKeeps(p, s, first, requests[0]);
      CheckAllKeeps(p, Check(p, s, first, requests[0]), first + 1, requests[1..]);
    }
  }

  const START := System(map[], map[], map[])

  /** For every sequence of whole checks, however the identities and addresses mix: no window of the route's length
      holds more allowed calls of an identity than the limit, nor of an address than its limit. */
  lemma WindowBound(p: Policy, requests: seq<Request>, identity: nat, ip: nat, t: int)
    ensures var s := CheckAll(p, START, 0, requests);
            && |InWindow(p, s, identity, t)| <= (if p.limit < 0 then 0 else p.limit)
            && |InIpWindow(p, s, ip, t)| <= (if p.ipLimit < 0 then 0 else p.ipLimit)
  {
    assert forall i: nat, u: int :: InWindow(p, START, i, u) == {} == InIpWindow(p, START, i, u);
    CheckAllKeeps(p, START, 0, requests);
  }

  predicate AllowedBetween(call: Call, from: int, to: int)
  {
    call.stage.Allowed? && from <= call.stage.at < to
  }

  /** In particular no rate milliseconds hold more than the limits. */
  lemma PeriodBound(p: Policy, requests: seq<Request>, identity: nat, ip: nat, t: int)
    requires p.rate >= 1
    ensures var calls := CheckAll(p, START, 0, requests).calls;
            && |set c | c in calls && AllowedBetween(calls[c], t, t + p.rate) && calls[c].identity == identity|
               <= (if p.limit < 0 then 0 else p.limit)
            && |set c | c in calls && AllowedBetween(calls[c], t, t + p.rate) && calls[c].ip == ip|
               <= (if p.ipLimit < 0 then 0 else p.ipLimit)
  {
    WindowBound(p, requests, identity, ip, t);
    var s := CheckAll(p, START, 0, requests);
    var calls := s.calls;
    assert p.Window() == p.rate;
    var own := set c | c in calls && AllowedBetween(calls[c], t, t + p.rate) && calls[c].identity == identity;
    var address := set c | c in calls && AllowedBetween(calls[c], t, t + p.rate) && calls[c].ip == ip;
    assert forall c :: c in own <==> c in InWindow(p, s, identity, t);
    assert forall c :: c in address <==> c in InIpWindow(p, s, ip, t);
    assert own == InWindow(p, s, identity, t) && address == InIpWindow(p, s, ip, t);
  }

  // ---------------------------------------------------------------- refusals

  /** Every field belongs to an allowed call of its hash. */
  ghost predicate Explained(p: Policy, s: System)
  {
    && (forall ip, c :: ip in s.ips && c in s.ips[ip] ==>
          c in s.calls && s.calls[c].stage.Allowed? && s.calls[c].ip == ip
            && s.ips[ip][c] == s.calls[c].stage.at + p.Window())
    && (forall identity, member :: identity in s.identities && member in s.identities[identity] ==>
          exists c :: IsClaim(p, s, identity, member, c))
  }

  ghost predicate IsClaim(p: Policy, s: System, identity: nat, member: int, c: int)
    requires identity in s.identities && member in s.identities[identity]
  {
    && c in s.calls && s.calls[c].stage.Allowed? && s.calls[c].identity == identity && member == Member(p, c)
    && s.identities[identity][member] == s.calls[c].stage.at + p.Window()
  }

  lemma CheckKeepsExplained(p: Policy, s: System, c: int, r: Request)
    requires Explained(p, s) && c !in s.calls
    ensures Explained(p, Check(p, s, c, r))
  {
    hide Passes, Member;
    var t := Check(p, s, c, r);
    forall identity, member | identity in t.identities && member in t.identities[identity]
      ensures exists d :: IsClaim(p, t, identity, member, d)
    {
      if Passes(p, s.identities, s.ips, r) && identity == r.identity && member == Member(p, c) {
        assert IsClaim(p, t, identity, member, c);
      } else {
        assert identity in s.identities && member in s.identities[identity];
        var d :| IsClaim(p, s, identity, member, d);
        assert IsClaim(p, t, identity, member, d);
      }
    }
  }

  predicate NotLater(s: System, now: int)
  {
    forall c :: c in s.calls && s.calls[c].stage.Allowed? ==> s.calls[c].stage.at <= now
  }

  /** Calls come one after the other in time, and Redis has removed every expired field when it counts. */
  predicate InTime(requests: seq<Request>)
  {
    && (forall i, j :: 0 <= i < j < |requests| ==> requests[i].now <= requests[j].now)
    && forall i :: 0 <= i < |requests| ==> requests[i].identityLag == 0 && requests[i].ipLag == 0
  }

  lemma {:induction false} CheckAllExplains(p: Policy, s: System, first: int, requests: seq<Request>, now: int)
    requires Explained(p, s) && (forall c :: c in s.calls ==> c < first) && NotLater(s, now)
    requires forall i :: 0 <= i < |requests| ==> requests[i].now <= now
    ensures Explained(p, CheckAll(p, s, first, requests)) && NotLater(CheckAll(p, s, first, requests), now)
    decreases |requests|
  {
    if requests != [] {
      CheckKeepsExplained(p, s, first, requests[0]);
      CheckAllExplains(p, Check(p, s, first, requests[0]), first + 1, requests[1..], now);
    }
  }

  lemma LiveIsInWindow(p: Policy, s: System, identity: nat, ip: nat, now: int)
    requires Explained(p, s) && NotLater(s, now)
    ensures Live(FieldsOf(s.ips, ip), now) <= InIpWindow(p, s, ip, now - p.Window() + 1)
    ensures p.limit != 1 ==>
              Live(FieldsOf(s.identities, identity), now) <= InWindow(p, s, identity, now - p.Window() + 1)
    ensures p.limit == 1 && REQUEST in Live(FieldsOf(s.identities, identity), now) ==>
              InWindow(p, s, identity, now - p.Window() + 1) != {}
  {
    forall member | member in Live(FieldsOf(s.identities, identity), now)
      ensures exists c :: c in InWindow(p, s, identity, now - p.Window() + 1) && member == Member(p, c)
    {
      var c :| IsClaim(p, s, identity, member, c);
      assert c in InWindow(p, s, identity, now - p.Window() + 1);
    }
    forall c | c in Live(FieldsOf(s.ips, ip), now) ensures c in InIpWindow(p, s, ip, now - p.Window() + 1)
    {
      assert ip in s.ips && c in s.ips[ip];
    }
    if p.limit != 1 {
      forall c | c in Live(FieldsOf(s.identities, identity), now)
        ensures c in InWindow(p, s, identity, now - p.Window() + 1)
      {
        assert exists d :: d in InWindow(p, s, identity, now - p.Window() + 1) && c == Member(p, d);
      }
    }
  }

  /** A call is refused only when the window that ends with it is full for its identity or for its address. */
  lemma RefusedOnlyWhenFull(p: Policy, requests: seq<Request>, r: Request)
    requires InTime(requests + [r])
    requires var s := CheckAll(p, START, 0, requests);
             !Passes(p, s.identities, s.ips, r)
    ensures var s := CheckAll(p, START, 0, requests);
            |InWindow(p, s, r.identity, r.now - p.Window() + 1)| >= p.limit ||
            |InIpWindow(p, s, r.ip, r.now - p.Window() + 1)| >= p.ipLimit
  {
    var s := CheckAll(p, START, 0, requests);
    assert (requests + [r])[|requests|] == r;
    assert forall i :: 0 <= i < |requests| ==> (requests + [r])[i] == requests[i];
    CheckAllExplains(p, START, 0, requests, r.now);
    LiveIsInWindow(p, s, r.identity, r.ip, r.now);
    var own := InWindow(p, s, r.identity, r.now - p.Window() + 1);
    var address := InIpWindow(p, s, r.ip, r.now - p.Window() + 1);
    SubsetSize(Live(FieldsOf(s.ips, r.ip), r.now), address);
    hide CheckAll, InWindow, InIpWindow, Live;
    if p.limit == 1 {
      assert own != {} ==> |own| >= 1;
    } else {
      SubsetSize(Live(FieldsOf(s.identities, r.identity), r.now), own);
    }
  }

  // ---------------------------------------------------------------- interleaved calls

  datatype Step =
    | Arrive(c: int, identity: nat, ip: nat)
    | Command(c: int, now: int, lag: nat)

  function Apply(p: Policy, s: System, step: Step): System
  {
    match step
    case Arrive(c, identity, ip) => if c in s.calls then s else s.(calls := s.calls[c := Call(identity, ip, Fresh)])
    case Command(c, now, lag) => Execute(p, s, c, now, lag)
  }

  function Run(p: Policy, s: System, steps: seq<Step>): System
    decreases |steps|
  {
    if steps == [] then s else Run(p, Apply(p, s, steps[0]), steps[1..])
  }

  predicate Claimed(call: Call)
  {
    call.stage.IdentitySet? || call.stage.Allowed?
  }

  predicate Rivals(call: Call, other: Call)
  {
    Claimed(call) && Claimed(other) && call.identity == other.identity
  }

  predicate Apart(a: int, b: int, window: int)
  {
    a + window <= b || b + window <= a
  }

  /** Claims of one identity are a window apart, and the claim field outlasts them all. */
  ghost predicate ClaimsApart(p: Policy, s: System)
  {
    && (forall c :: c in s.calls && Claimed(s.calls[c]) ==>
          var own := FieldsOf(s.identities, s.calls[c].identity);
          REQUEST in own && own[REQUEST] >= s.calls[c].stage.at + p.Window())
    && (forall c, d :: c in s.calls && d in s.calls && c != d && Rivals(s.calls[c], s.calls[d]) ==>
          Apart(s.calls[c].stage.at, s.calls[d].stage.at, p.Window()))
  }

  lemma OtherStepKeepsApart(p: Policy, s: System, t: System, c: int)
    requires ClaimsApart(p, s) && t.identities == s.identities && c in t.calls
    requires s.calls - {c} == t.calls - {c}
    requires Claimed(t.calls[c]) ==>
               c in s.calls && Rivals(s.calls[c], t.calls[c]) && s.calls[c].stage.at == t.calls[c].stage.at
    ensures ClaimsApart(p, t)
  {
    assert forall d :: d in t.calls && d != c ==> d in t.calls - {c};
    assert forall d :: d in t.calls && d != c ==> d in s.calls && s.calls[d] == t.calls[d];
  }

  lemma ClaimKeepsApart(p: Policy, s: System, c: int, now: int, claimed: map<nat, Fields>)
    requires ClaimsApart(p, s) && c in s.calls && !Claimed(s.calls[c])
    requires ClaimField(s.identities, s.calls[c].identity, now, now + p.Window()) == Some(claimed)
    ensures ClaimsApart(p, Move(s, c, IdentitySet(now)).(identities := claimed))
  {
  }

  lemma StepKeepsApart(p: Policy, s: System, step: Step)
    requires p.limit == 1 && ClaimsApart(p, s)
    ensures ClaimsApart(p, Apply(p, s, step))
  {
    hide ClaimsApart, Execute, ClaimField;
    var t, c := Apply(p, s, step), step.c;
    if t != s {
      if step.Command? {
        CommandMoves(p, s, c, step.now, step.lag);
      }
      assert s.calls - {c} == t.calls - {c};
      if step.Command? && Claims(s, t, c, step.now, p) {
        ClaimKeepsApart(p, s, c, step.now, t.identities);
      } else {
        OtherStepKeepsApart(p, s, t, c);
      }
    }
  }

  /** The command sets the field of a single claim. */
  predicate Claims(s: System, t: System, c: int, now: int, p: Policy)
  {
    && c in s.calls && !Claimed(s.calls[c])
    && ClaimField(s.identities, s.calls[c].identity, now, now + p.Window()) == Some(t.identities)
    && t == Move(s, c, IdentitySet(now)).(identities := t.identities)
  }

  lemma CommandMoves(p: Policy, s: System, c: int, now: int, lag: nat)
    requires p.limit == 1 && Execute(p, s, c, now, lag) != s
    ensures var t := Execute(p, s, c, now, lag);
            && c in s.calls && c in t.calls && t.calls == s.calls[c := t.calls[c]]
            && (Claims(s, t, c, now, p) ||
                (t.identities == s.identities &&
                 (Claimed(t.calls[c]) ==>
                    Rivals(s.calls[c], t.calls[c]) && s.calls[c].stage.at == t.calls[c].stage.at)))
  {
    hide Count, ClaimField, SetField;
  }

  lemma {:induction false} RunKeepsApart(p: Policy, s: System, steps: seq<Step>)
    requires p.limit == 1 && ClaimsApart(p, s)
    ensures ClaimsApart(p, Run(p, s, steps))
    decreases |steps|
  {
    if steps != [] {
      StepKeepsApart(p, s, steps[0]);
      RunKeepsApart(p, Apply(p, s, steps[0]), steps[1..]);
    }
  }

  /** With a limit of one, however the commands of concurrent calls interleave, no two allowed calls of an identity
      claimed it within one window. */
  lemma LimitOneHoldsInterleaved(p: Policy, steps: seq<Step>, c: int, d: int, t: int)
    requires p.limit == 1
    requires var s := Run(p, START, steps);
             exists identity :: c in InWindow(p, s, identity, t) && d in InWindow(p, s, identity, t)
    ensures c == d
  {
    RunKeepsApart(p, START, steps);
  }
}
