/** Room names: the pool, the reservations and the rooms that consume them. */
module Reservations {
  import opened Wrappers

  datatype PoolRow = PoolRow(generated: bool, consumed: bool)

  datatype Reservation = Reservation(owner: nat, token: nat, expires: int)

  /** Reservations are keyed by name, their ON CONFLICT target. Tokens are drawn in increasing order. */
  datatype Names = Names(rooms: set<nat>, pool: map<nat, PoolRow>, reservations: map<nat, Reservation>,
                         clock: int, nextToken: nat)

  // ---------------------------------------------------------------- the statements

  predicate Live(s: Names, name: nat)
  {
    name in s.reservations && s.reservations[name].expires > s.clock
  }

  predicate ConsumedName(s: Names, name: nat)
  {
    name in s.pool && s.pool[name].consumed
  }

  function Pooled(pool: map<nat, PoolRow>, name: nat): map<nat, PoolRow>
  {
    if name in pool then pool else pool[name := PoolRow(false, false)]
  }

  /** Without the owner's reservations of other names. */
  function Freed(reservations: map<nat, Reservation>, name: nat, owner: nat): map<nat, Reservation>
  {
    map n | n in reservations && (n == name || reservations[n].owner != owner) :: reservations[n]
  }

  /** The owner's other reservations go, the name gets a fresh token. */
  function Reserved(s: Names, name: nat, owner: nat, ttl: nat): Names
  {
    s.(reservations := Freed(s.reservations, name, owner)[name := Reservation(owner, s.nextToken, s.clock + ttl)],
       nextToken := s.nextToken + 1)
  }

  function ReserveStatement(s: Names, name: nat, owner: nat, ttl: nat): (Names, Option<nat>)
  {
    var pooled := s.(pool := Pooled(s.pool, name));
    if ConsumedName(pooled, name) || name in s.rooms || (Live(s, name) && s.reservations[name].owner != owner)
    then (pooled, None)
    else (Reserved(pooled, name, owner, ttl), Some(s.nextToken))
  }

  /** What the random choice may return: generated, unconsumed and not under a live reservation. */
  predicate Suggestable(s: Names, name: nat)
  {
    name in s.pool && s.pool[name].generated && !s.pool[name].consumed && !Live(s, name)
  }

  function SuggestStatement(s: Names, choice: nat, owner: nat, ttl: nat): (Names, Option<nat>)
  {
    if Suggestable(s, choice) then (Reserved(s, choice, owner, ttl), Some(s.nextToken)) else (s, None)
  }

  /** The room exists and its name is consumed. */
  function WithRoom(s: Names, name: nat): Names
  {
    s.(rooms := s.rooms + {name}, pool := Pooled(s.pool, name)[name := Pooled(s.pool, name)[name].(consumed := true)])
  }

  function WithoutReservation(s: Names, name: nat): Names
  {
    s.(reservations := s.reservations - {name})
  }

  /** Creating with a token takes its live reservation; creating without takes that nobody has a live one. */
  predicate MayCreate(s: Names, name: nat, owner: nat, token: Option<nat>)
  {
    name !in s.rooms &&
    match token
    case Some(t) => Live(s, name) && s.reservations[name].token == t && s.reservations[name].owner == owner
    case None => !Live(s, name)
  }

  function CreateStatement(s: Names, name: nat, owner: nat, token: Option<nat>): (Names, bool)
  {
    if MayCreate(s, name, owner, token) then (WithoutReservation(WithRoom(s, name), name), true) else (s, false)
  }

  /** attachable: the generation is claimed with the worker's attempt, unfinished and has no room. */
  predicate MayGenerate(s: Names, name: nat, owner: nat, token: Option<nat>, attachable: bool)
  {
    && attachable && name !in s.rooms && !ConsumedName(s, name)
    && (Live(s, name) ==> token == Some(s.reservations[name].token) && s.reservations[name].owner == owner)
  }

  function GenerateStatement(s: Names, name: nat, owner: nat, token: Option<nat>, attachable: bool): (Names, bool)
  {
    if !MayGenerate(s, name, owner, token, attachable) then (s, false)
    else if name in s.reservations && token == Some(s.reservations[name].token)
    then (WithoutReservation(WithRoom(s, name), name), true)
    else (WithRoom(s, name), true)
  }

  function CleanupStatement(s: Names): Names
  {
    s.(reservations := map n | n in s.reservations && s.reservations[n].expires > s.clock :: s.reservations[n])
  }

  /** The three tables, updated in place. */
  class Tables {
    var rooms: set<nat>
    var pool: map<nat, PoolRow>
    var reservations: map<nat, Reservation>
    var nextToken: nat

    ghost function State(clock: int): Names
      reads this
    {
      Names(rooms, pool, reservations, clock, nextToken)
    }

    constructor (pool: map<nat, PoolRow>)
      ensures forall clock :: State(clock) == Names({}, pool, map[], clock, 0)
    {
      rooms, this.pool, reservations, nextToken := {}, pool, map[], 0;
    }

    method ReserveRoomName(name: nat, owner: nat, ttl: nat, clock: int) returns (token: Option<nat>)
      modifies this
      ensures (State(clock), token) == ReserveStatement(old(State(clock)), name, owner, ttl)
    {
      if name !in pool {
        pool := pool[name := PoolRow(false, false)];
      }
      var taken := name in reservations && reservations[name].owner != owner && reservations[name].expires > clock;
      if pool[name].consumed || name in rooms || taken { return None; }
      reservations := Freed(reservations, name, owner)[name := Reservation(owner, nextToken, clock + ttl)];
      token := Some(nextToken);
      nextToken := nextToken + 1;
    }

    method CreateRoom(name: nat, owner: nat, token: Option<nat>, clock: int) returns (created: bool)
      modifies this
      ensures (State(clock), created) == CreateStatement(old(State(clock)), name, owner, token)
    {
      var reserved := name in reservations && reservations[name].expires > clock;
      created := name !in rooms && (if token.None? then !reserved
                                    else reserved && reservations[name].token == token.value
                                         && reservations[name].owner == owner);
      if created {
        ghost var after := WithoutReservation(WithRoom(State(clock), name), name);
        rooms := rooms + {name};
        pool := pool[name := PoolRow(name in pool && pool[name].generated, true)];
        reservations := reservations - {name};
        assert pool == after.pool;
      }
    }

    method DeleteExpiredReservations(clock: int)
      modifies this
      ensures State(clock) == CleanupStatement(old(State(clock)))
    {
      reservations := map n | n in reservations && reservations[n].expires > clock :: reservations[n];
    }
  }

  // ---------------------------------------------------------------- runs

  datatype Step =
    | Reserve(name: nat, owner: nat, ttl: nat)
    | Suggest(choice: nat, owner: nat, ttl: nat)
    | Create(name: nat, owner: nat, token: Option<nat>)
    | Generate(name: nat, owner: nat, token: Option<nat>, attachable: bool)
    | DeleteRoom(name: nat)
    | Cleanup
    | Tick(seconds: nat)

  function Apply(s: Names, step: Step): Names
  {
    match step
    case Reserve(name, owner, ttl) => ReserveStatement(s, name, owner, ttl).0
    case Suggest(choice, owner, ttl) => SuggestStatement(s, choice, owner, ttl).0
    case Create(name, owner, token) => CreateStatement(s, name, owner, token).0
    case Generate(name, owner, token, attachable) => GenerateStatement(s, name, owner, token, attachable).0
    case DeleteRoom(name) => s.(rooms := s.rooms - {name})
    case Cleanup => CleanupStatement(s)
    case Tick(seconds) => s.(clock := s.clock + seconds)
  }

  function Run(s: Names, steps: seq<Step>): Names
    decreases |steps|
  {
    if steps == [] then s else Run(Apply(s, steps[0]), steps[1..])
  }

  // ---------------------------------------------------------------- the invariant

  ghost predicate RoomsAreConsumed(s: Names)
  {
    forall name :: name in s.rooms ==> ConsumedName(s, name)
  }

  ghost predicate OnePerOwner(s: Names)
  {
    forall m, n :: m in s.reservations && n in s.reservations && s.reservations[m].owner == s.reservations[n].owner ==>
      m == n
  }

  ghost predicate TokensAreDrawn(s: Names)
  {
    forall n :: n in s.reservations ==> s.reservations[n].token < s.nextToken
  }

  /** A name under a live reservation names no room. */
  ghost predicate ReservedIsFree(s: Names)
  {
    forall n :: Live(s, n) ==> n !in s.rooms
  }

  ghost predicate Inv(s: Names)
  {
    RoomsAreConsumed(s) && OnePerOwner(s) && TokensAreDrawn(s) && ReservedIsFree(s)
  }

  lemma ReservedKeeps(s: Names, name: nat, owner: nat, ttl: nat)
    requires Inv(s) && !ConsumedName(s, name)
    ensures Inv(Reserved(s, name, owner, ttl))
  {
    var t := Reserved(s, name, owner, ttl);
    assert forall n :: n in t.reservations && n != name ==>
           n in s.reservations && t.reservations[n] == s.reservations[n];
    assert forall n :: n != name && Live(t, n) ==> Live(s, n);
  }

  lemma PooledKeeps(s: Names, name: nat)
    requires Inv(s)
    ensures Inv(s.(pool := Pooled(s.pool, name)))
  {
    assert forall n :: ConsumedName(s, n) ==> ConsumedName(s.(pool := Pooled(s.pool, name)), n);
    assert forall n :: Live(s.(pool := Pooled(s.pool, name)), n) <==> Live(s, n);
  }

  lemma WithRoomKeeps(s: Names, name: nat)
    requires Inv(s)
    ensures Inv(WithoutReservation(WithRoom(s, name), name))
    ensures !Live(s, name) ==> Inv(WithRoom(s, name))
  {
    var t := WithRoom(s, name);
    assert forall n :: n in t.rooms ==> ConsumedName(t, n) by {
      assert forall n :: n in s.rooms ==> ConsumedName(s, n);
    }
    assert forall n :: Live(t, n) <==> Live(s, n);
    assert forall n :: Live(WithoutReservation(t, name), n) ==> n != name && Live(s, n);
  }

  lemma StepKeeps(s: Names, step: Step)
    requires Inv(s)
    ensures Inv(Apply(s, step))
  {
    match step
    case Reserve(name, owner, ttl) =>
      PooledKeeps(s, name);
      var pooled := s.(pool := Pooled(s.pool, name));
      if !ConsumedName(pooled, name) { ReservedKeeps(pooled, name, owner, ttl); }
    case Suggest(choice, owner, ttl) =>
      if Suggestable(s, choice) { ReservedKeeps(s, choice, owner, ttl); }
    case Create(name, owner, token) => WithRoomKeeps(s, name);
    case Generate(name, owner, token, attachable) => WithRoomKeeps(s, name);
    case DeleteRoom(name) =>
      assert forall n :: Live(Apply(s, step), n) ==> Live(s, n);
      assert forall n :: ConsumedName(Apply(s, step), n) <==> ConsumedName(s, n);
    case Cleanup =>
      assert forall n :: Live(Apply(s, step), n) ==> Live(s, n);
      assert forall n :: ConsumedName(Apply(s, step), n) <==> ConsumedName(s, n);
    case Tick(seconds) =>
      assert forall n :: Live(Apply(s, step), n) ==> Live(s, n);
      assert forall n :: ConsumedName(Apply(s, step), n) <==> ConsumedName(s, n);
  }

  lemma {:induction false} RunKeeps(s: Names, steps: seq<Step>)
    requires Inv(s)
    ensures Inv(Run(s, steps))
    decreases |steps|
  {
    if steps != [] {
      StepKeeps(s, steps[0]);
      RunKeeps(Apply(s, steps[0]), steps[1..]);
    }
  }

  lemma EmptyIsFine(pool: map<nat, PoolRow>, clock: int)
    ensures Inv(Names({}, pool, map[], clock, 0))
  {
  }

  // ---------------------------------------------------------------- the promises

  /** A step that creates a room: the ID was free, the name is consumed, and if the name was under a live reservation
      the caller was its owner with its latest token, and the reservation is used up. */
  lemma CreationIsSafe(s: Names, step: Step, name: nat)
    requires Inv(s) && name !in s.rooms && name in Apply(s, step).rooms
    ensures ConsumedName(Apply(s, step), name) && !Live(Apply(s, step), name)
    ensures (step.Create? || step.Generate?) && step.name == name
    ensures Live(s, name) ==>
              step.token == Some(s.reservations[name].token) && step.owner == s.reservations[name].owner
  {
    StepKeeps(s, step);
  }

  /** Reported creations are exactly the steps that add the room: an existing room is never created again. */
  lemma CreatedMeansNew(s: Names, name: nat, owner: nat, token: Option<nat>, attachable: bool)
    ensures var (t, created) := CreateStatement(s, name, owner, token);
            created <==> name !in s.rooms && name in t.rooms
    ensures var (t, created) := GenerateStatement(s, name, owner, token, attachable);
            created <==> name !in s.rooms && name in t.rooms
  {
  }

  /** A name once consumed is never handed out again. */
  lemma ConsumedIsForever(s: Names, steps: seq<Step>, name: nat, owner: nat, ttl: nat)
    requires ConsumedName(s, name)
    ensures var t := Run(s, steps);
            ConsumedName(t, name) && ReserveStatement(t, name, owner, ttl).1.None?
              && SuggestStatement(t, name, owner, ttl).1.None?
    decreases |steps|
  {
    if steps != [] { ConsumedIsForever(Apply(s, steps[0]), steps[1..], name, owner, ttl); }
  }

  /** The owner of a reservation leaves it alone. */
  predicate ByOthers(step: Step, owner: nat)
  {
    step.DeleteRoom? || step.Cleanup? || step.Tick? || step.owner != owner
  }

  lemma OthersLeaveIt(s: Names, step: Step, name: nat)
    requires Inv(s) && Live(s, name) && ByOthers(step, s.reservations[name].owner)
    requires s.reservations[name].expires > Apply(s, step).clock
    ensures Live(Apply(s, step), name) && Apply(s, step).reservations[name] == s.reservations[name]
    ensures name !in Apply(s, step).rooms
  {
  }

  lemma {:induction false} ClockAdvances(s: Names, steps: seq<Step>)
    ensures s.clock <= Run(s, steps).clock
    decreases |steps|
  {
    if steps != [] { ClockAdvances(Apply(s, steps[0]), steps[1..]); }
  }

  /** A reservation is a promise: whatever everybody else does until it expires, its owner can still create the room
      with its token, and only with it. */
  lemma {:induction false} ReservationIsKept(s: Names, steps: seq<Step>, name: nat, token: Option<nat>)
    requires Inv(s) && Live(s, name)
    requires forall i :: 0 <= i < |steps| ==> ByOthers(steps[i], s.reservations[name].owner)
    requires s.reservations[name].expires > Run(s, steps).clock
    ensures var t := Run(s, steps);
            && Live(t, name) && t.reservations[name] == s.reservations[name] && name !in t.rooms
            && (CreateStatement(t, name, s.reservations[name].owner, token).1 <==>
                  token == Some(s.reservations[name].token))
    decreases |steps|
  {
    if steps != [] {
      var next := Apply(s, steps[0]);
      ClockAdvances(next, steps[1..]);
      OthersLeaveIt(s, steps[0], name);
      StepKeeps(s, steps[0]);
      ReservationIsKept(next, steps[1..], name, token);
    }
  }

  /** Reserving again replaces the token: the older one no longer creates the room. */
  lemma OlderTokenIsVoid(s: Names, name: nat, owner: nat, ttl: nat, older: nat)
    requires Inv(s) && ReserveStatement(s, name, owner, ttl).1.Some? && older < s.nextToken
    ensures !CreateStatement(ReserveStatement(s, name, owner, ttl).0, name, owner, Some(older)).1
    ensures ttl > 0 ==>
              CreateStatement(ReserveStatement(s, name, owner, ttl).0, name, owner,
                              ReserveStatement(s, name, owner, ttl).1).1
  {
  }

  /** A granted name, reserved or suggested, is its owner's at once and until exactly ttl seconds later; from then on
      anybody may create it without a token. */
  lemma GrantLasts(s: Names, name: nat, owner: nat, ttl: nat, seconds: nat, suggested: bool, anybody: nat)
    requires Inv(s)
    requires (if suggested then SuggestStatement(s, name, owner, ttl)
              else ReserveStatement(s, name, owner, ttl)).1.Some?
    ensures var (granted, token) :=
              if suggested then SuggestStatement(s, name, owner, ttl) else ReserveStatement(s, name, owner, ttl);
            var later := Apply(granted, Tick(seconds));
            && name !in granted.rooms && (Live(later, name) <==> seconds < ttl)
            && (CreateStatement(later, name, owner, token).1 <==> seconds < ttl)
            && (CreateStatement(later, name, anybody, None).1 <==> seconds >= ttl)
  {
  }

  /** No reservation of the name by anybody but this owner with this token lasts beyond now. */
  predicate NotTakenFrom(s: Names, name: nat, owner: nat, token: Option<nat>)
  {
    name in s.reservations && s.clock < s.reservations[name].expires ==>
      token.Some? && token.value == s.reservations[name].token && owner == s.reservations[name].owner
  }

  /** A room is created without a token exactly when no room has the name and no reservation of it lasts, and with a
      token exactly when none has it and the owner's reservation with that token lasts. A generation's room is created
      exactly when it can be attached, no room ever had the name, and nobody else's reservation of it lasts. */
  lemma CreatedIff(s: Names, name: nat, owner: nat, token: Option<nat>, attachable: bool)
    ensures var (t, created) := CreateStatement(s, name, owner, token);
            && (created <==> name !in s.rooms && NotTakenFrom(s, name, owner, token)
                             && (token.Some? ==> name in s.reservations && s.clock < s.reservations[name].expires))
            && (created ==> t.rooms == s.rooms + {name} && t.reservations == s.reservations - {name}
                            && IsConsumed(s, t, name))
            && (!created ==> t == s)
    ensures var (t, created) := GenerateStatement(s, name, owner, token, attachable);
            && (created <==> attachable && name !in s.rooms && !(name in s.pool && s.pool[name].consumed)
                             && NotTakenFrom(s, name, owner, token))
            && (created ==> t.rooms == s.rooms + {name} && s.reservations - {name} == t.reservations - {name}
                            && IsConsumed(s, t, name))
            && (created && name in t.reservations ==> t.reservations[name].expires <= s.clock)
            && (!created ==> t == s)
  {
  }

  /** The name is consumed, and no other row of the pool changes; a name that was made up does not become a generated
      one. */
  ghost predicate IsConsumed(s: Names, t: Names, name: nat)
  {
    && name in t.pool && t.pool[name].consumed && t.pool - {name} == s.pool - {name}
    && (t.pool[name].generated <==> name in s.pool && s.pool[name].generated)
  }

  /** A name is granted exactly when it was never consumed, names no room and nobody else's reservation of it lasts; one
      that is drawn at random must be a generated name that nobody has reserved. The grant replaces the owner's other
      reservations and no one else's. */
  lemma GrantedIff(s: Names, name: nat, owner: nat, ttl: nat)
    ensures var (t, token) := ReserveStatement(s, name, owner, ttl);
            && (token.Some? <==> name !in s.rooms && !(name in s.pool && s.pool[name].consumed)
                                 && (name in s.reservations && s.clock < s.reservations[name].expires ==>
                                       s.reservations[name].owner == owner))
            && (token.Some? ==> Granted(s, t, name, owner, ttl) && token.value == s.nextToken)
            && (token.None? ==> t == s.(pool := t.pool))
            && name in t.pool && t.pool - {name} == s.pool - {name}
            && t.pool[name] == (if name in s.pool then s.pool[name] else PoolRow(false, false))
    ensures var (t, token) := SuggestStatement(s, name, owner, ttl);
            && (token.Some? <==> name in s.pool && s.pool[name].generated && !s.pool[name].consumed
                                 && !(name in s.reservations && s.clock < s.reservations[name].expires))
            && (token.Some? ==> Granted(s, t, name, owner, ttl) && token.value == s.nextToken && t.pool == s.pool)
            && (token.None? ==> t == s)
  {
  }

  ghost predicate Granted(s: Names, t: Names, name: nat, owner: nat, ttl: nat)
  {
    && name in t.reservations && t.reservations[name] == Reservation(owner, s.nextToken, s.clock + ttl)
    && t.nextToken > s.nextToken && t.rooms == s.rooms && t.clock == s.clock
    && forall n :: n != name ==>
         if n in s.reservations && s.reservations[n].owner != owner
         then n in t.reservations && t.reservations[n] == s.reservations[n] else n !in t.reservations
  }

  /** The cleanup takes out exactly the reservations that have run out, and no answer of any statement depends on it. */
  lemma CleanupIsInvisible(s: Names, name: nat, owner: nat, ttl: nat, token: Option<nat>, attachable: bool)
    ensures var t := CleanupStatement(s);
            && t == s.(reservations := t.reservations)
            && (forall n :: n in t.reservations <==> n in s.reservations && s.clock < s.reservations[n].expires)
            && (forall n :: n in t.reservations ==> t.reservations[n] == s.reservations[n])
            && ReserveStatement(t, name, owner, ttl).1 == ReserveStatement(s, name, owner, ttl).1
            && SuggestStatement(t, name, owner, ttl).1 == SuggestStatement(s, name, owner, ttl).1
            && CreateStatement(t, name, owner, token).1 == CreateStatement(s, name, owner, token).1
            && GenerateStatement(t, name, owner, token, attachable).1 ==
                 GenerateStatement(s, name, owner, token, attachable).1
  {
  }

  /** A deleted room's name is free for anybody to create again, but it stays consumed: it is not reserved, suggested or
      given to a generation. */
  lemma DeletedNameIsFree(s: Names, name: nat, owner: nat, ttl: nat, token: Option<nat>)
    requires Inv(s) && name in s.rooms
    ensures var t := Apply(s, DeleteRoom(name));
            && t.rooms == s.rooms - {name} && CreateStatement(t, name, owner, None).1
            && ReserveStatement(t, name, owner, ttl).1.None? && SuggestStatement(t, name, owner, ttl).1.None?
            && !GenerateStatement(t, name, owner, token, true).1
  {
    assert !Live(s, name) && ConsumedName(s, name);
  }

  /** A step that neither reserves this name nor creates a room of it. */
  predicate LeavesName(step: Step, name: nat)
  {
    && (step.Reserve? || step.Create? || step.Generate? ==> step.name != name)
    && (step.Suggest? ==> step.choice != name)
  }

  /** Whatever happens to other names: once its reservation has run out, a name is anybody's. */
  lemma {:induction false} ReservationRunsOut(s: Names, steps: seq<Step>, name: nat, anybody: nat)
    requires name !in s.rooms && forall i :: 0 <= i < |steps| ==> LeavesName(steps[i], name)
    requires name in s.reservations ==> s.reservations[name].expires <= Run(s, steps).clock
    ensures CreateStatement(Run(s, steps), name, anybody, None).1
    decreases |steps|
  {
    if steps != [] {
      var next := Apply(s, steps[0]);
      assert LeavesName(steps[0], name);
      assert name !in next.rooms && (name in next.reservations ==> next.reservations[name] == s.reservations[name]
                                                                   && name in s.reservations);
      ReservationRunsOut(next, steps[1..], name, anybody);
    }
  }

  /** Every run from the first reservation on: at most one reservation per owner, consumed names for all rooms, no room
      under a live reservation, and a further step creates a reserved room only for its owner's latest token. */
  lemma NamesAreSafe(pool: map<nat, PoolRow>, clock: int, steps: seq<Step>, step: Step, name: nat)
    ensures var s := Run(Names({}, pool, map[], clock, 0), steps);
            && OnePerOwner(s) && RoomsAreConsumed(s) && ReservedIsFree(s)
            && (Live(s, name) && name in Apply(s, step).rooms ==>
                  (step.Create? || step.Generate?) && step.name == name && step.owner == s.reservations[name].owner
                  && step.token == Some(s.reservations[name].token))
  {
    var start := Names({}, pool, map[], clock, 0);
    RunKeeps(start, steps);
    var s := Run(start, steps);
    if Live(s, name) && name in Apply(s, step).rooms { CreationIsSafe(s, step, name); }
  }
}
