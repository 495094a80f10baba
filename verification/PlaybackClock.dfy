/** The stored playback position, an anchor and the time since, against a clock that ticks while the item plays. */
module PlaybackClock {

  /** Times are in nanoseconds, positions in milliseconds. */
  const MILLISECOND := 1_000_000

  /** time.Duration.Milliseconds truncates toward zero. */
  function Milliseconds(duration: int): int
  {
    if duration >= 0 then duration / MILLISECOND else -(-duration / MILLISECOND)
  }

  datatype State = State(positionMs: int, updatedAt: int, isPlaying: bool)

  datatype Action = Play | Pause | Seek(positionMs: int)

  /** The item's length in seconds; 0 is unknown. */
  function Capped(positionMs: int, duration: nat): int
  {
    var capped := if duration > 0 && positionMs > duration * 1000 then duration * 1000 else positionMs;
    if capped < 0 then 0 else capped
  }

  /** What getPlaybackStateV2 returns while an item is current. */
  function Fetched(s: State, duration: nat, now: int): State
  {
    if s.isPlaying then State(Capped(s.positionMs + Milliseconds(now - s.updatedAt), duration), now, true) else s
  }

  function Updated(s: State, duration: nat, action: Action, now: int): State
  {
    var fetched := Fetched(s, duration, now);
    match action
    case Play => State(fetched.positionMs, now, true)
    case Pause =>
      State(if fetched.isPlaying then fetched.positionMs + Milliseconds(now - fetched.updatedAt)
            else fetched.positionMs, now, false)
    case Seek(positionMs) => State(positionMs, now, fetched.isPlaying)
  }

  /** The state row, rewritten in place. */
  class Playback {
    var positionMs: int
    var updatedAt: int
    var isPlaying: bool
    const duration: nat

    ghost function Value(): State
      reads this
    {
      State(positionMs, updatedAt, isPlaying)
    }

    constructor (duration: nat, now: int)
      ensures Value() == State(0, now, true) && this.duration == duration
    {
      positionMs, updatedAt, isPlaying, this.duration := 0, now, true, duration;
    }

    method UpdatePlayback(action: Action, now: int)
      modifies this
      ensures Value() == Updated(old(Value()), duration, action, now)
    {
      if isPlaying {
        var currentPosition := positionMs + Milliseconds(now - updatedAt);
        if duration > 0 && currentPosition > duration * 1000 {
          currentPosition := duration * 1000;
        }
        if currentPosition < 0 {
          currentPosition := 0;
        }
        positionMs, updatedAt := currentPosition, now;
      }
      match action {
        case Play =>
          isPlaying := true;
        case Pause =>
          if isPlaying {
            positionMs := positionMs + Milliseconds(now - updatedAt);
          }
          isPlaying := false;
        case Seek(position) =>
          positionMs := position;
      }
      updatedAt := now;
    }
  }

  // ---------------------------------------------------------------- the ticking clock

  /** A clock that ticks every nanosecond while it plays and stops at the end of the item. */
  datatype Clock = Clock(elapsed: int, running: bool)

  function Ticked(elapsed: int, duration: nat, ticks: nat): int
  {
    if ticks == 0 then elapsed
    else
      var before := Ticked(elapsed, duration, ticks - 1);
      if duration > 0 && before >= duration * 1000 * MILLISECOND then before else before + 1
  }

  function At(c: Clock, duration: nat, ticks: nat): Clock
  {
    if c.running then c.(elapsed := Ticked(c.elapsed, duration, ticks)) else c
  }

  function Turned(c: Clock, action: Action): Clock
  {
    match action
    case Play => c.(running := true)
    case Pause => c.(running := false)
    case Seek(positionMs) => c.(elapsed := positionMs * MILLISECOND)
  }

  lemma {:induction false} TickedIs(elapsed: int, duration: nat, ticks: nat)
    requires duration > 0 ==> elapsed <= duration * 1000 * MILLISECOND
    ensures Ticked(elapsed, duration, ticks) ==
            if duration > 0 && elapsed + ticks > duration * 1000 * MILLISECOND then duration * 1000 * MILLISECOND
            else elapsed + ticks
    decreases ticks
  {
    if ticks > 0 { TickedIs(elapsed, duration, ticks - 1); }
  }

  /** A playing item moves on by a thousand for every second, up to its end, and a paused one stands still. */
  lemma SecondsPass(s: State, duration: nat, seconds: nat)
    requires 0 <= s.positionMs && (duration > 0 ==> s.positionMs <= 1000 * duration)
    ensures var reported := Fetched(s, duration, s.updatedAt + 1_000_000_000 * seconds).positionMs;
            reported == if !s.isPlaying then s.positionMs
                        else if duration > 0 && s.positionMs + 1000 * seconds > 1000 * duration then 1000 * duration
                        else s.positionMs + 1000 * seconds
  {
    assert 1_000_000_000 * seconds / 1_000_000 == 1000 * seconds;
  }

  /** Whatever was stored, even by a clock that is ahead: what a playing item reports and what a play or pause of it
      stores lies within the item. */
  lemma StaysWithinItem(s: State, duration: nat, action: Action, now: int)
    requires s.isPlaying && !action.Seek?
    ensures 0 <= Fetched(s, duration, now).positionMs && 0 <= Updated(s, duration, action, now).positionMs
    ensures duration > 0 ==> Fetched(s, duration, now).positionMs <= 1000 * duration
                             && Updated(s, duration, action, now).positionMs <= 1000 * duration
  {
  }

  /** Durations are cut to whole milliseconds toward zero, forward and backward alike. */
  lemma CutTowardZero(duration: int)
    ensures Milliseconds(-duration) == -Milliseconds(duration)
    ensures duration >= 0 ==> Milliseconds(duration) * 1_000_000 <= duration < (Milliseconds(duration) + 1) * 1_000_000
  {
  }

  // ---------------------------------------------------------------- refinement

  datatype Call = Call(action: Action, now: int)

  predicate InRange(positionMs: int, duration: nat)
  {
    0 <= positionMs && (duration > 0 ==> positionMs <= duration * 1000)
  }

  predicate SeeksInRange(call: Call, duration: nat)
  {
    call.action.Seek? ==> InRange(call.action.positionMs, duration)
  }

  /** Calls at non-decreasing times that seek inside the item. */
  predicate Orderly(calls: seq<Call>, from: int, duration: nat)
    decreases |calls|
  {
    calls == [] || (from <= calls[0].now && SeeksInRange(calls[0], duration)
                    && Orderly(calls[1..], calls[0].now, duration))
  }

  function UpdatedAll(s: State, duration: nat, calls: seq<Call>): State
    decreases |calls|
  {
    if calls == [] then s else UpdatedAll(Updated(s, duration, calls[0].action, calls[0].now), duration, calls[1..])
  }

  /** The clock, which was set at from, after the same calls. */
  function TurnedAll(c: Clock, duration: nat, from: int, calls: seq<Call>): Clock
    requires Orderly(calls, from, duration)
    decreases |calls|
  {
    if calls == [] then c
    else TurnedAll(Turned(At(c, duration, calls[0].now - from), calls[0].action), duration, calls[0].now, calls[1..])
  }

  function LastCall(from: int, calls: seq<Call>): int
  {
    if calls == [] then from else calls[|calls| - 1].now
  }

  /** The stored state is behind the clock by at most lag nanoseconds. */
  predicate Behind(s: State, c: Clock, duration: nat, at: int, lag: nat)
  {
    && s.isPlaying == c.running && InRange(s.positionMs, duration) && (s.isPlaying ==> s.updatedAt == at)
    && s.positionMs * MILLISECOND <= c.elapsed <= s.positionMs * MILLISECOND + lag
    && (duration > 0 ==> c.elapsed <= duration * 1000 * MILLISECOND)
  }

  /** Truncating to milliseconds loses less than one; at whole milliseconds it loses nothing. */
  lemma FetchedIsBehind(s: State, c: Clock, duration: nat, at: int, lag: nat, now: int)
    requires Behind(s, c, duration, at, lag) && at <= now
    ensures Behind(Fetched(s, duration, now), At(c, duration, now - at), duration, now, lag + (now - at) % MILLISECOND)
  {
    if s.isPlaying {
      var ticks := now - at;
      TickedIs(c.elapsed, duration, ticks);
      assert ticks == Milliseconds(ticks) * MILLISECOND + ticks % MILLISECOND;
    }
  }

  lemma UpdatedIsBehind(s: State, c: Clock, duration: nat, at: int, lag: nat, call: Call)
    requires Behind(s, c, duration, at, lag) && at <= call.now && SeeksInRange(call, duration)
    ensures Behind(Updated(s, duration, call.action, call.now), Turned(At(c, duration, call.now - at), call.action),
            duration,
                   call.now, lag + (call.now - at) % MILLISECOND)
  {
    FetchedIsBehind(s, c, duration, at, lag, call.now);
  }

  /** What the calls' times leave over a whole millisecond. */
  function Leftover(from: int, calls: seq<Call>): nat
    decreases |calls|
  {
    if calls == [] then 0 else (calls[0].now - from) % MILLISECOND + Leftover(calls[0].now, calls[1..])
  }

  lemma {:induction false} CallsAreBehind(s: State, c: Clock, duration: nat, from: int, lag: nat, calls: seq<Call>)
    requires Behind(s, c, duration, from, lag) && Orderly(calls, from, duration)
    ensures Behind(UpdatedAll(s, duration, calls), TurnedAll(c, duration, from, calls), duration, LastCall(from, calls),
                   lag + Leftover(from, calls))
    decreases |calls|
  {
    if calls != [] {
      var call := calls[0];
      UpdatedIsBehind(s, c, duration, from, lag, call);
      CallsAreBehind(Updated(s, duration, call.action, call.now), Turned(At(c, duration, call.now - from), call.action),
        duration,
                     call.now, lag + (call.now - from) % MILLISECOND, calls[1..]);
    }
  }

  lemma {:induction false} LeftoverIsSmall(from: int, calls: seq<Call>)
    ensures Leftover(from, calls) <= |calls| * (MILLISECOND - 1)
    decreases |calls|
  {
    if calls != [] {
      LeftoverIsSmall(calls[0].now, calls[1..]);
      assert (|calls| - 1) * (MILLISECOND - 1) + (MILLISECOND - 1) == |calls| * (MILLISECOND - 1);
    }
  }

  /** The position reported at now, in nanoseconds, and the ticking clock's after the same calls. */
  function Reported(s: State, duration: nat, calls: seq<Call>, now: int): int
  {
    Fetched(UpdatedAll(s, duration, calls), duration, now).positionMs * MILLISECOND
  }

  function Exact(s: State, duration: nat, calls: seq<Call>, now: int): int
    requires Orderly(calls, s.updatedAt, duration) && LastCall(s.updatedAt, calls) <= now
  {
    At(TurnedAll(Clock(s.positionMs * MILLISECOND, s.isPlaying), duration, s.updatedAt, calls), duration,
       now - LastCall(s.updatedAt, calls)).elapsed
  }

  lemma ReportIsBehind(s: State, duration: nat, calls: seq<Call>, now: int)
    requires InRange(s.positionMs, duration) && Orderly(calls, s.updatedAt, duration)
             && LastCall(s.updatedAt, calls) <= now
    ensures 0 <= Exact(s, duration, calls, now) - Reported(s, duration, calls, now)
              <= Leftover(s.updatedAt, calls) + MILLISECOND - 1
  {
    var c, last := Clock(s.positionMs * MILLISECOND, s.isPlaying), LastCall(s.updatedAt, calls);
    CallsAreBehind(s, c, duration, s.updatedAt, 0, calls);
    hide UpdatedAll, TurnedAll, Leftover, Orderly;
    FetchedIsBehind(UpdatedAll(s, duration, calls), TurnedAll(c, duration, s.updatedAt, calls), duration, last,
                    Leftover(s.updatedAt, calls), now);
  }

  /** For any calls at non-decreasing times the reported position is never ahead of the ticking clock, and behind it
      by less than a millisecond for each call and for the report itself. */
  lemma DriftIsBounded(s: State, duration: nat, calls: seq<Call>, now: int)
    requires InRange(s.positionMs, duration) && Orderly(calls, s.updatedAt, duration)
             && LastCall(s.updatedAt, calls) <= now
    ensures 0 <= Exact(s, duration, calls, now) - Reported(s, duration, calls, now) <= (|calls| + 1) * (MILLISECOND - 1)
  {
    ReportIsBehind(s, duration, calls, now);
    LeftoverIsSmall(s.updatedAt, calls);
    hide *;
    assert (|calls| + 1) * (MILLISECOND - 1) == |calls| * (MILLISECOND - 1) + (MILLISECOND - 1);
  }

  // ---------------------------------------------------------------- when the report is exact

  predicate AtEnd(s: State, duration: nat)
  {
    duration > 0 && s.positionMs == duration * 1000
  }

  /** Re-anchoring at now keeps the anchor in step, if it was: while playing, only whole milliseconds after the last
      anchor, or when the item has ended. */
  predicate StaysInStep(s: State, duration: nat, now: int, inStep: bool)
  {
    if s.isPlaying then AtEnd(Fetched(s, duration, now), duration) || (inStep && (now - s.updatedAt) % MILLISECOND == 0)
    else inStep
  }

  /** Whether every call made while playing, since the last seek or end of the item, came whole milliseconds after the
      one before. */
  predicate InStep(s: State, duration: nat, calls: seq<Call>, inStep: bool)
    decreases |calls|
  {
    if calls == [] then inStep
    else
      var call := calls[0];
      InStep(Updated(s, duration, call.action, call.now), duration, calls[1..],
             call.action.Seek? || StaysInStep(s, duration, call.now, inStep))
  }

  /** The anchor is the clock's time exactly if it is in step. */
  predicate Tells(s: State, c: Clock, duration: nat, at: int, lag: nat, inStep: bool)
  {
    Behind(s, c, duration, at, lag) && (inStep <==> c.elapsed == s.positionMs * MILLISECOND)
  }

  lemma FetchedTells(s: State, c: Clock, duration: nat, at: int, lag: nat, now: int, inStep: bool)
    requires Tells(s, c, duration, at, lag, inStep) && at <= now
    ensures Tells(Fetched(s, duration, now), At(c, duration, now - at), duration, now, lag + (now - at) % MILLISECOND,
                  StaysInStep(s, duration, now, inStep))
  {
    FetchedIsBehind(s, c, duration, at, lag, now);
    if s.isPlaying {
      var ticks := now - at;
      TickedIs(c.elapsed, duration, ticks);
      assert ticks == Milliseconds(ticks) * MILLISECOND + ticks % MILLISECOND;
    }
  }

  lemma UpdatedTells(s: State, c: Clock, duration: nat, at: int, lag: nat, call: Call, inStep: bool)
    requires Tells(s, c, duration, at, lag, inStep) && at <= call.now && SeeksInRange(call, duration)
    ensures Tells(Updated(s, duration, call.action, call.now), Turned(At(c, duration, call.now - at), call.action),
            duration,
                  call.now, lag + (call.now - at) % MILLISECOND,
                  call.action.Seek? || StaysInStep(s, duration, call.now, inStep))
  {
    FetchedTells(s, c, duration, at, lag, call.now, inStep);
    hide StaysInStep, At;
  }

  lemma {:induction false} CallsTell(s: State, c: Clock, duration: nat, from: int, lag: nat, calls: seq<Call>,
                                     inStep: bool)
    requires Tells(s, c, duration, from, lag, inStep) && Orderly(calls, from, duration)
    ensures Tells(UpdatedAll(s, duration, calls), TurnedAll(c, duration, from, calls), duration, LastCall(from, calls),
                  lag + Leftover(from, calls), InStep(s, duration, calls, inStep))
    decreases |calls|
  {
    if calls != [] {
      var call := calls[0];
      UpdatedTells(s, c, duration, from, lag, call, inStep);
      hide Tells, StaysInStep, Updated, Turned, At;
      CallsTell(Updated(s, duration, call.action, call.now), Turned(At(c, duration, call.now - from), call.action),
        duration,
                call.now, lag + (call.now - from) % MILLISECOND, calls[1..],
                call.action.Seek? || StaysInStep(s, duration, call.now, inStep));
    }
  }

  /** The anchored position is the ticking clock exactly when every call and the report made while playing, since the
      last seek or end of the item, come whole milliseconds after the one before. */
  lemma ExactIffInStep(s: State, duration: nat, calls: seq<Call>, now: int)
    requires InRange(s.positionMs, duration) && Orderly(calls, s.updatedAt, duration)
             && LastCall(s.updatedAt, calls) <= now
    ensures Reported(s, duration, calls, now) == Exact(s, duration, calls, now) <==>
            StaysInStep(UpdatedAll(s, duration, calls), duration, now, InStep(s, duration, calls, true))
  {
    var c, last := Clock(s.positionMs * MILLISECOND, s.isPlaying), LastCall(s.updatedAt, calls);
    CallsTell(s, c, duration, s.updatedAt, 0, calls, true);
    hide UpdatedAll, TurnedAll, Leftover, Orderly, InStep, StaysInStep;
    FetchedTells(UpdatedAll(s, duration, calls), TurnedAll(c, duration, s.updatedAt, calls), duration, last,
                 Leftover(s.updatedAt, calls), now, InStep(s, duration, calls, true));
  }

  /** Every call comes whole milliseconds after the one before. */
  predicate OnTicks(from: int, calls: seq<Call>)
    decreases |calls|
  {
    calls == [] || ((calls[0].now - from) % MILLISECOND == 0 && OnTicks(calls[0].now, calls[1..]))
  }

  lemma {:induction false} OnTicksIsInStep(s: State, duration: nat, calls: seq<Call>)
    requires OnTicks(s.updatedAt, calls)
    ensures InStep(s, duration, calls, true)
    decreases |calls|
  {
    if calls != [] {
      var next := Updated(s, duration, calls[0].action, calls[0].now);
      assert StaysInStep(s, duration, calls[0].now, true);
      OnTicksIsInStep(next, duration, calls[1..]);
    }
  }

  /** In particular at millisecond times no call loses time or counts it twice. */
  lemma ExactOnTicks(s: State, duration: nat, calls: seq<Call>, now: int)
    requires InRange(s.positionMs, duration) && Orderly(calls, s.updatedAt, duration)
             && LastCall(s.updatedAt, calls) <= now
    requires OnTicks(s.updatedAt, calls) && (now - LastCall(s.updatedAt, calls)) % MILLISECOND == 0
    ensures Reported(s, duration, calls, now) == Exact(s, duration, calls, now)
  {
    ExactIffInStep(s, duration, calls, now);
    OnTicksIsInStep(s, duration, calls);
    LastAnchor(s, duration, calls);
  }

  lemma {:induction false} LastAnchor(s: State, duration: nat, calls: seq<Call>)
    ensures UpdatedAll(s, duration, calls).updatedAt == LastCall(s.updatedAt, calls)
    decreases |calls|
  {
    if calls != [] { LastAnchor(Updated(s, duration, calls[0].action, calls[0].now), duration, calls[1..]); }
  }

  /** Between ticks every play call of a playing item throws the started millisecond away: called often enough, the
      item stands still. */
  function Plays(from: int, n: nat): seq<Call>
    decreases n
  {
    if n == 0 then [] else [Call(Play, from + MILLISECOND - 1)] + Plays(from + MILLISECOND - 1, n - 1)
  }

  lemma {:induction false} PlaysStandStill(s: State, duration: nat, n: nat)
    requires s.isPlaying && InRange(s.positionMs, duration)
    ensures Orderly(Plays(s.updatedAt, n), s.updatedAt, duration)
    ensures UpdatedAll(s, duration, Plays(s.updatedAt, n)) == s.(updatedAt := s.updatedAt + n * (MILLISECOND - 1))
    decreases n
  {
    if n > 0 {
      var calls := Plays(s.updatedAt, n);
      assert calls[1..] == Plays(s.updatedAt + MILLISECOND - 1, n - 1);
      assert Milliseconds(MILLISECOND - 1) == 0;
      PlaysStandStill(s.(updatedAt := s.updatedAt + MILLISECOND - 1), duration, n - 1);
    }
  }
}
