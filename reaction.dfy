/** The reaction-time test: a press arms a random delay, the "go" signal
    starts the clock, and the next press records the elapsed time. */
module Reaction {
  import opened Prelude

  /** The values of `gameState`. `TooEarly` is tested for but never assigned. */
  datatype Phase = Idle | Ready | Waiting | TooEarly | Finished

  /** Times at or below this many milliseconds never become the best time. */
  const NoiseThreshold: int := 50

  /** `bestTime` is `None` where games.js holds `Infinity`. `times` is the
      history of recorded reaction times, kept for the proofs only. */
  datatype ReactState = ReactState(
    isWaiting: bool,
    startTime: int,
    bestTime: Option<int>,
    attempts: nat,
    totalTime: int,
    phase: Phase,
    inputLocked: bool,
    times: seq<int>)

  /** `reactionTime < this.bestTime && reactionTime > 50`. */
  predicate Improves(t: int, best: Option<int>)
  {
    (best.None? || t < best.value) && t > NoiseThreshold
  }

  /** The best time over the first `n` recorded times, in the order they
      were recorded: each later time replaces it exactly when it improves on
      it. */
  function BestOfFirst(ts: seq<int>, n: nat): Option<int>
    requires n <= |ts|
  {
    if n == 0 then None
    else
      var m := BestOfFirst(ts, n - 1);
      if Improves(ts[n - 1], m) then Some(ts[n - 1]) else m
  }

  /** The best time over all recorded times. */
  function BestOf(ts: seq<int>): Option<int>
  {
    BestOfFirst(ts, |ts|)
  }

  /** The sum of the first `n` recorded times. */
  function SumFirst(ts: seq<int>, n: nat): int
    requires n <= |ts|
  {
    if n == 0 then 0 else SumFirst(ts, n - 1) + ts[n - 1]
  }

  function Sum(ts: seq<int>): int
  {
    SumFirst(ts, |ts|)
  }

  /** Over the first `n` times, the best time is the least time above 50 ms,
      and there is none exactly when none of them is above 50 ms. */
  lemma {:induction false} BestOfFirstIsLeast(ts: seq<int>, n: nat)
    requires n <= |ts|
    ensures var m := BestOfFirst(ts, n);
      && (m.Some? ==> m.value > NoiseThreshold && exists k :: 0 <= k < n && ts[k] == m.value)
      && (m.Some? ==> forall k :: 0 <= k < n && ts[k] > NoiseThreshold ==> m.value <= ts[k])
      && (m.None? ==> forall k :: 0 <= k < n ==> ts[k] <= NoiseThreshold)
  {
    if n > 0 {
      BestOfFirstIsLeast(ts, n - 1);
    }
  }

  /** The best time is the least recorded time above 50 ms, and there is
      none exactly when no recorded time is above 50 ms. */
  lemma BestOfIsLeast(ts: seq<int>)
    ensures BestOf(ts).Some? ==> BestOf(ts).value in ts && BestOf(ts).value > NoiseThreshold
    ensures BestOf(ts).Some? ==> forall k :: 0 <= k < |ts| && ts[k] > NoiseThreshold ==> BestOf(ts).value <= ts[k]
    ensures BestOf(ts).None? ==> forall k :: 0 <= k < |ts| ==> ts[k] <= NoiseThreshold
  {
    BestOfFirstIsLeast(ts, |ts|);
  }

  /** Appending a time leaves the best time and the sum of the earlier times
      as they were. */
  lemma {:induction false} EarlierTimesUnchanged(ts: seq<int>, t: int, n: nat)
    requires n <= |ts|
    ensures BestOfFirst(ts + [t], n) == BestOfFirst(ts, n)
    ensures SumFirst(ts + [t], n) == SumFirst(ts, n)
  {
    if n > 0 {
      EarlierTimesUnchanged(ts, t, n - 1);
      assert (ts + [t])[n - 1] == ts[n - 1];
    }
  }

  /** A proof step, not a property of the game: `BestOf` and `Sum` on a
      history that grew by one time. */
  lemma RecordOneMore(ts: seq<int>, t: int)
    ensures BestOf(ts + [t]) == if Improves(t, BestOf(ts)) then Some(t) else BestOf(ts)
    ensures Sum(ts + [t]) == Sum(ts) + t
  {
    EarlierTimesUnchanged(ts, t, |ts|);
  }

  /** `bestTime` is the least recorded time above 50 ms (`Infinity` if there
      is none), `totalTime` the sum and `attempts` the number of recorded
      times, and the phase is never `TooEarly` and `isWaiting` never set. */
  ghost predicate ValidReact(s: ReactState)
  {
    && s.phase != TooEarly
    && !s.isWaiting
    && s.attempts == |s.times|
    && s.totalTime == Sum(s.times)
    && s.bestTime == BestOf(s.times)
  }

  function InitialState(): (s: ReactState)
    ensures ValidReact(s) && s.phase == Idle && s.bestTime == None && s.attempts == 0
  {
    ReactState(false, 0, None, 0, 0, Idle, false, [])
  }

  /** `reset()`: only `isWaiting` and `startTime`; the phase and the
      statistics stay. */
  function AfterReset(s: ReactState): (t: ReactState)
    ensures !t.isWaiting && t.startTime == 0
    ensures t.phase == s.phase && t.bestTime == s.bestTime && t.attempts == s.attempts
    ensures t.totalTime == s.totalTime && t.inputLocked == s.inputLocked
    ensures ValidReact(s) ==> ValidReact(t)
  {
    s.(isWaiting := false, startTime := 0)
  }

  /** `recordReaction()` at time `now`: only in `Waiting`; the phase becomes
      `Finished`, one more attempt, the elapsed time added to the total, and
      the best time replaced only by a time both below it and above 50 ms. */
  function AfterRecord(s: ReactState, now: int): (t: ReactState)
    ensures s.phase != Waiting ==> t == s
    ensures s.phase == Waiting ==>
      var elapsed := now - s.startTime;
      && t.phase == Finished && t.attempts == s.attempts + 1
      && t.totalTime == s.totalTime + elapsed
      && (t.bestTime != s.bestTime <==> Improves(elapsed, s.bestTime))
      && (t.bestTime != s.bestTime ==> t.bestTime == Some(elapsed))
    ensures ValidReact(s) ==> ValidReact(t)
  {
    if s.phase != Waiting then s
    else
      var elapsed := now - s.startTime;
      var ts := s.times + [elapsed];
      RecordOneMore(s.times, elapsed);
      s.(phase := Finished, attempts := s.attempts + 1, totalTime := s.totalTime + elapsed,
         bestTime := if Improves(elapsed, s.bestTime) then Some(elapsed) else s.bestTime,
         times := ts)
  }

  /** `onButtonPress(position)` at time `now`: ignored while the 200 ms input
      lock is on; otherwise the lock is set, `Idle` moves to `Ready`,
      `Waiting` records the reaction, and any other phase changes nothing
      else (`TooEarly` would only show a message). */
  function AfterPress(s: ReactState, now: int): (t: ReactState)
    ensures s.inputLocked ==> t == s
    ensures !s.inputLocked ==> t.inputLocked
    ensures !s.inputLocked && s.phase == Idle ==>
      t.phase == Ready && t.bestTime == s.bestTime && t.attempts == s.attempts && t.totalTime == s.totalTime
    ensures !s.inputLocked && s.phase == Waiting ==> t == AfterRecord(s, now).(inputLocked := true)
    ensures !s.inputLocked && s.phase in {Ready, TooEarly, Finished} ==> t == s.(inputLocked := true)
    ensures ValidReact(s) ==> ValidReact(t)
  {
    if s.inputLocked then s
    else
      var locked := s.(inputLocked := true);
      match s.phase
      case Idle => AfterStartReaction(locked)
      case Waiting => AfterRecord(locked, now)
      case TooEarly => locked
      case _ => locked
  }

  /** `startReaction()`: the phase becomes `Ready`; the go-signal timer is
      armed here. */
  function AfterStartReaction(s: ReactState): (t: ReactState)
    ensures t.phase == Ready && t.inputLocked == s.inputLocked
    ensures t.bestTime == s.bestTime && t.attempts == s.attempts && t.totalTime == s.totalTime
    ensures ValidReact(s) ==> ValidReact(t)
  {
    s.(phase := Ready)
  }

  /** The body of the timer `startReaction()` arms: if still `Ready`, the
      "go" signal, with the clock started at `now`. */
  function AfterGoSignal(s: ReactState, now: int): (t: ReactState)
    ensures s.phase == Ready ==> t.phase == Waiting && t.startTime == now
    ensures s.phase != Ready ==> t == s
    ensures ValidReact(s) ==> ValidReact(t)
  {
    if s.phase == Ready then s.(phase := Waiting, startTime := now) else s
  }

  /** The 200 ms timer armed by a press. */
  function AfterUnlock(s: ReactState): (t: ReactState)
    ensures !t.inputLocked && t.phase == s.phase
    ensures ValidReact(s) ==> ValidReact(t)
  {
    s.(inputLocked := false)
  }

  /** The 3 s timer at the end of `showResult()`: back to `Idle`. */
  function AfterResultShown(s: ReactState): (t: ReactState)
    ensures t.phase == Idle && t.bestTime == s.bestTime && t.attempts == s.attempts
    ensures t.totalTime == s.totalTime && t.times == s.times
    ensures ValidReact(s) ==> ValidReact(t)
  {
    s.(phase := Idle)
  }

  class ReactionGame {
    var isWaiting: bool
    var startTime: int
    var bestTime: Option<int>
    var attempts: nat
    var totalTime: int
    var gameState: Phase
    var inputLocked: bool
    ghost var times: seq<int>

    ghost function State(): ReactState
      reads this
    {
      ReactState(isWaiting, startTime, bestTime, attempts, totalTime, gameState, inputLocked, times)
    }

    ghost predicate Valid()
      reads this
    {
      ValidReact(State())
    }

    constructor ()
      ensures Valid() && State() == InitialState()
    {
      isWaiting := false;
      startTime := 0;
      bestTime := None;
      attempts := 0;
      totalTime := 0;
      gameState := Idle;
      inputLocked := false;
      times := [];
    }

    method Reset()
      requires Valid()
      modifies this
      ensures Valid() && State() == AfterReset(old(State()))
    {
      isWaiting := false;
      startTime := 0;
    }

    /** `start()`: a reset; the rest of it only redraws the page. */
    method Start()
      requires Valid()
      modifies this
      ensures Valid() && State() == AfterReset(old(State()))
    {
      Reset();
    }

    method OnButtonPress(position: nat, now: int)
      requires Valid()
      modifies this
      ensures Valid() && State() == AfterPress(old(State()), now)
    {
      if inputLocked {
        return;
      }
      // the 200 ms unlock is scheduled here; it runs as UnlockInput
      inputLocked := true;
      if gameState == Idle {
        StartReaction();
      } else if gameState == Waiting {
        RecordReaction(now);
      } else if gameState == TooEarly {
        // showResult(-1) only redraws the page and schedules ReturnToIdle
      }
    }

    /** `startReaction()`: the "go" timer is armed here; it runs as GoSignal. */
    method StartReaction()
      requires Valid()
      modifies this
      ensures Valid() && State() == AfterStartReaction(old(State()))
    {
      gameState := Ready;
    }

    /** The body of the timer armed by `startReaction()`. */
    method GoSignal(now: int)
      requires Valid()
      modifies this
      ensures Valid() && State() == AfterGoSignal(old(State()), now)
    {
      if gameState == Ready {
        gameState := Waiting;
        startTime := now;
      }
    }

    method RecordReaction(now: int)
      requires Valid()
      modifies this
      ensures Valid() && State() == AfterRecord(old(State()), now)
    {
      if gameState != Waiting {
        return;
      }
      var reactionTime := now - startTime;
      RecordOneMore(times, reactionTime);
      gameState := Finished;
      attempts := attempts + 1;
      totalTime := totalTime + reactionTime;
      if Improves(reactionTime, bestTime) {
        bestTime := Some(reactionTime);
      }
      times := times + [reactionTime];
      // showResult(reactionTime) schedules ReturnToIdle
    }

    /** The 200 ms timer armed by a press. */
    method UnlockInput()
      requires Valid()
      modifies this
      ensures Valid() && State() == AfterUnlock(old(State()))
    {
      inputLocked := false;
    }

    /** The 3 s timer armed by `showResult()`. */
    method ReturnToIdle()
      requires Valid()
      modifies this
      ensures Valid() && State() == AfterResultShown(old(State()))
    {
      gameState := Idle;
    }
  }
}
