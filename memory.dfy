/** The sequence-memory game: each round adds one random cell to a target
    sequence, plays it back, and the player must press the cells in order. */
module Memory {
  import opened Prelude

  datatype MemState = MemState(
    sequence: seq<nat>,
    playerSequence: seq<nat>,
    level: nat,
    isPlaying: bool,
    showingSequence: bool,
    score: nat,
    inputLocked: bool)

  /** Points after clearing levels 1 .. level-1: 10 * (1 + 2 + ... + (level - 1)). */
  function ScoreAtLevel(level: nat): nat
  {
    if level <= 1 then 0 else ScoreAtLevel(level - 1) + 10 * (level - 1)
  }

  /** The level is at least 1, the score is what clearing the earlier levels
      earns, and every target cell is a button 0..8. */
  ghost predicate ValidMem(s: MemState)
  {
    && s.level >= 1
    && s.score == ScoreAtLevel(s.level)
    && forall k :: 0 <= k < |s.sequence| ==> s.sequence[k] < 9
  }

  function InitialState(): (s: MemState)
    ensures ValidMem(s) && s.level == 1 && s.score == 0
    ensures s.sequence == [] && s.playerSequence == []
    ensures !s.isPlaying && !s.showingSequence && !s.inputLocked
  {
    MemState([], [], 1, false, false, 0, false)
  }

  /** `reset()`: everything back to the start except `inputLocked`, which it
      leaves as it was. */
  function AfterReset(s: MemState): (t: MemState)
    ensures ValidMem(t) && t.level == 1 && t.score == 0 && t.sequence == [] && t.playerSequence == []
    ensures !t.isPlaying && !t.showingSequence && t.inputLocked == s.inputLocked
  {
    InitialState().(inputLocked := s.inputLocked)
  }

  /** `newRound()` up to the first `await` of `showSequence()`: the player's
      entries are cleared, one cell `Math.floor(r * 9)` is appended to the
      target and the playback begins. */
  function AfterNewRound(s: MemState, r: real): (t: MemState)
    requires 0.0 <= r < 1.0
    ensures |t.sequence| == |s.sequence| + 1 && t.sequence[..|s.sequence|] == s.sequence
    ensures t.sequence[|s.sequence|] < 9
    ensures t.playerSequence == [] && t.showingSequence
    ensures t.level == s.level && t.score == s.score && t.isPlaying == s.isPlaying
    ensures ValidMem(s) ==> ValidMem(t)
  {
    s.(playerSequence := [], sequence := s.sequence + [RandomBelow(r, 9)], showingSequence := true)
  }

  /** `start()`: a reset followed by the first round. */
  function AfterStart(s: MemState, r: real): (t: MemState)
    requires 0.0 <= r < 1.0
    ensures ValidMem(t) && |t.sequence| == 1 && t.level == 1 && t.score == 0
    ensures t.showingSequence && !t.isPlaying && t.playerSequence == []
  {
    AfterNewRound(AfterReset(s), r)
  }

  /** The end of the playback in `showSequence()`: input is now accepted. */
  function AfterPlayback(s: MemState): (t: MemState)
    ensures t.isPlaying && !t.showingSequence
    ensures ValidMem(s) ==> ValidMem(t)
  {
    s.(showingSequence := false, isPlaying := true)
  }

  /** The 300 ms timer armed by a press. */
  function AfterUnlock(s: MemState): (t: MemState)
    ensures !t.inputLocked
    ensures ValidMem(s) ==> ValidMem(t)
  {
    s.(inputLocked := false)
  }

  /** The entry at `step` differs from the target there (also when the target
      has no entry there: `undefined !== position`). */
  predicate Mismatch(target: seq<nat>, step: nat, pos: nat)
  {
    step >= |target| || target[step] != pos
  }

  /** `onButtonPress(position)`: ignored unless input is accepted, no playback
      runs and the input lock is off; otherwise the press is locked and
      recorded, a wrong entry ends the game and the last right entry of the
      round scores `level * 10` and moves to the next level. */
  function AfterPress(s: MemState, pos: nat): (t: MemState)
    ensures !s.isPlaying || s.showingSequence || s.inputLocked ==> t == s
    ensures s.isPlaying && !s.showingSequence && !s.inputLocked ==>
      && t.playerSequence == s.playerSequence + [pos] && t.inputLocked
      && t.sequence == s.sequence && t.showingSequence == s.showingSequence
      && (Mismatch(s.sequence, |s.playerSequence|, pos) ==>
            !t.isPlaying && t.level == s.level && t.score == s.score)
      && (!Mismatch(s.sequence, |s.playerSequence|, pos) && |t.playerSequence| == |s.sequence| ==>
            !t.isPlaying && t.level == s.level + 1 && t.score == s.score + 10 * s.level)
      && (!Mismatch(s.sequence, |s.playerSequence|, pos) && |t.playerSequence| != |s.sequence| ==>
            t.isPlaying && t.level == s.level && t.score == s.score)
    ensures ValidMem(s) ==> ValidMem(t)
  {
    if !s.isPlaying || s.showingSequence || s.inputLocked then s
    else
      var entered := s.(inputLocked := true, playerSequence := s.playerSequence + [pos]);
      var step := |entered.playerSequence| - 1;
      if Mismatch(s.sequence, step, pos) then
        AfterGameOver(entered)
      else if |entered.playerSequence| == |s.sequence| then
        entered.(score := s.score + s.level * 10, level := s.level + 1, isPlaying := false)
      else
        entered
  }

  /** `gameOver()`: input is no longer accepted; the reset follows by timer. */
  function AfterGameOver(s: MemState): (t: MemState)
    ensures !t.isPlaying
    ensures t.sequence == s.sequence && t.playerSequence == s.playerSequence
    ensures t.level == s.level && t.score == s.score
    ensures t.showingSequence == s.showingSequence && t.inputLocked == s.inputLocked
    ensures ValidMem(s) ==> ValidMem(t)
  {
    s.(isPlaying := false)
  }

  /** The player enters `presses` one by one, each after the input lock of the
      previous one has been released. */
  function Enter(s: MemState, presses: seq<nat>): MemState
    decreases presses
  {
    if presses == [] then s
    else Enter(AfterUnlock(AfterPress(s, presses[0])), presses[1..])
  }

  /** Input is being accepted and the player's entries so far are the first
      `done` cells of the target. */
  predicate Accepting(s: MemState, done: nat)
  {
    s.isPlaying && !s.showingSequence && !s.inputLocked
    && done <= |s.sequence| && s.playerSequence == s.sequence[..done]
  }

  /** Entering the rest of the target, from any point of a round, clears the
      round: `level * 10` points, the next level, and input closed until the
      next round. */
  lemma {:induction false} CorrectEntryCompletesRound(s: MemState, done: nat)
    requires Accepting(s, done) && done < |s.sequence|
    ensures var t := Enter(s, s.sequence[done..]);
      && t.level == s.level + 1 && t.score == s.score + 10 * s.level
      && !t.isPlaying && t.playerSequence == s.sequence && t.sequence == s.sequence
    decreases |s.sequence| - done
  {
    var pos := s.sequence[done];
    var next := AfterUnlock(AfterPress(s, pos));
    assert s.playerSequence + [pos] == s.sequence[..done + 1];
    assert s.sequence[done..][1..] == s.sequence[done + 1..];
    if done + 1 < |s.sequence| {
      assert Accepting(next, done + 1);
      CorrectEntryCompletesRound(next, done + 1);
    } else {
      assert s.sequence[done + 1..] == [];
      assert s.sequence[..done + 1] == s.sequence;
    }
  }

  /** A wrong entry at any step ends the game at once, whatever is left of the
      target: the level and the score stay as they were. */
  lemma {:induction false} WrongEntryEndsGame(s: MemState, done: nat, step: nat, wrong: nat)
    requires Accepting(s, done) && done <= step < |s.sequence| && wrong != s.sequence[step]
    ensures var t := Enter(s, s.sequence[done..step] + [wrong]);
      !t.isPlaying && t.level == s.level && t.score == s.score
    decreases step - done
  {
    var presses := s.sequence[done..step] + [wrong];
    if done == step {
      assert presses == [wrong];
      assert presses[1..] == [];
    } else {
      var pos := s.sequence[done];
      var next := AfterUnlock(AfterPress(s, pos));
      assert s.playerSequence + [pos] == s.sequence[..done + 1];
      assert presses[0] == pos;
      assert presses[1..] == s.sequence[done + 1..step] + [wrong];
      assert Accepting(next, done + 1);
      WrongEntryEndsGame(next, done + 1, step, wrong);
    }
  }

  class MemoryGame {
    var sequence: seq<nat>
    var playerSequence: seq<nat>
    var level: nat
    var isPlaying: bool
    var showingSequence: bool
    var score: nat
    var inputLocked: bool

    ghost function State(): MemState
      reads this
    {
      MemState(sequence, playerSequence, level, isPlaying, showingSequence, score, inputLocked)
    }

    ghost predicate Valid()
      reads this
    {
      ValidMem(State())
    }

    constructor ()
      ensures Valid() && State() == InitialState()
    {
      sequence := [];
      playerSequence := [];
      level := 1;
      isPlaying := false;
      showingSequence := false;
      score := 0;
      inputLocked := false;
    }

    /** `reset()`, also the body of the delayed callback after a game over. */
    method Reset()
      requires Valid()
      modifies this
      ensures Valid() && State() == AfterReset(old(State()))
    {
      sequence := [];
      playerSequence := [];
      level := 1;
      isPlaying := false;
      showingSequence := false;
      score := 0;
    }

    method Start(r: real)
      requires Valid() && 0.0 <= r < 1.0
      modifies this
      ensures Valid() && State() == AfterStart(old(State()), r)
    {
      Reset();
      NewRound(r);
    }

    /** `newRound()`, also the body of the delayed callback after a cleared
        round; `r` is the `Math.random()` draw. */
    method NewRound(r: real)
      requires Valid() && 0.0 <= r < 1.0
      modifies this
      ensures Valid() && State() == AfterNewRound(old(State()), r)
    {
      playerSequence := [];
      sequence := sequence + [RandomBelow(r, 9)];
      // showSequence() runs synchronously up to its first await
      showingSequence := true;
    }

    /** The state change at the end of the playback loop of `showSequence()`. */
    method FinishPlayback()
      requires Valid()
      modifies this
      ensures Valid() && State() == AfterPlayback(old(State()))
    {
      showingSequence := false;
      isPlaying := true;
    }

    /** The 300 ms timer armed by a press. */
    method UnlockInput()
      requires Valid()
      modifies this
      ensures Valid() && State() == AfterUnlock(old(State()))
    {
      inputLocked := false;
    }

    method OnButtonPress(position: nat)
      requires Valid()
      modifies this
      ensures Valid() && State() == AfterPress(old(State()), position)
    {
      if !isPlaying || showingSequence || inputLocked {
        return;
      }
      inputLocked := true;
      playerSequence := playerSequence + [position];
      var currentStep := |playerSequence| - 1;
      if Mismatch(sequence, currentStep, position) {
        GameOver();
        return;
      }
      if |playerSequence| == |sequence| {
        score := score + level * 10;
        level := level + 1;
        // the next round is scheduled here; it runs as NewRound
        isPlaying := false;
      }
    }

    method GameOver()
      requires Valid()
      modifies this
      ensures Valid() && State() == AfterGameOver(old(State()))
    {
      isPlaying := false;
    }
  }
}
