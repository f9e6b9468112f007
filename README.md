# Game logic of the ESP32 button-matrix console, in Dafny

`games.js` runs three small games on a 3x3 matrix of physical buttons. The
buttons are read by an ESP32 and arrive as frames of nine booleans. This
project models the logic of its four classes as Dafny classes with the same
fields, and proves what that logic promises:

- **`GameEngine`** (module `Engine`) picks the current game from a
  `gameId` taken modulo 3 with JavaScript's remainder. It drops malformed
  frames and frames under 50 ms apart, and turns each frame into the list of
  buttons that went down since the previous frame. That list is dispatched
  50 ms later as one pending batch; a newer batch replaces an older one.
- **`TicTacToeGame`** (module `TicTacToe`) is a nine-cell board held in an
  `array`. The human plays X and a random AI plays O. The win check scans the
  eight fixed lines, and the human is locked out while the AI's move is
  pending.
- **`MemoryGame`** (module `Memory`) grows a target sequence by one random
  cell per round and matches the player's presses against it position by
  position.
- **`ReactionGame`** (module `Reaction`) is a phase machine: idle, ready,
  waiting, finished. It keeps the number of attempts, the total time and the
  best time over 50 ms.

Each game has two layers:

- **A value layer.** A datatype holds the game's state, and one function per
  operation (`AfterPress`, `AfterMove`, `AfterRecord`, …) gives the state
  afterwards. These functions carry the properties, each with the invariant
  it keeps: `ValidTic`, `ValidMem` or `ValidReact`.
- **A class.** It has the fields of the JavaScript class. Each method changes
  them in place, requires and ensures `Valid()`, and ties the new state to
  the matching function: `State() == AfterX(old(State()), …)`, or
  `State() == InitialState()` for the tic-tac-toe reset.

The engine's pending dispatch is a loop over the batch. It is specified by
`DispatchAll`, which is built from the per-press `Dispatch`. The rising-edge
scan is also a loop (`CollectPressed`), proved equal to the function
`RisingEdges`.

The program's environment appears only as parameters:

- Every `setTimeout` callback is a separate method that a caller may run at
  any time, in any state:
  - the AI move (`TicTacToeGame.AiMove`);
  - the next round (`MemoryGame.NewRound`);
  - the auto-resets (`Reset`);
  - the end of the playback (`MemoryGame.FinishPlayback`);
  - the go-signal (`ReactionGame.GoSignal`);
  - the return to idle (`ReactionGame.ReturnToIdle`);
  - the input-lock releases (`UnlockInput`);
  - the pending dispatch (`GameEngine.FirePending`).
- `Date.now()` is a parameter `now`.
- `Math.random()` is a parameter `r` with `0.0 <= r < 1.0`.
  `Math.floor(r * n)` is `Prelude.RandomBelow`.

The following behaviours of the code are modelled as written:

- A negative `gameId` gives a negative remainder, so `games[...]` is
  `undefined` and no game is current. The exception is a multiple of 3,
  where `-0` selects game 0.
- `aiMove` hands the turn back to the human even after a move that ended the
  game.
- `MemoryGame.reset` keeps `inputLocked`.
- `ReactionGame.reset` keeps `gameState` and the statistics.
- The `tooEarly` branch of `ReactionGame.onButtonPress` is present. The
  phase is never `TooEarly`: `ValidReact` states this and every operation
  preserves it, so the branch is unreachable.

## Model

| member | source | states |
|---|---|---|
| Prelude.RandomBelow | games.js:214 | `Math.floor(Math.random() * n)` is always an index below `n` |
| TicTacToe.AnyLineComplete | games.js:228-231 | `patterns.some(...)` is true exactly when some pattern in the list has three equal non-empty marks |
| TicTacToe.CheckWinIsThreeInARow | games.js:221-232 | the eight-pattern table says "win" exactly when some row, column or diagonal of the 3x3 grid holds three equal marks |
| TicTacToe.WinnerIsMover | games.js:178-183 | on a board with no complete line, after a mark is placed every complete line runs through the new cell and belongs to the mover |
| TicTacToe.EmptyCellsFrom | games.js:212 | the filtered list holds exactly the empty cells from `from` onwards, in increasing order |
| TicTacToe.EmptyCellsNoneIffFull | games.js:212-213 | the AI has no cell to choose exactly when the board is full |
| TicTacToe.AiCell | games.js:212-214 | the AI's random choice is always an empty cell of the board |
| TicTacToe.InitialState | games.js:114-120 | the game starts in progress on an empty board with X to move and the human's turn open |
| TicTacToe.AfterMove | games.js:177-206 | the mover's mark is placed; a complete line ends the game with the mover as winner; otherwise a full board ends it without a winner; otherwise the player toggles and the human is locked out exactly when O is next. From a valid game in progress, exactly one of in progress, won and tied holds afterwards |
| TicTacToe.AfterPress | games.js:170-174 | when the game is over, the cell is taken or off the board, or it is not the human's turn, nothing changes; otherwise the press is one `AfterMove`: exactly `board[position]` gets the current mark and no other cell changes. A placed mark is never overwritten, and validity is kept |
| TicTacToe.AfterAiMove | games.js:209-218 | a finished game is left alone; otherwise the move is one `AfterMove` on the empty cell chosen by the draw, and the turn then returns to the human; validity is kept |
| TicTacToe.AiMoveHandsBackTurn | games.js:199-217 | when O is to move, the AI's move either ends the game with O's mark last or gives the move back to X; the human's turn is open again either way |
| TicTacToe.TicTacToeGame.constructor | games.js:114-120 | a fresh nine-cell board in the initial state |
| TicTacToe.TicTacToeGame.Reset | games.js:160-167 | the board and every field are back to the initial state |
| TicTacToe.TicTacToeGame.Start | games.js:155-157 | same as a reset |
| TicTacToe.TicTacToeGame.OnButtonPress | games.js:170-174 | the new state is `AfterPress` of the old one, and validity is kept |
| TicTacToe.TicTacToeGame.MakeMove | games.js:177-206 | the array and fields change as `AfterMove` says, and validity is kept |
| TicTacToe.TicTacToeGame.AiMove | games.js:209-218 | the array and fields change as `AfterAiMove` says, and validity is kept |
| Memory.InitialState | games.js:268-276 | level 1, score 0, no target and no entries, no playback, input not accepted and not locked; the invariant holds |
| Memory.AfterReset | games.js:306-315 | level 1, score 0, no target and no entries, no playback, input not accepted; `inputLocked` stays as it was |
| Memory.AfterNewRound | games.js:318-324 | the target grows by exactly one cell in 0..8 and keeps its prefix; the player's entries are cleared and the playback begins; level and score are kept |
| Memory.AfterStart | games.js:299-303 | a one-cell target at level 1 with score 0, with the playback running |
| Memory.AfterPlayback | games.js:337-338 | at the end of the playback, input is accepted and the invariant is kept |
| Memory.AfterUnlock | games.js:351-353 | the 300 ms lock release clears `inputLocked` and keeps the invariant |
| Memory.AfterPress | games.js:343-375 | ignored unless input is accepted, no playback runs and the lock is off; otherwise the press is appended and the lock set. A mismatch at that step ends input with level and score kept; a match that completes the target adds `level * 10`, moves up one level and ends input; any other match keeps input open. The score stays `ScoreAtLevel(level)` |
| Memory.CorrectEntryCompletesRound | games.js:343-375 | entering the rest of the target one press at a time, from any point in a round, always clears it: one level up, `10 * level` more points, input closed |
| Memory.WrongEntryEndsGame | games.js:358-363 | a wrong press at any step, after correct ones, ends input with level and score unchanged |
| Memory.AfterGameOver | games.js:378-379 | input is no longer accepted and every other field is kept; the invariant is kept |
| Memory.MemoryGame.constructor | games.js:268-276 | fields in the initial state |
| Memory.MemoryGame.Reset | games.js:306-315 | the new state is `AfterReset` of the old one |
| Memory.MemoryGame.Start | games.js:299-303 | the new state is `AfterStart` of the old one |
| Memory.MemoryGame.NewRound | games.js:318-324 | `sequence.push` of the drawn cell, as `AfterNewRound` says |
| Memory.MemoryGame.FinishPlayback | games.js:337-338 | the new state is `AfterPlayback` of the old one |
| Memory.MemoryGame.UnlockInput | games.js:351-353 | the new state is `AfterUnlock` of the old one |
| Memory.MemoryGame.OnButtonPress | games.js:343-375 | the new state is `AfterPress` of the old one, and validity is kept |
| Memory.MemoryGame.GameOver | games.js:378-379 | the new state is `AfterGameOver` of the old one, and validity is kept |
| Reaction.BestOfFirstIsLeast | games.js:551-553 | over any prefix of the recorded times, the best time kept by the update rule is the least time above 50 ms in it, and there is none exactly when none is above 50 ms |
| Reaction.BestOfIsLeast | games.js:551-553 | the best time kept by the update rule is the least recorded time above 50 ms, and there is none exactly when no time was above 50 ms |
| Reaction.InitialState | games.js:437-445 | idle, no best time, no attempts; the invariant holds |
| Reaction.AfterReset | games.js:485-489 | only `isWaiting` and `startTime` change; the phase and the statistics stay |
| Reaction.AfterRecord | games.js:543-556 | nothing changes outside `waiting`; otherwise finished, one more attempt, the elapsed time added to the total, and the best time changes exactly when the elapsed time is below it and above 50 ms, and then to that time. `bestTime` stays the least time above 50 ms, `totalTime` the sum |
| Reaction.AfterPress | games.js:503-517 | a locked press changes nothing; otherwise the lock is set, idle becomes ready, waiting records the reaction, and any other phase changes nothing else |
| Reaction.AfterStartReaction | games.js:520-521 | the phase becomes ready, and the lock and the statistics are kept; the invariant is kept |
| Reaction.AfterGoSignal | games.js:531-539 | only from ready: waiting, with the clock started at `now` |
| Reaction.AfterUnlock | games.js:506-508 | the 200 ms lock release clears `inputLocked` and keeps the phase |
| Reaction.AfterResultShown | games.js:582-585 | back to idle with the best time, the attempts, the total time and the recorded history kept |
| Reaction.ReactionGame.constructor | games.js:437-445 | fields in the initial state |
| Reaction.ReactionGame.Reset | games.js:485-489 | the new state is `AfterReset` of the old one |
| Reaction.ReactionGame.Start | games.js:479-482 | same as a reset |
| Reaction.ReactionGame.OnButtonPress | games.js:503-517 | the new state is `AfterPress` of the old one, and validity is kept |
| Reaction.ReactionGame.StartReaction | games.js:520-521 | the new state is `AfterStartReaction` of the old one, and validity is kept |
| Reaction.ReactionGame.GoSignal | games.js:531-539 | the new state is `AfterGoSignal` of the old one |
| Reaction.ReactionGame.RecordReaction | games.js:543-556 | the new state is `AfterRecord` of the old one, and validity is kept |
| Reaction.ReactionGame.UnlockInput | games.js:506-508 | the new state is `AfterUnlock` of the old one |
| Reaction.ReactionGame.ReturnToIdle | games.js:582-585 | the new state is `AfterResultShown` of the old one |
| Engine.JsRemainder | games.js:24 | JavaScript's `%`: it agrees with the mathematical remainder for `a >= 0`; for `a < 0` it is zero or that remainder minus `n` |
| Engine.SelectedGame | games.js:24-25 | a game is selected exactly when `id` is not negative or is a multiple of 3, and then it is the game at `id mod 3` |
| Engine.RisingEdgesBelow | games.js:69-76 | the list holds exactly the buttons below `n` that are down now and were not down before, in increasing order |
| Engine.NoEdgesAddNothing | games.js:69-79 | buttons without a rising edge add nothing to the list |
| Engine.CollectPressed | games.js:67-76 | the `forEach` loop builds exactly `RisingEdges(buttons, lastButtonState)` |
| Engine.Dispatch | games.js:100-108 | the current game takes the press by its own `onButtonPress`, and the other games do not change; with no current game nothing changes; validity is kept |
| Engine.DispatchAll | games.js:83-87 | a batch changes only the current game; an empty batch or no current game changes nothing; validity is kept |
| Engine.DispatchOne | games.js:84-86 | a batch of one press is that press |
| Engine.DispatchAllAppend | games.js:84-86 | the presses of a batch reach the game one after the other, in order: dispatching `a + b` is dispatching `a` and then `b` |
| Engine.AfterResetGame | games.js:43-50 | the current game is reset by its own `reset`, and the other games do not change; validity is kept |
| Engine.AfterStartGame | games.js:36-39 | the current game is started by its own `start`, and the other games do not change; validity is kept |
| Engine.GameEngine.constructor | games.js:4-17 | three fresh games in their initial states, no current game, id 0, nine released buttons, time 0, no pending batch |
| Engine.GameEngine.SwitchGame | games.js:20-29 | `gameId` is `id % 3` in JavaScript's sense and the current game is the one at that key, if any; nothing else changes |
| Engine.GameEngine.StartGame | games.js:32-40 | a switch, then the start of the selected game as `AfterStartGame` says |
| Engine.GameEngine.ResetGame | games.js:43-50 | the games change as `AfterResetGame` says |
| Engine.GameEngine.HandleInput | games.js:53-97 | with no current game or no button array, nothing changes; a frame under 50 ms after the last accepted one changes nothing; otherwise the time and the button state are taken from the frame, a non-empty list of rising edges replaces the pending batch, and a `reset` flag resets the current game |
| Engine.GameEngine.ProcessGameInput | games.js:100-108 | the games change as `Dispatch` says |
| Engine.GameEngine.FirePending | games.js:83-87 | the pending batch, if any, goes to the current game as `DispatchAll` says, and nothing is pending afterwards |
| Engine.StartedOn | games.js:299-303 | starting the memory game with the draw `r` gives the one-cell target `Math.floor(r * 9)` at level 1, with the playback running |
| Engine.OnlyButton | games.js:67-76 | a first frame holding only button `c` has exactly one rising edge, button `c` |
| Engine.MemoryRoundThroughDispatch | games.js:20-40 | for every draw: selecting and starting game 1, finishing the playback and dispatching a frame that presses the drawn cell clears level 1 with 10 points and leaves the other games alone |

## Left out

- Rendering and all page output are not modelled: `render`, `updateDisplay`, `updateStatus`, `highlightButton`, `clearHighlight`, `waitForStart`, `alert`, and the feedback texts of `showResult`. `console` logging is also left out.
- The tic-tac-toe scores exist only as page text (games.js:256-262), so they are not modelled.
- The average reaction time is a floating-point value computed for display with `Math.round`, so it is not modelled.
- Timers are not a queue here. Each callback is a method any caller may run at any time. The model does not capture the timer delays or the order in which timers fire.
- The memory playback awaits between highlights. Only its state change at the end is modelled (`FinishPlayback`).
- `clearTimeout(this.reactionTimeout)` in `recordReaction` is not modelled. In the `waiting` phase the go-signal timer has already fired, so the call has no effect.
- The random delay of the go-signal is not modelled; `GoSignal` takes the time at which it fires.
- `clearTimeout(this.inputTimeout)` is modelled only as the replacement of the pending batch.
- `data` is reduced to what `handleInput` reads. Either it is falsy, or it has a `buttons` field that is either not an array or an array whose elements are read as booleans, plus the truthiness of `reset`. Elements of other types are represented by their truthiness.
- `inputBuffer` and `debugMode` are never read by the modelled logic, so they are left out.
- The `try`/`catch` blocks of `handleInput` and `processGameInput` are left out, because no modelled operation throws.
- `TicTacToe.TicTacToeGame.Reset` clears the board array in place, where games.js allocates a new array.
- `Engine.GameEngine.StartGame` takes the id explicitly. The default argument `this.gameId` is the caller passing `gameId`.
- `Engine.MemoryRoundThroughDispatch` is stated on the value layer: the class methods are tied to those functions by their contracts, and no single method runs the whole scenario.
- config.js is not part of this model: it is a constant table that the game logic never reads.
