/** The dispatcher: it selects the active game, debounces and edge-detects the
    controller's button frames, and forwards each new press to the game. */
module Engine {
  import opened Prelude
  import TicTacToe
  import Memory
  import Reaction

  /** The three entries of the `games` table, under keys 0, 1 and 2. */
  datatype GameKind = TicTacToeKind | MemoryKind | ReactionKind

  /** `data.buttons`: not an array, or an array given by the truthiness of its
      elements. */
  datatype Buttons = NotAnArray | ButtonArray(values: seq<bool>)

  /** The argument of `handleInput`: falsy, or an object with `buttons` and
      the truthiness of `reset`. */
  datatype InputData = NoData | Frame(buttons: Buttons, reset: bool)

  /** Frames closer together than this many milliseconds are dropped. */
  const MinFrameGap: int := 50

  /** The number of physical buttons, the length of the initial `lastButtonState`. */
  const ButtonCount: nat := 9

  // ---------------------------------------------------------------------
  // Selecting a game

  /** JavaScript's `a % n` for `n > 0`: truncated toward zero, so it takes the
      sign of `a` (Dafny's `%` never is negative). */
  function JsRemainder(a: int, n: int): (r: int)
    requires n > 0
    ensures -n < r < n
    ensures a >= 0 ==> r == a % n
    ensures a < 0 ==> r <= 0 && (r == 0 <==> a % n == 0) && (r != 0 ==> r + n == a % n)
  {
    if a >= 0 then a % n
    else
      var m := (-a) % n;
      assert m == 0 ==> a % n == 0 by {
        if m == 0 { EuclideanRemainder(a, n, -((-a) / n), 0); }
      }
      assert m != 0 ==> a % n == n - m by {
        if m != 0 { EuclideanRemainder(a, n, -((-a) / n) - 1, n - m); }
      }
      -m
  }

  /** Dafny's `%` is the unique remainder in [0, n). */
  lemma EuclideanRemainder(x: int, n: int, k: int, r: int)
    requires n > 0 && x == k * n + r && 0 <= r < n
    ensures x % n == r
  {
    var d := x / n - k;
    assert d * n == r - x % n;
  }

  /** `this.games[key]`: `undefined` for every key but 0, 1 and 2. */
  function GameAt(key: int): Option<GameKind>
  {
    if key == 0 then Some(TicTacToeKind)
    else if key == 1 then Some(MemoryKind)
    else if key == 2 then Some(ReactionKind)
    else None
  }

  /** The game `switchGame(id)` makes current: the one at `id mod 3` when `id`
      is not negative or is a multiple of 3 (JavaScript's `-3 % 3` is `-0`,
      which is key 0), and none for every other negative `id`. */
  function SelectedGame(id: int): (g: Option<GameKind>)
    ensures g.Some? <==> id >= 0 || id % 3 == 0
    ensures g.Some? ==> g == GameAt(id % 3)
  {
    GameAt(JsRemainder(id, 3))
  }

  // ---------------------------------------------------------------------
  // Rising edges

  /** `this.lastButtonState[i]` read as a condition: `undefined` past the end. */
  predicate Held(state: seq<bool>, i: nat)
  {
    i < |state| && state[i]
  }

  /** Button `i` is down now and was not down in the previous frame. */
  predicate RisingEdge(buttons: seq<bool>, last: seq<bool>, i: nat)
    requires i < |buttons|
  {
    buttons[i] && !Held(last, i)
  }

  /** The rising edges among the first `n` buttons, in increasing order. */
  function RisingEdgesBelow(buttons: seq<bool>, last: seq<bool>, n: nat): (pressed: seq<nat>)
    requires n <= |buttons|
    ensures forall k :: 0 <= k < |pressed| ==> pressed[k] < n && RisingEdge(buttons, last, pressed[k])
    ensures forall i :: 0 <= i < n && RisingEdge(buttons, last, i) ==> i in pressed
    ensures forall k, l :: 0 <= k < l < |pressed| ==> pressed[k] < pressed[l]
  {
    if n == 0 then []
    else RisingEdgesBelow(buttons, last, n - 1) + (if RisingEdge(buttons, last, n - 1) then [n - 1] else [])
  }

  /** Exactly the buttons that went down since `last`, in increasing order. */
  function RisingEdges(buttons: seq<bool>, last: seq<bool>): seq<nat>
  {
    RisingEdgesBelow(buttons, last, |buttons|)
  }

  /** Buttons `m .. n-1` bring no rising edge, so they add nothing to the list;
      with `m == 0`, a frame without rising edges schedules no dispatch. */
  lemma {:induction false} NoEdgesAddNothing(buttons: seq<bool>, last: seq<bool>, m: nat, n: nat)
    requires m <= n <= |buttons|
    requires forall i :: m <= i < n ==> !RisingEdge(buttons, last, i)
    ensures RisingEdgesBelow(buttons, last, n) == RisingEdgesBelow(buttons, last, m)
    decreases n - m
  {
    if m < n {
      NoEdgesAddNothing(buttons, last, m, n - 1);
    }
  }

  /** The `forEach` of `handleInput` that builds `buttonPressed`. */
  method CollectPressed(buttons: seq<bool>, last: seq<bool>) returns (pressed: seq<nat>)
    ensures pressed == RisingEdges(buttons, last)
  {
    pressed := [];
    for i := 0 to |buttons|
      invariant pressed == RisingEdgesBelow(buttons, last, i)
    {
      if buttons[i] && !Held(last, i) {
        pressed := pressed + [i];
      }
    }
  }

  // ---------------------------------------------------------------------
  // The games as values

  datatype GamesState = GamesState(
    ticTacToe: TicTacToe.TicState,
    memory: Memory.MemState,
    reaction: Reaction.ReactState)

  ghost predicate ValidGames(g: GamesState)
  {
    TicTacToe.ValidTic(g.ticTacToe) && Memory.ValidMem(g.memory) && Reaction.ValidReact(g.reaction)
  }

  /** `processGameInput(button)` at time `now`: the press goes to the current
      game, if any, and no other game changes. */
  function Dispatch(g: GamesState, current: Option<GameKind>, button: nat, now: int): (h: GamesState)
    requires |g.ticTacToe.board| == 9
    ensures |h.ticTacToe.board| == 9
    ensures current.None? ==> h == g
    ensures current != Some(TicTacToeKind) ==> h.ticTacToe == g.ticTacToe
    ensures current != Some(MemoryKind) ==> h.memory == g.memory
    ensures current != Some(ReactionKind) ==> h.reaction == g.reaction
    ensures current == Some(TicTacToeKind) ==> h.ticTacToe == TicTacToe.AfterPress(g.ticTacToe, button)
    ensures current == Some(MemoryKind) ==> h.memory == Memory.AfterPress(g.memory, button)
    ensures current == Some(ReactionKind) ==> h.reaction == Reaction.AfterPress(g.reaction, now)
    ensures ValidGames(g) ==> ValidGames(h)
  {
    match current
    case None => g
    case Some(TicTacToeKind) => g.(ticTacToe := TicTacToe.AfterPress(g.ticTacToe, button))
    case Some(MemoryKind) => g.(memory := Memory.AfterPress(g.memory, button))
    case Some(ReactionKind) => g.(reaction := Reaction.AfterPress(g.reaction, now))
  }

  /** The pending dispatch: every button of `batch`, in order, at time `now`. */
  function DispatchAll(g: GamesState, current: Option<GameKind>, batch: seq<nat>, now: int): (h: GamesState)
    requires |g.ticTacToe.board| == 9
    ensures |h.ticTacToe.board| == 9
    ensures current.None? || batch == [] ==> h == g
    ensures current != Some(TicTacToeKind) ==> h.ticTacToe == g.ticTacToe
    ensures current != Some(MemoryKind) ==> h.memory == g.memory
    ensures current != Some(ReactionKind) ==> h.reaction == g.reaction
    ensures ValidGames(g) ==> ValidGames(h)
  {
    if batch == [] then g
    else Dispatch(DispatchAll(g, current, batch[..|batch| - 1], now), current, batch[|batch| - 1], now)
  }

  /** A batch of one press is that press. */
  lemma DispatchOne(g: GamesState, current: Option<GameKind>, button: nat, now: int)
    requires |g.ticTacToe.board| == 9
    ensures DispatchAll(g, current, [button], now) == Dispatch(g, current, button, now)
  {
    assert [button][..0] == [];
  }

  /** The presses of a batch go to the game one after the other, in the order
      of the batch: dispatching `a + b` is dispatching `a` and then `b`. */
  lemma {:induction false} DispatchAllAppend(g: GamesState, current: Option<GameKind>, a: seq<nat>, b: seq<nat>, now: int)
    requires |g.ticTacToe.board| == 9
    ensures DispatchAll(g, current, a + b, now) == DispatchAll(DispatchAll(g, current, a, now), current, b, now)
    decreases |b|
  {
    if b == [] {
      assert a + b == a;
    } else {
      var init := b[..|b| - 1];
      assert (a + b)[..|a + b| - 1] == a + init;
      assert (a + b)[|a + b| - 1] == b[|b| - 1];
      DispatchAllAppend(g, current, a, init, now);
    }
  }

  /** `resetGame()`: the current game's `reset()`. */
  function AfterResetGame(g: GamesState, current: Option<GameKind>): (h: GamesState)
    ensures current != Some(TicTacToeKind) ==> h.ticTacToe == g.ticTacToe
    ensures current != Some(MemoryKind) ==> h.memory == g.memory
    ensures current != Some(ReactionKind) ==> h.reaction == g.reaction
    ensures current == Some(TicTacToeKind) ==> h.ticTacToe == TicTacToe.InitialState()
    ensures current == Some(MemoryKind) ==> h.memory == Memory.AfterReset(g.memory)
    ensures current == Some(ReactionKind) ==> h.reaction == Reaction.AfterReset(g.reaction)
    ensures ValidGames(g) ==> ValidGames(h)
  {
    match current
    case None => g
    case Some(TicTacToeKind) => g.(ticTacToe := TicTacToe.InitialState())
    case Some(MemoryKind) => g.(memory := Memory.AfterReset(g.memory))
    case Some(ReactionKind) => g.(reaction := Reaction.AfterReset(g.reaction))
  }

  /** The current game's `start()`; `r` is the draw the memory game uses. */
  function AfterStartGame(g: GamesState, current: Option<GameKind>, r: real): (h: GamesState)
    requires 0.0 <= r < 1.0
    ensures current != Some(TicTacToeKind) ==> h.ticTacToe == g.ticTacToe
    ensures current != Some(MemoryKind) ==> h.memory == g.memory
    ensures current != Some(ReactionKind) ==> h.reaction == g.reaction
    ensures current == Some(TicTacToeKind) ==> h.ticTacToe == TicTacToe.InitialState()
    ensures current == Some(MemoryKind) ==> h.memory == Memory.AfterStart(g.memory, r)
    ensures current == Some(ReactionKind) ==> h.reaction == Reaction.AfterReset(g.reaction)
    ensures ValidGames(g) ==> ValidGames(h)
  {
    match current
    case None => g
    case Some(TicTacToeKind) => g.(ticTacToe := TicTacToe.InitialState())
    case Some(MemoryKind) => g.(memory := Memory.AfterStart(g.memory, r))
    case Some(ReactionKind) => g.(reaction := Reaction.AfterReset(g.reaction))
  }

  // ---------------------------------------------------------------------
  // The class

  class GameEngine {
    const ticTacToe: TicTacToe.TicTacToeGame
    const memory: Memory.MemoryGame
    const reaction: Reaction.ReactionGame
    var currentGame: Option<GameKind>
    var gameId: int
    var lastButtonState: seq<bool>
    var lastInputTime: int
    /** The batch of the live `inputTimeout`, if one is armed. */
    var pending: Option<seq<nat>>

    ghost function Games(): GamesState
      reads ticTacToe, ticTacToe.board, memory, reaction
    {
      GamesState(ticTacToe.State(), memory.State(), reaction.State())
    }

    ghost predicate Valid()
      reads this, ticTacToe, ticTacToe.board, memory, reaction
    {
      && ticTacToe.Valid() && memory.Valid() && reaction.Valid()
      && (pending.Some? ==> pending.value != [])
    }

    constructor ()
      ensures Valid() && fresh(ticTacToe) && fresh(ticTacToe.board) && fresh(memory) && fresh(reaction)
      ensures currentGame == None && gameId == 0 && lastInputTime == 0 && pending == None
      ensures lastButtonState == seq(ButtonCount, _ => false)
      ensures Games() == GamesState(TicTacToe.InitialState(), Memory.InitialState(), Reaction.InitialState())
    {
      ticTacToe := new TicTacToe.TicTacToeGame();
      memory := new Memory.MemoryGame();
      reaction := new Reaction.ReactionGame();
      currentGame := None;
      gameId := 0;
      lastButtonState := seq(ButtonCount, _ => false);
      lastInputTime := 0;
      pending := None;
    }

    /** `switchGame(id)`; rendering the game is left out. */
    method SwitchGame(id: int)
      requires Valid()
      modifies this
      ensures Valid() && gameId == JsRemainder(id, 3) && currentGame == SelectedGame(id)
      ensures lastButtonState == old(lastButtonState) && lastInputTime == old(lastInputTime)
      ensures pending == old(pending)
    {
      gameId := JsRemainder(id, 3);
      currentGame := GameAt(gameId);
    }

    /** `startGame(id)`; the default argument is the caller's `gameId`. */
    method StartGame(id: int, r: real)
      requires Valid() && 0.0 <= r < 1.0
      modifies this, ticTacToe, ticTacToe.board, memory, reaction
      ensures Valid() && gameId == JsRemainder(id, 3) && currentGame == SelectedGame(id)
      ensures lastButtonState == old(lastButtonState) && lastInputTime == old(lastInputTime)
      ensures pending == old(pending)
      ensures Games() == AfterStartGame(old(Games()), currentGame, r)
    {
      SwitchGame(id);
      match currentGame {
        case None =>
        case Some(TicTacToeKind) => ticTacToe.Start();
        case Some(MemoryKind) => memory.Start(r);
        case Some(ReactionKind) => reaction.Start();
      }
    }

    method ResetGame()
      requires Valid()
      modifies ticTacToe, ticTacToe.board, memory, reaction
      ensures Valid() && Games() == AfterResetGame(old(Games()), currentGame)
    {
      match currentGame {
        case None =>
        case Some(TicTacToeKind) => ticTacToe.Reset();
        case Some(MemoryKind) => memory.Reset();
        case Some(ReactionKind) => reaction.Reset();
      }
    }

    /** `handleInput(data)` with `Date.now()` equal to `now`. */
    method HandleInput(data: InputData, now: int)
      requires Valid()
      modifies this, ticTacToe, ticTacToe.board, memory, reaction
      ensures Valid() && currentGame == old(currentGame) && gameId == old(gameId)
      ensures old(currentGame).None? || !data.Frame? || !data.buttons.ButtonArray? ==>
        && lastButtonState == old(lastButtonState) && lastInputTime == old(lastInputTime)
        && pending == old(pending) && Games() == old(Games())
      ensures old(currentGame).Some? && data.Frame? && data.buttons.ButtonArray? && now - old(lastInputTime) < MinFrameGap ==>
        && lastButtonState == old(lastButtonState) && lastInputTime == old(lastInputTime)
        && pending == old(pending) && Games() == old(Games())
      ensures old(currentGame).Some? && data.Frame? && data.buttons.ButtonArray? && now - old(lastInputTime) >= MinFrameGap ==>
        var pressed := RisingEdges(data.buttons.values, old(lastButtonState));
        && lastInputTime == now && lastButtonState == data.buttons.values
        && pending == (if pressed != [] then Some(pressed) else old(pending))
        && Games() == (if data.reset then AfterResetGame(old(Games()), currentGame) else old(Games()))
    {
      if currentGame.None? {
        return;
      }
      if !data.Frame? || !data.buttons.ButtonArray? {
        return;
      }
      var currentTime := now;
      if currentTime - lastInputTime < MinFrameGap {
        return;
      }
      lastInputTime := currentTime;
      var buttonPressed := CollectPressed(data.buttons.values, lastButtonState);
      lastButtonState := data.buttons.values;
      if |buttonPressed| > 0 {
        // clearTimeout of the earlier batch and setTimeout of this one, 50 ms
        pending := Some(buttonPressed);
      }
      if data.reset {
        ResetGame();
      }
    }

    /** `processGameInput(button)` at time `now`. */
    method ProcessGameInput(button: nat, now: int)
      requires Valid()
      modifies ticTacToe, ticTacToe.board, memory, reaction
      ensures Valid() && Games() == Dispatch(old(Games()), currentGame, button, now)
    {
      match currentGame {
        case None =>
        case Some(TicTacToeKind) => ticTacToe.OnButtonPress(button);
        case Some(MemoryKind) => memory.OnButtonPress(button);
        case Some(ReactionKind) => reaction.OnButtonPress(button, now);
      }
    }

    /** The body of the 50 ms `inputTimeout`, firing at time `now`: every
        button of the pending batch goes to the game current at that time. */
    method FirePending(now: int)
      requires Valid()
      modifies this, ticTacToe, ticTacToe.board, memory, reaction
      ensures Valid() && pending == None
      ensures currentGame == old(currentGame) && gameId == old(gameId)
      ensures lastButtonState == old(lastButtonState) && lastInputTime == old(lastInputTime)
      ensures Games() == match old(pending)
        case None => old(Games())
        case Some(batch) => DispatchAll(old(Games()), currentGame, batch, now)
    {
      if pending.None? {
        return;
      }
      var buttonPressed := pending.value;
      pending := None;
      for i := 0 to |buttonPressed|
        invariant Valid() && pending == None
        invariant currentGame == old(currentGame) && gameId == old(gameId)
        invariant lastButtonState == old(lastButtonState) && lastInputTime == old(lastInputTime)
        invariant Games() == DispatchAll(old(Games()), currentGame, buttonPressed[..i], now)
      {
        assert buttonPressed[..i + 1][..i] == buttonPressed[..i];
        ProcessGameInput(buttonPressed[i], now);
      }
      assert buttonPressed[..|buttonPressed|] == buttonPressed;
    }
  }

  /** The memory game started with the draw `r` plays back a one-cell target,
      the cell `Math.floor(r * 9)`; the start keeps the input lock as it was. */
  lemma StartedOn(m: Memory.MemState, r: real)
    requires 0.0 <= r < 1.0
    ensures Memory.AfterStart(m, r) == Memory.MemState([RandomBelow(r, 9)], [], 1, false, true, 0, m.inputLocked)
  {
  }

  /** A frame holding button `c` only; after the initial all-released state
      its one rising edge is button `c`. */
  function OnlyButton(c: nat): (buttons: seq<bool>)
    requires c < ButtonCount
    ensures |buttons| == ButtonCount
    ensures RisingEdges(buttons, seq(ButtonCount, _ => false)) == [c]
  {
    var buttons := seq(ButtonCount, i => i == c);
    var last := seq(ButtonCount, _ => false);
    assert RisingEdges(buttons, last) == [c] by {
      NoEdgesAddNothing(buttons, last, 0, c);
      assert RisingEdgesBelow(buttons, last, c + 1) == [c];
      NoEdgesAddNothing(buttons, last, c + 1, |buttons|);
    }
    buttons
  }

  /** A memory round driven through the dispatcher: game 1 is selected and
      started with the draw `r`, the playback finishes, and a first frame
      holding only the drawn cell's button is dispatched. The memory game
      clears level 1 with 10 points and the other two games do not change. A
      start does not clear the memory game's input lock, so the lock must be
      off before. */
  lemma MemoryRoundThroughDispatch(g: GamesState, r: real, now: int)
    requires |g.ticTacToe.board| == 9 && !g.memory.inputLocked && 0.0 <= r < 1.0
    ensures var current := SelectedGame(1);
      var started := AfterStartGame(g, current, r);
      var playing := started.(memory := Memory.AfterPlayback(started.memory));
      var frame := OnlyButton(RandomBelow(r, 9));
      var h := DispatchAll(playing, current, RisingEdges(frame, seq(ButtonCount, _ => false)), now);
      && current == Some(MemoryKind)
      && h.memory.level == 2 && h.memory.score == 10 && !h.memory.isPlaying
      && h.ticTacToe == g.ticTacToe && h.reaction == g.reaction
  {
    var started := AfterStartGame(g, Some(MemoryKind), r);
    var playing := started.(memory := Memory.AfterPlayback(started.memory));
    StartedOn(g.memory, r);
    DispatchOne(playing, Some(MemoryKind), RandomBelow(r, 9), now);
  }
}
