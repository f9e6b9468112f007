/** The tic-tac-toe game: a 3x3 board of cells numbered 0..8 row by row, the
    human playing X and a random AI playing O. */
module TicTacToe {
  import opened Prelude

  datatype Player = X | O
  /** A board cell: `''` or the mark of a player. */
  datatype Cell = Empty | Mark(player: Player)

  function Other(p: Player): Player { if p == X then O else X }

  function EmptyBoard(): (b: seq<Cell>)
    ensures |b| == 9 && forall i :: 0 <= i < 9 ==> b[i] == Empty
  {
    seq(9, _ => Empty)
  }

  // ---------------------------------------------------------------------
  // Lines and the win check

  type Line = (nat, nat, nat)

  predicate OnBoard(line: Line) { line.0 < 9 && line.1 < 9 && line.2 < 9 }

  /** The eight patterns `checkWin` scans: three rows, three columns, two diagonals. */
  const WinPatterns: seq<Line> :=
    [(0, 1, 2), (3, 4, 5), (6, 7, 8), (0, 3, 6), (1, 4, 7), (2, 5, 8), (0, 4, 8), (2, 4, 6)]

  /** The three cells of `line` hold the same non-empty mark. */
  predicate LineComplete(b: seq<Cell>, line: Line)
    requires |b| == 9 && OnBoard(line)
  {
    b[line.0] != Empty && b[line.0] == b[line.1] && b[line.0] == b[line.2]
  }

  /** `patterns.some(...)`: some pattern of `patterns` is a complete line. */
  function AnyLineComplete(b: seq<Cell>, patterns: seq<Line>): (r: bool)
    requires |b| == 9
    requires forall k :: 0 <= k < |patterns| ==> OnBoard(patterns[k])
    ensures r <==> exists k :: 0 <= k < |patterns| && LineComplete(b, patterns[k])
  {
    if patterns == [] then false
    else if LineComplete(b, patterns[0]) then true
    else
      var rest := AnyLineComplete(b, patterns[1..]);
      assert forall k :: 1 <= k < |patterns| ==> patterns[k] == patterns[1..][k - 1];
      rest
  }

  /** `checkWin()`: some one of the eight fixed patterns is complete. */
  function CheckWin(b: seq<Cell>): bool
    requires |b| == 9
  {
    AnyLineComplete(b, WinPatterns)
  }

  // An independent, geometric reading of "three in a row".

  predicate SameMark(b: seq<Cell>, i: nat, j: nat, k: nat)
    requires |b| == 9 && i < 9 && j < 9 && k < 9
  {
    b[i] != Empty && b[i] == b[j] && b[i] == b[k]
  }

  predicate RowComplete(b: seq<Cell>, row: nat)
    requires |b| == 9 && row < 3
  {
    SameMark(b, 3 * row, 3 * row + 1, 3 * row + 2)
  }

  predicate ColumnComplete(b: seq<Cell>, col: nat)
    requires |b| == 9 && col < 3
  {
    SameMark(b, col, col + 3, col + 6)
  }

  predicate ThreeInARow(b: seq<Cell>)
    requires |b| == 9
  {
    || (exists row: nat :: row < 3 && RowComplete(b, row))
    || (exists col: nat :: col < 3 && ColumnComplete(b, col))
    || SameMark(b, 0, 4, 8)
    || SameMark(b, 2, 4, 6)
  }

  /** The pattern table is exactly the rows, the columns and the two diagonals. */
  lemma CheckWinIsThreeInARow(b: seq<Cell>)
    requires |b| == 9
    ensures CheckWin(b) <==> ThreeInARow(b)
  {
    if CheckWin(b) {
      var k :| 0 <= k < |WinPatterns| && LineComplete(b, WinPatterns[k]);
      if k < 3 {
        assert RowComplete(b, k);
      } else if k < 6 {
        assert ColumnComplete(b, k - 3);
      }
    }
    if ThreeInARow(b) {
      if row: nat :| row < 3 && RowComplete(b, row) {
        assert LineComplete(b, WinPatterns[row]);
      } else if col: nat :| col < 3 && ColumnComplete(b, col) {
        assert LineComplete(b, WinPatterns[col + 3]);
      } else if SameMark(b, 0, 4, 8) {
        assert LineComplete(b, WinPatterns[6]);
      } else {
        assert LineComplete(b, WinPatterns[7]);
      }
    }
  }

  /** Some pattern holds three marks of `p`. */
  predicate WinsFor(b: seq<Cell>, p: Player)
    requires |b| == 9
  {
    exists k :: 0 <= k < |WinPatterns| && LineComplete(b, WinPatterns[k]) && b[WinPatterns[k].0] == Mark(p)
  }

  /** Placing `p` on an empty cell of a board without a complete line: every
      complete line afterwards runs through that cell, so the win is `p`'s. */
  lemma WinnerIsMover(b: seq<Cell>, pos: nat, p: Player)
    requires |b| == 9 && pos < 9 && b[pos] == Empty && !CheckWin(b)
    ensures var b' := b[pos := Mark(p)];
      forall k :: 0 <= k < |WinPatterns| && LineComplete(b', WinPatterns[k]) ==>
        pos in {WinPatterns[k].0, WinPatterns[k].1, WinPatterns[k].2} && b'[WinPatterns[k].0] == Mark(p)
    ensures CheckWin(b[pos := Mark(p)]) ==> WinsFor(b[pos := Mark(p)], p)
  {
    var b' := b[pos := Mark(p)];
    forall k | 0 <= k < |WinPatterns| && LineComplete(b', WinPatterns[k])
      ensures pos in {WinPatterns[k].0, WinPatterns[k].1, WinPatterns[k].2} && b'[WinPatterns[k].0] == Mark(p)
    {
      var line := WinPatterns[k];
      if pos !in {line.0, line.1, line.2} {
        assert false;
      }
    }
  }

  /** `board.every(cell => cell !== '')`. */
  predicate Full(b: seq<Cell>)
  {
    forall i :: 0 <= i < |b| ==> b[i] != Empty
  }

  // ---------------------------------------------------------------------
  // The AI's choice of cell

  /** The indices `i >= from` with an empty cell, in increasing order
      (`board.map(...).filter(...)` in `aiMove`). */
  function EmptyCellsFrom(b: seq<Cell>, from: nat): (cells: seq<nat>)
    requires from <= |b|
    ensures forall k :: 0 <= k < |cells| ==> from <= cells[k] < |b| && b[cells[k]] == Empty
    ensures forall i :: from <= i < |b| && b[i] == Empty ==> i in cells
    ensures forall k, l :: 0 <= k < l < |cells| ==> cells[k] < cells[l]
    decreases |b| - from
  {
    if from == |b| then []
    else if b[from] == Empty then [from] + EmptyCellsFrom(b, from + 1)
    else EmptyCellsFrom(b, from + 1)
  }

  function EmptyCells(b: seq<Cell>): seq<nat>
  {
    EmptyCellsFrom(b, 0)
  }

  /** No empty cell to choose from exactly when the board is full. */
  lemma EmptyCellsNoneIffFull(b: seq<Cell>)
    ensures |EmptyCells(b)| == 0 <==> Full(b)
  {
    if !Full(b) {
      var i :| 0 <= i < |b| && b[i] == Empty;
      assert i in EmptyCells(b);
    }
    if |EmptyCells(b)| > 0 {
      assert b[EmptyCells(b)[0]] == Empty;
    }
  }

  /** `emptyCells[Math.floor(Math.random() * emptyCells.length)]`: always an
      empty cell of the board. */
  function AiCell(b: seq<Cell>, r: real): (cell: nat)
    requires |b| == 9 && 0.0 <= r < 1.0 && |EmptyCells(b)| > 0
    ensures cell < 9 && b[cell] == Empty
  {
    var cells := EmptyCells(b);
    cells[RandomBelow(r, |cells|)]
  }

  // ---------------------------------------------------------------------
  // The game state and its transitions

  datatype TicState = TicState(
    board: seq<Cell>,
    current: Player,
    gameOver: bool,
    winner: Option<Player>,
    playerTurn: bool)

  /** Exactly one of in progress (no complete line, a free cell, no winner),
      won (the winner owns a complete line) or tied (full, no complete line). */
  ghost predicate ValidTic(s: TicState)
  {
    && |s.board| == 9
    && (!s.gameOver ==> s.winner == None && !CheckWin(s.board) && !Full(s.board))
    && (s.gameOver && s.winner.Some? ==> WinsFor(s.board, s.winner.value))
    && (s.gameOver && s.winner == None ==> Full(s.board) && !CheckWin(s.board))
  }

  /** The state after construction and after `reset()`. */
  function InitialState(): (s: TicState)
    ensures ValidTic(s) && !s.gameOver && s.playerTurn && s.current == X
    ensures forall i :: 0 <= i < 9 ==> s.board[i] == Empty
  {
    var b := EmptyBoard();
    assert !Full(b) by { assert b[0] == Empty; }
    TicState(b, X, false, None, true)
  }

  /** `makeMove(position)`: the mover's mark goes into `position`, and then a
      win, a tie or the next player's turn. */
  function AfterMove(s: TicState, pos: nat): (t: TicState)
    requires |s.board| == 9 && pos < 9
    ensures t.board == s.board[pos := Mark(s.current)]
    ensures CheckWin(t.board) ==> t.gameOver && t.winner == Some(s.current) && t.current == s.current
    ensures !CheckWin(t.board) && Full(t.board) ==>
      t.gameOver && t.winner == s.winner && t.current == s.current
    ensures !CheckWin(t.board) && !Full(t.board) ==>
      && t.gameOver == s.gameOver && t.winner == s.winner
      && t.current == Other(s.current)
      && (t.current == O ==> !t.playerTurn)
      && (t.current == X ==> t.playerTurn == s.playerTurn)
    ensures ValidTic(s) && !s.gameOver && s.board[pos] == Empty ==>
      ValidTic(t) && (t.gameOver && t.winner == None <==> !CheckWin(t.board) && Full(t.board))
  {
    var b := s.board[pos := Mark(s.current)];
    assert ValidTic(s) && !s.gameOver && s.board[pos] == Empty ==>
        (CheckWin(b) ==> WinsFor(b, s.current)) by {
      if ValidTic(s) && !s.gameOver && s.board[pos] == Empty {
        WinnerIsMover(s.board, pos, s.current);
      }
    }
    if CheckWin(b) then
      s.(board := b, gameOver := true, winner := Some(s.current))
    else if Full(b) then
      s.(board := b, gameOver := true)
    else
      var next := Other(s.current);
      s.(board := b, current := next, playerTurn := if next == O then false else s.playerTurn)
  }

  /** `onButtonPress(position)`: ignored when the game is over, the cell is
      taken (or off the board) or it is not the human's turn; otherwise one
      move. A mark once placed is never overwritten. */
  function AfterPress(s: TicState, pos: nat): (t: TicState)
    requires |s.board| == 9
    ensures |t.board| == 9
    ensures s.gameOver || pos >= 9 || s.board[pos] != Empty || !s.playerTurn ==> t == s
    ensures !(s.gameOver || pos >= 9 || s.board[pos] != Empty || !s.playerTurn) ==>
      && t == AfterMove(s, pos)
      && t.board[pos] == Mark(s.current)
      && forall i :: 0 <= i < 9 && i != pos ==> t.board[i] == s.board[i]
    ensures forall i :: 0 <= i < 9 && s.board[i] != Empty ==> t.board[i] == s.board[i]
    ensures ValidTic(s) ==> ValidTic(t)
  {
    if s.gameOver || pos >= 9 || s.board[pos] != Empty || !s.playerTurn then s
    else AfterMove(s, pos)
  }

  /** `aiMove()`, the callback scheduled after the human's move: unless the
      game is over, one mark of the current player on an empty cell chosen by
      the draw `r`, and the human's turn is given back even when that move
      ended the game. */
  function AfterAiMove(s: TicState, r: real): (t: TicState)
    requires |s.board| == 9 && 0.0 <= r < 1.0
    ensures s.gameOver ==> t == s
    ensures !s.gameOver ==> t.playerTurn
    ensures !s.gameOver && !Full(s.board) ==>
      var cell := AiCell(s.board, r);
      && s.board[cell] == Empty && t.board == s.board[cell := Mark(s.current)]
      && t == AfterMove(s, cell).(playerTurn := true)
    ensures ValidTic(s) ==> ValidTic(t)
  {
    EmptyCellsNoneIffFull(s.board);
    if s.gameOver then s
    else
      var cells := EmptyCells(s.board);
      var moved := if |cells| > 0 then AfterMove(s, AiCell(s.board, r)) else s;
      moved.(playerTurn := true)
  }

  /** When O is to move in a game in progress, the AI's move either ends the
      game with O's mark last, or hands the move back to X; either way the
      human's turn is open again. */
  lemma AiMoveHandsBackTurn(s: TicState, r: real)
    requires ValidTic(s) && !s.gameOver && s.current == O && 0.0 <= r < 1.0
    ensures var t := AfterAiMove(s, r);
      && t.playerTurn
      && (t.gameOver ==> t.current == O)
      && (!t.gameOver ==> t.current == X)
  {
  }

  // ---------------------------------------------------------------------
  // The class

  class TicTacToeGame {
    const board: array<Cell>
    var currentPlayer: Player
    var gameOver: bool
    var winner: Option<Player>
    var isPlayerTurn: bool

    ghost function State(): TicState
      reads this, board
    {
      TicState(board[..], currentPlayer, gameOver, winner, isPlayerTurn)
    }

    ghost predicate Valid()
      reads this, board
    {
      board.Length == 9 && ValidTic(State())
    }

    constructor ()
      ensures Valid() && fresh(board) && State() == InitialState()
    {
      board := new Cell[9](_ => Empty);
      currentPlayer := X;
      gameOver := false;
      winner := None;
      isPlayerTurn := true;
      new;
      assert board[..] == InitialState().board;
    }

    /** `reset()`, also the body of the delayed callback after a win or a tie.
        The board is cleared in place. */
    method Reset()
      requires Valid()
      modifies this, board
      ensures Valid() && State() == InitialState()
    {
      forall i | 0 <= i < board.Length {
        board[i] := Empty;
      }
      currentPlayer := X;
      gameOver := false;
      winner := None;
      isPlayerTurn := true;
      assert board[..] == InitialState().board;
    }

    method Start()
      requires Valid()
      modifies this, board
      ensures Valid() && State() == InitialState()
    {
      Reset();
    }

    method OnButtonPress(position: nat)
      requires Valid()
      modifies this, board
      ensures Valid() && State() == AfterPress(old(State()), position)
    {
      if gameOver || position >= board.Length || board[position] != Empty || !isPlayerTurn {
        return;
      }
      MakeMove(position);
    }

    method MakeMove(position: nat)
      requires Valid() && !gameOver && position < 9 && board[position] == Empty
      modifies this, board
      ensures Valid() && State() == AfterMove(old(State()), position)
    {
      board[position] := Mark(currentPlayer);
      if CheckWin(board[..]) {
        gameOver := true;
        winner := Some(currentPlayer);
      } else if Full(board[..]) {
        gameOver := true;
      } else {
        currentPlayer := Other(currentPlayer);
        if currentPlayer == O {
          // the AI move is scheduled here; it runs as AiMove
          isPlayerTurn := false;
        }
      }
    }

    /** `aiMove()`, run by the timer that `MakeMove` arms; `r` is the
        `Math.random()` draw. */
    method AiMove(r: real)
      requires Valid() && 0.0 <= r < 1.0
      modifies this, board
      ensures Valid() && State() == AfterAiMove(old(State()), r)
    {
      if gameOver {
        return;
      }
      var cells := EmptyCells(board[..]);
      if |cells| > 0 {
        MakeMove(AiCell(board[..], r));
      }
      isPlayerTurn := true;
    }
  }
}
