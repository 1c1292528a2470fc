/**
 * The rules engine of a 15x15 five-in-a-row (Omok/Gomoku) game: the board,
 * whose turn it is, the game status, move validation, placing a stone,
 * detecting a line of five through the stone just placed, the status line
 * and the shape check a loaded state goes through. The text coordinate
 * parser is in module Coordinates.
 *
 * Cells hold the text the saved state holds ("black", "white", "empty"):
 * a loaded board is shape-checked only, so any text may appear in a cell.
 */
module Omok {
  import opened Optional
  import opened PyText

  /** Side length of the board. */
  const BoardSize := 15

  /** Number of cells; a move that brings the move count to it without a win ends in a draw. */
  const CellCount := BoardSize * BoardSize

  /** The player enumeration; `Empty` doubles as the marker of an empty cell. */
  datatype Player = Black | White | Empty

  datatype GameStatus = Ongoing | BlackWins | WhiteWins | Draw

  /** The text a cell holds for each player (the enumeration's value). */
  function Value(p: Player): string {
    match p
    case Black => "black"
    case White => "white"
    case Empty => "empty"
  }

  /** (row, column) of a cell. */
  type Coord = (int, int)

  /** The complete state as it is saved and loaded. */
  datatype GameData = GameData(
    board: seq<seq<string>>,
    currentPlayer: Player,
    gameStatus: GameStatus,
    moveCount: int,
    winner: Option<Player>,
    lastMove: Option<Coord>)

  predicate OnBoard(row: int, col: int) {
    0 <= row < BoardSize && 0 <= col < BoardSize
  }

  /** The board has exactly 15 rows of exactly 15 cells. */
  predicate IsGrid(board: seq<seq<string>>) {
    |board| == BoardSize && forall i | 0 <= i < |board| :: |board[i]| == BoardSize
  }

  function EmptyBoard(): seq<seq<string>> {
    seq(BoardSize, _ => seq(BoardSize, _ => Value(Empty)))
  }

  /** The state reset_game builds. */
  function NewGame(): GameData {
    GameData(EmptyBoard(), Black, Ongoing, 0, None, None)
  }

  // ---------------------------------------------------------------------------
  // Counting stones

  /** Number of cells in a row that do not hold the empty marker. */
  function RowStones(row: seq<string>): (n: nat)
    ensures n <= |row|
  {
    if row == [] then 0
    else (if row[0] != Value(Empty) then 1 else 0) + RowStones(row[1..])
  }

  /** Number of cells on the board that do not hold the empty marker. */
  function Stones(board: seq<seq<string>>): nat {
    if board == [] then 0 else RowStones(board[0]) + Stones(board[1..])
  }

  lemma {:induction false} RowStonesUpdate(row: seq<string>, c: nat, v: string)
    requires c < |row| && row[c] == Value(Empty) && v != Value(Empty)
    ensures RowStones(row[c := v]) == RowStones(row) + 1
  {
    if c > 0 {
      assert row[c := v][1..] == row[1..][c - 1 := v];
      RowStonesUpdate(row[1..], c - 1, v);
    }
  }

  /** Writing a stone into an empty cell adds exactly one stone to the count. */
  lemma {:induction false} StonesUpdate(board: seq<seq<string>>, r: nat, c: nat, v: string)
    requires r < |board| && c < |board[r]| && board[r][c] == Value(Empty) && v != Value(Empty)
    ensures Stones(board[r := board[r][c := v]]) == Stones(board) + 1
  {
    if r == 0 {
      RowStonesUpdate(board[0], c, v);
      assert board[r := board[r][c := v]][1..] == board[1..];
    } else {
      assert board[r := board[r][c := v]][1..] == board[1..][r - 1 := board[r][c := v]];
      StonesUpdate(board[1..], r - 1, c, v);
    }
  }

  lemma {:induction false} RowStonesNone(row: seq<string>)
    requires forall i | 0 <= i < |row| :: row[i] == Value(Empty)
    ensures RowStones(row) == 0
  {
    if row != [] {
      RowStonesNone(row[1..]);
    }
  }

  lemma {:induction false} StonesNone(board: seq<seq<string>>)
    requires forall i, j | 0 <= i < |board| && 0 <= j < |board[i]| :: board[i][j] == Value(Empty)
    ensures Stones(board) == 0
  {
    if board != [] {
      RowStonesNone(board[0]);
      StonesNone(board[1..]);
    }
  }

  lemma {:induction false} RowStonesFull(row: seq<string>)
    requires forall i | 0 <= i < |row| :: row[i] != Value(Empty)
    ensures RowStones(row) == |row|
  {
    if row != [] {
      RowStonesFull(row[1..]);
    }
  }

  /** A board with fewer stones than rows times columns has an empty cell. */
  lemma {:induction false} StonesBelowSizeHasEmpty(board: seq<seq<string>>, width: nat)
    requires forall i | 0 <= i < |board| :: |board[i]| == width
    requires Stones(board) < |board| * width
    ensures exists i, j | 0 <= i < |board| && 0 <= j < width :: board[i][j] == Value(Empty)
  {
    if forall j | 0 <= j < width :: board[0][j] != Value(Empty) {
      RowStonesFull(board[0]);
      StonesBelowSizeHasEmpty(board[1..], width);
      var i, j :| 0 <= i < |board[1..]| && 0 <= j < width && board[1..][i][j] == Value(Empty);
      assert board[i + 1][j] == Value(Empty);
    }
  }

  // ---------------------------------------------------------------------------
  // Validation

  /**
   * is_valid_move: the game is ongoing, the coordinates are on the board and
   * the cell is empty, checked in that order so the cell is only read when
   * the coordinates are in range.
   */
  function IsValidMove(s: GameData, row: int, col: int): (ok: bool)
    requires IsGrid(s.board)
    ensures ok <==> s.gameStatus == Ongoing && OnBoard(row, col) && s.board[row][col] == Value(Empty)
  {
    if s.gameStatus != Ongoing then false
    else if row < 0 || row >= BoardSize || col < 0 || col >= BoardSize then false
    else s.board[row][col] == Value(Empty)
  }

  // ---------------------------------------------------------------------------
  // Win detection

  /** The four axes check_win scans: horizontal, vertical and the two diagonals. */
  const Directions: seq<Coord> := [(0, 1), (1, 0), (1, 1), (1, -1)]

  predicate IsDirection(d: Coord) {
    -1 <= d.0 <= 1 && -1 <= d.1 <= 1 && d != (0, 0)
  }

  function Reverse(d: Coord): Coord {
    (-d.0, -d.1)
  }

  /** Steps from (row, col) along d until the board edge is passed; bounds every scan. */
  function StepsLeft(row: int, col: int, d: Coord): int {
    if d.0 == 1 then BoardSize - row
    else if d.0 == -1 then row + 1
    else if d.1 == 1 then BoardSize - col
    else col + 1
  }

  /** The cell (row, col) is on the board and holds v. */
  predicate Holds(board: seq<seq<string>>, v: string, row: int, col: int)
    requires IsGrid(board)
  {
    OnBoard(row, col) && board[row][col] == v
  }

  /** The cell t steps from (row, col) along d is on the board and holds v. */
  predicate HoldsAt(board: seq<seq<string>>, v: string, row: int, col: int, d: Coord, t: int)
    requires IsGrid(board)
  {
    Holds(board, v, row + t * d.0, col + t * d.1)
  }

  /** Number of consecutive cells holding v starting at (row, col) and stepping along d. */
  function Run(board: seq<seq<string>>, v: string, row: int, col: int, d: Coord): nat
    requires IsGrid(board) && IsDirection(d)
    decreases StepsLeft(row, col, d)
  {
    if OnBoard(row, col) && board[row][col] == v then 1 + Run(board, v, row + d.0, col + d.1, d)
    else 0
  }

  /**
   * Length of the line through (row, col) along d as check_win counts it:
   * the placed stone itself plus the runs on both sides.
   */
  function LineLength(board: seq<seq<string>>, v: string, row: int, col: int, d: Coord): nat
    requires IsGrid(board) && IsDirection(d)
  {
    1 + Run(board, v, row + d.0, col + d.1, d) + Run(board, v, row - d.0, col - d.1, Reverse(d))
  }

  /** check_win's verdict: some axis carries a line of five or more (overlines win too). */
  predicate WinsAt(board: seq<seq<string>>, v: string, row: int, col: int)
    requires IsGrid(board)
  {
    exists i | 0 <= i < |Directions| :: LineLength(board, v, row, col, Directions[i]) >= 5
  }

  /** Five consecutive cells along d, the first of them k steps behind (row, col), all hold v. */
  predicate FiveFrom(board: seq<seq<string>>, v: string, row: int, col: int, d: Coord, k: int)
    requires IsGrid(board)
  {
    forall t | -k <= t < 5 - k :: HoldsAt(board, v, row, col, d, t)
  }

  /**
   * The rule itself: five consecutive cells holding v lie on one of the four
   * axes and (row, col) is one of them.
   */
  predicate FiveThrough(board: seq<seq<string>>, v: string, row: int, col: int)
    requires IsGrid(board)
  {
    exists i, k | 0 <= i < |Directions| && 0 <= k < 5 :: FiveFrom(board, v, row, col, Directions[i], k)
  }

  /** One step forward along d is one more step from the original cell. */
  lemma ForwardStep(board: seq<seq<string>>, v: string, row: int, col: int, d: Coord, t: int)
    requires IsGrid(board) && d in Directions
    ensures HoldsAt(board, v, row + d.0, col + d.1, d, t) == HoldsAt(board, v, row, col, d, t + 1)
  {
  }

  /** A step along the reversed axis is a negative step along d. */
  lemma BackwardStep(board: seq<seq<string>>, v: string, row: int, col: int, d: Coord, t: int)
    requires IsGrid(board) && d in Directions
    ensures HoldsAt(board, v, row - d.0, col - d.1, Reverse(d), t) == HoldsAt(board, v, row, col, d, -(t + 1))
  {
  }

  /** Every cell a run covers holds v. */
  lemma {:induction false} RunCovers(board: seq<seq<string>>, v: string, row: int, col: int, d: Coord, t: int)
    requires IsGrid(board) && IsDirection(d)
    requires 0 <= t < Run(board, v, row, col, d)
    ensures HoldsAt(board, v, row, col, d, t)
    decreases t
  {
    if t > 0 {
      RunCovers(board, v, row + d.0, col + d.1, d, t - 1);
      assert row + d.0 + (t - 1) * d.0 == row + t * d.0;
      assert col + d.1 + (t - 1) * d.1 == col + t * d.1;
    }
  }

  /** A run is at least as long as any prefix of cells that all hold v. */
  lemma {:induction false} RunAtLeast(board: seq<seq<string>>, v: string, row: int, col: int, d: Coord, m: nat)
    requires IsGrid(board) && IsDirection(d)
    requires forall t | 0 <= t < m :: HoldsAt(board, v, row, col, d, t)
    ensures Run(board, v, row, col, d) >= m
    decreases m
  {
    if m > 0 {
      assert HoldsAt(board, v, row, col, d, 0);
      var row', col' := row + d.0, col + d.1;
      forall t | 0 <= t < m - 1
        ensures HoldsAt(board, v, row', col', d, t)
      {
        assert HoldsAt(board, v, row, col, d, t + 1);
        assert row' + t * d.0 == row + (t + 1) * d.0;
        assert col' + t * d.1 == col + (t + 1) * d.1;
      }
      RunAtLeast(board, v, row', col', d, m - 1);
    }
  }

  /** The cells the forward run counts are the ones 1, 2, ... steps ahead of (row, col). */
  lemma AheadHolds(board: seq<seq<string>>, v: string, row: int, col: int, d: Coord)
    requires IsGrid(board) && d in Directions
    ensures forall t | 1 <= t <= Run(board, v, row + d.0, col + d.1, d) :: HoldsAt(board, v, row, col, d, t)
  {
    forall t | 1 <= t <= Run(board, v, row + d.0, col + d.1, d)
      ensures HoldsAt(board, v, row, col, d, t)
    {
      RunCovers(board, v, row + d.0, col + d.1, d, t - 1);
      ForwardStep(board, v, row, col, d, t - 1);
    }
  }

  /** The cells the backward run counts are the ones 1, 2, ... steps behind (row, col). */
  lemma BehindHolds(board: seq<seq<string>>, v: string, row: int, col: int, d: Coord)
    requires IsGrid(board) && d in Directions
    ensures forall t | -(Run(board, v, row - d.0, col - d.1, Reverse(d)) as int) <= t < 0 :: HoldsAt(board, v, row, col, d, t)
  {
    forall t | -(Run(board, v, row - d.0, col - d.1, Reverse(d)) as int) <= t < 0
      ensures HoldsAt(board, v, row, col, d, t)
    {
      RunCovers(board, v, row - d.0, col - d.1, Reverse(d), -t - 1);
      BackwardStep(board, v, row, col, d, -t - 1);
    }
  }

  /** A line of five or more counted through (row, col) along d lays out five cells holding v. */
  lemma LongLineHasFive(board: seq<seq<string>>, v: string, row: int, col: int, d: Coord)
    requires IsGrid(board) && d in Directions && Holds(board, v, row, col)
    requires LineLength(board, v, row, col, d) >= 5
    ensures exists k | 0 <= k < 5 :: FiveFrom(board, v, row, col, d, k)
  {
    var back := Run(board, v, row - d.0, col - d.1, Reverse(d));
    var k := if back >= 4 then 4 else back;
    AheadHolds(board, v, row, col, d);
    BehindHolds(board, v, row, col, d);
    assert HoldsAt(board, v, row, col, d, 0) by {
      assert row + 0 * d.0 == row && col + 0 * d.1 == col;
    }
    assert FiveFrom(board, v, row, col, d, k);
  }

  /** Five cells holding v along d through (row, col) make the counted line at least five long. */
  lemma FiveMakesLongLine(board: seq<seq<string>>, v: string, row: int, col: int, d: Coord, k: int)
    requires IsGrid(board) && d in Directions && 0 <= k < 5
    requires FiveFrom(board, v, row, col, d, k)
    ensures LineLength(board, v, row, col, d) >= 5
  {
    var ahead, behind := (row + d.0, col + d.1), (row - d.0, col - d.1);
    forall t | 0 <= t < 4 - k
      ensures HoldsAt(board, v, ahead.0, ahead.1, d, t)
    {
      ForwardStep(board, v, row, col, d, t);
    }
    RunAtLeast(board, v, ahead.0, ahead.1, d, 4 - k);
    forall t | 0 <= t < k
      ensures HoldsAt(board, v, behind.0, behind.1, Reverse(d), t)
    {
      BackwardStep(board, v, row, col, d, t);
    }
    RunAtLeast(board, v, behind.0, behind.1, Reverse(d), k);
  }

  /**
   * check_win's run counting decides the rule: with v at (row, col), some
   * axis counts five or more exactly when five consecutive cells holding v
   * pass through (row, col).
   */
  lemma WinsAtIffFiveThrough(board: seq<seq<string>>, v: string, row: int, col: int)
    requires IsGrid(board) && Holds(board, v, row, col)
    ensures WinsAt(board, v, row, col) <==> FiveThrough(board, v, row, col)
  {
    forall i | 0 <= i < |Directions|
      ensures LineLength(board, v, row, col, Directions[i]) >= 5
              <==> exists k | 0 <= k < 5 :: FiveFrom(board, v, row, col, Directions[i], k)
    {
      if LineLength(board, v, row, col, Directions[i]) >= 5 {
        LongLineHasFive(board, v, row, col, Directions[i]);
      }
      if k :| 0 <= k < 5 && FiveFrom(board, v, row, col, Directions[i], k) {
        FiveMakesLongLine(board, v, row, col, Directions[i], k);
      }
    }
  }

  // ---------------------------------------------------------------------------
  // Applying a move

  /** The player make_move hands the turn to: White after Black, Black otherwise. */
  function Opponent(p: Player): Player {
    if p == Black then White else Black
  }

  /** The status a win by p sets: BlackWins for Black, WhiteWins otherwise. */
  function WinStatus(p: Player): GameStatus {
    if p == Black then BlackWins else WhiteWins
  }

  /**
   * make_move after validation: the mover's stone is written at (row, col),
   * the last move and the move count are updated, and then exactly one of
   * three branches runs: a win freezes the turn on the winner, a full count
   * without a win is a draw, and otherwise the turn passes.
   */
  function AfterMove(s: GameData, row: int, col: int): (t: GameData)
    requires IsGrid(s.board) && IsValidMove(s, row, col)
    ensures IsGrid(t.board)
    ensures t.board[row][col] == Value(s.currentPlayer)
    ensures forall r, c | OnBoard(r, c) && (r, c) != (row, col) :: t.board[r][c] == s.board[r][c]
    ensures t.lastMove == Some((row, col)) && t.moveCount == s.moveCount + 1
    ensures FiveThrough(t.board, Value(s.currentPlayer), row, col) ==>
              && t.gameStatus == WinStatus(s.currentPlayer)
              && t.winner == Some(s.currentPlayer)
              && t.currentPlayer == s.currentPlayer
    ensures !FiveThrough(t.board, Value(s.currentPlayer), row, col) && t.moveCount >= CellCount ==>
              && t.gameStatus == Draw
              && t.winner == s.winner
              && t.currentPlayer == s.currentPlayer
    ensures !FiveThrough(t.board, Value(s.currentPlayer), row, col) && t.moveCount < CellCount ==>
              && t.gameStatus == Ongoing
              && t.winner == s.winner
              && t.currentPlayer == Opponent(s.currentPlayer)
  {
    var p := s.currentPlayer;
    var board := s.board[row := s.board[row][col := Value(p)]];
    var placed := s.(board := board, lastMove := Some((row, col)), moveCount := s.moveCount + 1);
    WinsAtIffFiveThrough(board, Value(p), row, col);
    if WinsAt(board, Value(p), row, col) then
      placed.(winner := Some(p), gameStatus := WinStatus(p))
    else if placed.moveCount >= CellCount then
      placed.(gameStatus := Draw)
    else
      placed.(currentPlayer := Opponent(p))
  }

  /** What make_move leaves behind: the moved state, or the same state when the move is invalid. */
  function MakeMoveResult(s: GameData, row: int, col: int): (t: GameData)
    requires IsGrid(s.board)
    ensures IsGrid(t.board)
  {
    if IsValidMove(s, row, col) then AfterMove(s, row, col) else s
  }

  /** The state after make_move is called with each coordinate of `moves` in turn. */
  function PlayAll(s: GameData, moves: seq<Coord>): (t: GameData)
    requires IsGrid(s.board)
    ensures IsGrid(t.board)
    decreases |moves|
  {
    if moves == [] then s
    else PlayAll(MakeMoveResult(s, moves[0].0, moves[0].1), moves[1..])
  }

  // ---------------------------------------------------------------------------
  // The invariant of every state reachable from a reset

  /** Whose turn it is after n moves: Black after an even number. */
  function ToMove(n: int): Player {
    if n % 2 == 0 then Black else White
  }

  /** Who made move number n: Black when n is odd. */
  function LastMover(n: int): Player {
    if n % 2 == 1 then Black else White
  }

  /**
   * The invariant of a state reached from reset_game by make_move calls:
   * the move count equals the number of stones; turns alternate, starting
   * with Black, and freeze on the last mover once the game is over; a
   * winner is recorded exactly for the two winning statuses, and is the
   * player who moved last; a draw needs a full count; the last move holds
   * the last mover's stone, and the game is won exactly when that stone
   * completes five in a row.
   */
  ghost predicate Consistent(s: GameData) {
    && IsGrid(s.board)
    && s.moveCount == Stones(s.board)
    && TurnsAgree(s)
    && LastMoveAgrees(s)
  }

  /** The turn, status and winner fields agree with the move count. */
  ghost predicate TurnsAgree(s: GameData) {
    && s.currentPlayer == (if s.gameStatus == Ongoing then ToMove(s.moveCount) else LastMover(s.moveCount))
    && (s.gameStatus == Ongoing ==> s.moveCount < CellCount)
    && (s.gameStatus == Draw ==> s.moveCount >= CellCount)
    && (s.winner.Some? <==> s.gameStatus == BlackWins || s.gameStatus == WhiteWins)
    && (s.winner.Some? ==> s.winner.value == s.currentPlayer && s.gameStatus == WinStatus(s.currentPlayer))
  }

  /** The last move is recorded from the first move on, holds the last mover's stone and decides the winner. */
  ghost predicate LastMoveAgrees(s: GameData)
    requires IsGrid(s.board)
  {
    && (s.lastMove.None? <==> s.moveCount == 0)
    && (s.lastMove.Some? ==>
          && OnBoard(s.lastMove.value.0, s.lastMove.value.1)
          && s.board[s.lastMove.value.0][s.lastMove.value.1] == Value(LastMover(s.moveCount))
          && (FiveThrough(s.board, Value(LastMover(s.moveCount)), s.lastMove.value.0, s.lastMove.value.1)
              <==> s.winner.Some?))
  }

  /** reset_game: 15 rows of 15 empty cells, Black to move, ongoing, no moves, no winner, no last move. */
  lemma NewGameIsConsistent()
    ensures IsGrid(NewGame().board)
    ensures forall r, c | OnBoard(r, c) :: NewGame().board[r][c] == Value(Empty)
    ensures Consistent(NewGame())
  {
    StonesNone(EmptyBoard());
  }

  /** After a valid move the turn, status and winner fields still agree with the move count. */
  lemma MoveKeepsTurns(s: GameData, row: int, col: int)
    requires IsGrid(s.board) && TurnsAgree(s) && IsValidMove(s, row, col)
    ensures TurnsAgree(AfterMove(s, row, col))
  {
    var t := AfterMove(s, row, col);
    assert LastMover(t.moveCount) == s.currentPlayer;
  }

  /** After a valid move the last move is the new stone, which decides the winner. */
  lemma MoveKeepsLastMove(s: GameData, row: int, col: int)
    requires IsGrid(s.board) && s.moveCount >= 0 && TurnsAgree(s) && IsValidMove(s, row, col)
    ensures LastMoveAgrees(AfterMove(s, row, col))
  {
    var p := s.currentPlayer;
    var t := AfterMove(s, row, col);
    assert LastMover(t.moveCount) == p;
    assert t.lastMove == Some((row, col)) && t.moveCount != 0;
    assert t.board[row][col] == Value(p);
    assert s.winner.None?;
    if FiveThrough(t.board, Value(p), row, col) {
      assert t.winner == Some(p);
    } else {
      assert t.winner.None?;
    }
  }

  /** A valid move keeps the invariant; in particular the move count still counts the stones. */
  lemma MovePreservesConsistent(s: GameData, row: int, col: int)
    requires Consistent(s) && IsValidMove(s, row, col)
    ensures Consistent(AfterMove(s, row, col))
  {
    var p := s.currentPlayer;
    StonesUpdate(s.board, row, col, Value(p));
    assert AfterMove(s, row, col).board == s.board[row := s.board[row][col := Value(p)]];
    MoveKeepsTurns(s, row, col);
    MoveKeepsLastMove(s, row, col);
  }

  /** Any sequence of make_move calls keeps the invariant. */
  lemma {:induction false} PlayAllPreservesConsistent(s: GameData, moves: seq<Coord>)
    requires Consistent(s)
    ensures Consistent(PlayAll(s, moves))
    decreases |moves|
  {
    if moves != [] {
      if IsValidMove(s, moves[0].0, moves[0].1) {
        MovePreservesConsistent(s, moves[0].0, moves[0].1);
      }
      PlayAllPreservesConsistent(MakeMoveResult(s, moves[0].0, moves[0].1), moves[1..]);
    }
  }

  /** Once the status leaves Ongoing every later make_move fails and nothing changes. */
  lemma {:induction false} FinishedGameIsFrozen(s: GameData, moves: seq<Coord>)
    requires IsGrid(s.board) && s.gameStatus != Ongoing
    ensures PlayAll(s, moves) == s
    decreases |moves|
  {
    if moves != [] {
      FinishedGameIsFrozen(s, moves[1..]);
    }
  }

  /** The move count never decreases, and moves past the first failed one are not counted twice. */
  lemma {:induction false} MoveCountNeverDecreases(s: GameData, moves: seq<Coord>)
    requires IsGrid(s.board)
    ensures s.moveCount <= PlayAll(s, moves).moveCount <= s.moveCount + |moves|
    decreases |moves|
  {
    if moves != [] {
      MoveCountNeverDecreases(MakeMoveResult(s, moves[0].0, moves[0].1), moves[1..]);
    }
  }

  /** An ongoing game reached by play always has a legal move. */
  lemma OngoingGameHasLegalMove(s: GameData)
    requires Consistent(s) && s.gameStatus == Ongoing
    ensures exists r, c :: IsValidMove(s, r, c)
  {
    StonesBelowSizeHasEmpty(s.board, BoardSize);
    var r, c :| 0 <= r < BoardSize && 0 <= c < BoardSize && s.board[r][c] == Value(Empty);
    assert IsValidMove(s, r, c);
  }

  // ---------------------------------------------------------------------------
  // Loading

  /**
   * load_state's board check on an already decoded record: a board that is
   * not exactly 15 rows of 15 cells is replaced by the reset state; nothing
   * else (cell contents, the move count) is checked.
   */
  function ShapeChecked(data: GameData): (s: GameData)
    ensures IsGrid(s.board)
    ensures s == data || s == NewGame()
    ensures IsGrid(data.board) ==> s == data
  {
    if |data.board| != BoardSize || exists i | 0 <= i < |data.board| :: |data.board[i]| != BoardSize then
      NewGame()
    else
      data
  }

  /** The shape check lets through a well-shaped record that no play can produce. */
  lemma ShapeCheckedKeepsUncheckedContent()
    ensures var data := NewGame().(moveCount := 7);
            ShapeChecked(data) == data && !Consistent(ShapeChecked(data))
  {
    StonesNone(EmptyBoard());
  }

  // ---------------------------------------------------------------------------
  // Text

  /** get_status_message: the winner, the draw, or whose turn it is with the next move number. */
  function StatusMessage(s: GameData): (m: string)
    ensures m == "Black wins!" <==> s.gameStatus == BlackWins
    ensures m == "White wins!" <==> s.gameStatus == WhiteWins
    ensures m == "It's a draw!" <==> s.gameStatus == Draw
  {
    match s.gameStatus
    case BlackWins => "Black wins!"
    case WhiteWins => "White wins!"
    case Draw => "It's a draw!"
    case Ongoing =>
      var m := "Current turn: " + (if s.currentPlayer == Black then "Black" else "White")
               + " (Move #" + IntToString(s.moveCount + 1) + ")";
      assert m[0] == 'C';
      m
  }

  // ---------------------------------------------------------------------------
  // The game state object

  /**
   * The game state object: its fields are updated in place by reset_game,
   * load_state and make_move. A fresh object has an empty board list until
   * it is reset or loaded; the move operations need a 15x15 board.
   */
  class GameState {
    var board: seq<seq<string>>
    var currentPlayer: Player
    var gameStatus: GameStatus
    var moveCount: int
    var winner: Option<Player>
    var lastMove: Option<Coord>

    /** The fields as the record save_state writes. */
    function Data(): GameData
      reads this
    {
      GameData(board, currentPlayer, gameStatus, moveCount, winner, lastMove)
    }

    /** __init__: an empty board list, Black to move, ongoing, no moves, no winner, no last move. */
    constructor()
      ensures Data() == GameData([], Black, Ongoing, 0, None, None)
    {
      board := [];
      currentPlayer := Black;
      gameStatus := Ongoing;
      moveCount := 0;
      winner := None;
      lastMove := None;
    }

    /** reset_game: the reset state, which satisfies the play invariant. */
    method ResetGame()
      modifies this
      ensures Data() == NewGame()
      ensures Consistent(Data())
    {
      board := EmptyBoard();
      currentPlayer := Black;
      gameStatus := Ongoing;
      moveCount := 0;
      winner := None;
      lastMove := None;
      NewGameIsConsistent();
    }

    /**
     * load_state once the saved record is decoded: the fields are taken from
     * the record, and a board that is not 15x15 makes it reset the game.
     */
    method LoadState(data: GameData)
      modifies this
      ensures Data() == ShapeChecked(data)
      ensures IsGrid(board)
    {
      board := data.board;
      currentPlayer := data.currentPlayer;
      gameStatus := data.gameStatus;
      moveCount := data.moveCount;
      winner := data.winner;
      lastMove := data.lastMove;
      if |board| != BoardSize || exists i | 0 <= i < |board| :: |board[i]| != BoardSize {
        ResetGame();
      }
    }

    /**
     * make_move: an invalid move changes nothing and reports false; a valid
     * one places the stone, records the move, asks check_win, and then
     * records the win, the draw or the change of turn. A state reachable
     * from a reset stays reachable.
     */
    method MakeMove(row: int, col: int) returns (ok: bool)
      requires IsGrid(board)
      modifies this
      ensures ok == IsValidMove(old(Data()), row, col)
      ensures Data() == MakeMoveResult(old(Data()), row, col)
      ensures Consistent(old(Data())) ==> Consistent(Data())
    {
      ghost var before := Data();
      if !IsValidMove(Data(), row, col) {
        return false;
      }
      board := board[row := board[row][col := Value(currentPlayer)]];
      lastMove := Some((row, col));
      moveCount := moveCount + 1;
      var won := CheckWin(row, col);
      ghost var placed := before.(board := board, lastMove := lastMove, moveCount := moveCount);
      assert won == WinsAt(placed.board, Value(before.currentPlayer), row, col);
      if won {
        winner := Some(currentPlayer);
        gameStatus := if currentPlayer == Black then BlackWins else WhiteWins;
        assert Data() == placed.(winner := Some(before.currentPlayer), gameStatus := WinStatus(before.currentPlayer));
      } else if moveCount >= BoardSize * BoardSize {
        gameStatus := Draw;
        assert Data() == placed.(gameStatus := Draw);
      } else {
        currentPlayer := if currentPlayer == Black then White else Black;
        assert Data() == placed.(currentPlayer := Opponent(before.currentPlayer));
      }
      assert Data() == AfterMove(before, row, col);
      if Consistent(before) {
        MovePreservesConsistent(before, row, col);
      }
      return true;
    }

    /**
     * check_win: for each of the four axes, count the stone at (row, col)
     * plus the current player's stones met stepping forward and then
     * backward; five or more on one axis is a win. The cell itself is
     * counted without being read, so when it holds the player's stone (as
     * it does once make_move has placed it) the answer is the rule itself:
     * five in a row through (row, col).
     */
    method CheckWin(row: int, col: int) returns (won: bool)
      requires IsGrid(board)
      ensures won == WinsAt(board, Value(currentPlayer), row, col)
      ensures Holds(board, Value(currentPlayer), row, col) ==>
                (won <==> FiveThrough(board, Value(currentPlayer), row, col))
    {
      var player := Value(currentPlayer);
      for i := 0 to |Directions|
        invariant forall j | 0 <= j < i :: LineLength(board, player, row, col, Directions[j]) < 5
      {
        var d := Directions[i];
        assert IsDirection(d);
        var count := 1;
        var ahead := CountRun(player, row + d.0, col + d.1, d);
        count := count + ahead;
        var behind := CountRun(player, row - d.0, col - d.1, Reverse(d));
        count := count + behind;
        if count >= 5 {
          if Holds(board, player, row, col) {
            WinsAtIffFiveThrough(board, player, row, col);
          }
          return true;
        }
      }
      if Holds(board, player, row, col) {
        WinsAtIffFiveThrough(board, player, row, col);
      }
      return false;
    }

    /**
     * One of check_win's while loops: the number of consecutive cells holding
     * `player` met from (r, c) stepping along d until a cell that does not
     * hold it or the board edge.
     */
    method CountRun(player: string, r: int, c: int, d: Coord) returns (n: nat)
      requires IsGrid(board) && IsDirection(d)
      ensures n == Run(board, player, r, c, d)
    {
      n := 0;
      var r', c' := r, c;
      while 0 <= r' < BoardSize && 0 <= c' < BoardSize && board[r'][c'] == player
        invariant n + Run(board, player, r', c', d) == Run(board, player, r, c, d)
        decreases StepsLeft(r', c', d)
      {
        n := n + 1;
        r', c' := r' + d.0, c' + d.1;
      }
    }
  }
}
