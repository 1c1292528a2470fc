/**
 * The text rendering of a game state: one three-character string per cell,
 * a header line of column letters above fifteen numbered rows, and the
 * status block under the board. The state is passed in, already loaded.
 */
module TextBoard {
  import opened Optional
  import opened PyText
  import opened Omok
  import opened Coordinates

  const BlackStone: char := '\U{25CF}'
  const WhiteStone: char := '\U{25CB}'
  const EmptySpot: char := '\U{B7}'

  /** A cell holds a stone when it holds the text of Black or of White. */
  predicate IsStone(cell: string) {
    cell == Value(Black) || cell == Value(White)
  }

  /** The glyph a cell is drawn with: anything but a stone is drawn as an empty spot. */
  function Glyph(cell: string): char {
    if cell == Value(Black) then BlackStone
    else if cell == Value(White) then WhiteStone
    else EmptySpot
  }

  /**
   * _get_cell_content: the cell's glyph between two spaces, or between
   * brackets when the cell holds a stone and is the last move. A cell that is
   * not a stone is never bracketed, even when it is the last move.
   */
  function CellContent(s: GameData, row: int, col: int): (r: string)
    requires IsGrid(s.board) && OnBoard(row, col)
    ensures |r| == 3 && r[1] == Glyph(s.board[row][col])
    ensures r[0] == '[' <==> IsStone(s.board[row][col]) && s.lastMove == Some((row, col))
    ensures r[0] == '[' ==> r[2] == ']'
    ensures r[0] != '[' ==> r[0] == ' ' && r[2] == ' '
  {
    var cell := s.board[row][col];
    var isLastMove := s.lastMove.Some? && s.lastMove.value.0 == row && s.lastMove.value.1 == col;
    if cell == Value(Black) then (if isLastMove then "[\U{25CF}]" else " \U{25CF} ")
    else if cell == Value(White) then (if isLastMove then "[\U{25CB}]" else " \U{25CB} ")
    else " \U{B7} "
  }

  /** The header entry of column i: its letter between two spaces. */
  function ColumnHeader(i: int): string
    requires 0 <= i < BoardSize
  {
    [' ', ColumnLetter(i), ' ']
  }

  function HeaderLine(): string {
    "   " + Concat(seq(BoardSize, i requires 0 <= i < BoardSize => ColumnHeader(i)))
  }

  /** The cell strings of one row, left to right. */
  function RowCells(s: GameData, row: int): seq<string>
    requires IsGrid(s.board) && 0 <= row < BoardSize
  {
    seq(BoardSize, c requires 0 <= c < BoardSize => CellContent(s, row, c))
  }

  /** Row `row` of the board text: its 1-based number right-justified to two places, a space, its cells. */
  function RowLine(s: GameData, row: int): string
    requires IsGrid(s.board) && 0 <= row < BoardSize
  {
    RJust(IntToString(row + 1), 2) + " " + Concat(RowCells(s, row))
  }

  /** The first n row lines, top to bottom. */
  function Rows(s: GameData, n: nat): seq<string>
    requires IsGrid(s.board) && n <= BoardSize
  {
    seq(n, i requires 0 <= i < n => RowLine(s, i))
  }

  /** The lines generate_board_text joins: the header, then the fifteen rows top to bottom. */
  function BoardLines(s: GameData): seq<string>
    requires IsGrid(s.board)
  {
    [HeaderLine()] + Rows(s, BoardSize)
  }

  /**
   * generate_board_text once the state is loaded: the header, then each
   * row, all joined with newlines.
   */
  method GenerateBoardText(s: GameData) returns (text: string)
    requires IsGrid(s.board)
    ensures text == JoinLines(BoardLines(s))
  {
    var header := BuildHeader();
    var lines := [header];
    for rowIdx := 0 to BoardSize
      invariant lines == [HeaderLine()] + Rows(s, rowIdx)
    {
      var rowLine := BuildRow(s, rowIdx);
      lines := lines + [rowLine];
    }
    text := JoinLines(lines);
  }

  /** generate_board_text's header loop: three spaces, then each column's entry in turn. */
  method BuildHeader() returns (header: string)
    ensures header == HeaderLine()
  {
    var headerChars: seq<string> := [];
    for i := 0 to BoardSize
      invariant |headerChars| == i
      invariant forall j | 0 <= j < i :: headerChars[j] == ColumnHeader(j)
    {
      headerChars := headerChars + [ColumnHeader(i)];
    }
    assert headerChars == seq(BoardSize, i requires 0 <= i < BoardSize => ColumnHeader(i));
    header := "   " + Concat(headerChars);
  }

  /** generate_board_text's inner loop: the row number, a space, then each cell of the row in turn. */
  method BuildRow(s: GameData, rowIdx: int) returns (rowLine: string)
    requires IsGrid(s.board) && 0 <= rowIdx < BoardSize
    ensures rowLine == RowLine(s, rowIdx)
  {
    var rowNum := RJust(IntToString(rowIdx + 1), 2);
    var rowDisplay: seq<string> := [];
    for colIdx := 0 to BoardSize
      invariant |rowDisplay| == colIdx
      invariant forall c | 0 <= c < colIdx :: rowDisplay[c] == CellContent(s, rowIdx, c)
    {
      rowDisplay := rowDisplay + [CellContent(s, rowIdx, colIdx)];
    }
    assert rowDisplay == RowCells(s, rowIdx);
    rowLine := rowNum + " " + Concat(rowDisplay);
  }

  // ---------------------------------------------------------------------------
  // Layout of the board text

  /** Joining three-character pieces puts piece c at offsets 3c to 3c + 3. */
  lemma {:induction false} ConcatTriples(pieces: seq<string>)
    requires forall k | 0 <= k < |pieces| :: |pieces[k]| == 3
    ensures |Concat(pieces)| == 3 * |pieces|
    ensures forall c | 0 <= c < |pieces| :: Concat(pieces)[3 * c .. 3 * c + 3] == pieces[c]
  {
    if pieces != [] {
      var rest := pieces[1..];
      ConcatTriples(rest);
      var all := Concat(pieces);
      assert all == pieces[0] + Concat(rest);
      forall c | 0 <= c < |pieces|
        ensures all[3 * c .. 3 * c + 3] == pieces[c]
      {
        if c > 0 {
          assert rest[c - 1] == pieces[c];
          assert all[3 * c .. 3 * c + 3] == Concat(rest)[3 * (c - 1) .. 3 * (c - 1) + 3];
        }
      }
    }
  }

  lemma RowNumberWidth(row: int)
    requires 0 <= row < BoardSize
    ensures |RJust(IntToString(row + 1), 2)| == 2
  {
    var n := row + 1;
    if n >= 10 {
      assert NatToString(n) == NatToString(n / 10) + [DigitChar(n % 10)];
    }
  }

  /** The header: three spaces, then column c's letter at offset 4 + 3c, 48 characters in all. */
  lemma HeaderLayout()
    ensures |HeaderLine()| == 3 + 3 * BoardSize
    ensures HeaderLine()[..3] == "   "
    ensures forall c | 0 <= c < BoardSize :: HeaderLine()[4 + 3 * c] == ColumnLetter(c)
  {
    var headers := seq(BoardSize, i requires 0 <= i < BoardSize => ColumnHeader(i));
    ConcatTriples(headers);
    assert HeaderLine() == "   " + Concat(headers);
    forall c | 0 <= c < BoardSize
      ensures HeaderLine()[4 + 3 * c] == ColumnLetter(c)
    {
      assert HeaderLine()[4 + 3 * c] == Concat(headers)[3 * c .. 3 * c + 3][1];
      assert headers[c] == ColumnHeader(c) && ColumnHeader(c)[1] == ColumnLetter(c);
    }
  }

  /**
   * Row line r: the row number right-justified to two places and a space,
   * then cell (r, c)'s string at offsets 3 + 3c to 6 + 3c, 48 characters in all.
   */
  lemma RowLayout(s: GameData, r: int)
    requires IsGrid(s.board) && 0 <= r < BoardSize
    ensures |RowLine(s, r)| == 3 + 3 * BoardSize
    ensures RowLine(s, r)[..3] == RJust(IntToString(r + 1), 2) + " "
    ensures forall c | 0 <= c < BoardSize :: RowLine(s, r)[3 + 3 * c .. 6 + 3 * c] == CellContent(s, r, c)
  {
    var cells := RowCells(s, r);
    var prefix := RJust(IntToString(r + 1), 2) + " ";
    RowNumberWidth(r);
    ConcatTriples(cells);
    assert RowLine(s, r) == prefix + Concat(cells);
    forall c | 0 <= c < BoardSize
      ensures RowLine(s, r)[3 + 3 * c .. 6 + 3 * c] == CellContent(s, r, c)
    {
      assert RowLine(s, r)[3 + 3 * c .. 6 + 3 * c] == Concat(cells)[3 * c .. 3 * c + 3];
      assert cells[c] == CellContent(s, r, c);
    }
  }

  /** The board text is sixteen lines of 48 characters: the header, then row i - 1 on line i. */
  lemma BoardLayout(s: GameData)
    requires IsGrid(s.board)
    ensures |BoardLines(s)| == BoardSize + 1
    ensures BoardLines(s)[0] == HeaderLine()
    ensures forall i | 1 <= i <= BoardSize :: BoardLines(s)[i] == RowLine(s, i - 1)
    ensures forall i | 0 <= i < |BoardLines(s)| :: |BoardLines(s)[i]| == 3 + 3 * BoardSize
  {
    HeaderLayout();
    forall r | 0 <= r < BoardSize
      ensures |RowLine(s, r)| == 3 + 3 * BoardSize
    {
      RowLayout(s, r);
    }
  }

  // ---------------------------------------------------------------------------
  // Reading the board text back

  /** A one- or two-digit number right-justified to two places strips back to itself. */
  lemma StripRowNumber(row: int)
    requires 0 <= row < BoardSize
    ensures Strip(RJust(IntToString(row + 1), 2)) == NatToString(row + 1)
  {
    var n := row + 1;
    var digits := NatToString(n);
    RowNumberWidth(row);
    assert forall i | 0 <= i < |digits| :: IsDigit(digits[i]);
    assert StripLeft(digits) == digits && StripRight(digits) == digits;
    if n < 10 {
      assert RJust(digits, 2) == [' '] + digits;
      assert ([' '] + digits)[1..] == digits;
    } else {
      assert RJust(digits, 2) == digits;
    }
  }

  /**
   * The coordinate a player reads off the board text, the letter above a
   * cell and the number at the start of its row, names that cell.
   */
  lemma ReadCoordinateOffBoard(s: GameData, r: int, c: int)
    requires IsGrid(s.board) && OnBoard(r, c)
    ensures |HeaderLine()| == 3 + 3 * BoardSize && |RowLine(s, r)| == 3 + 3 * BoardSize
    ensures ParseCoordinate([HeaderLine()[4 + 3 * c]] + [','] + Strip(RowLine(s, r)[..2])) == Some((r, c))
  {
    HeaderLayout();
    RowLayout(s, r);
    RowNumberWidth(r);
    assert RowLine(s, r)[..2] == RJust(IntToString(r + 1), 2);
    StripRowNumber(r);
    ParseCoordTextRoundTrip(r, c);
  }

  /**
   * In a state reached by play, exactly one cell is drawn bracketed once a
   * move has been made, and it is the last move; before the first move none is.
   */
  lemma OnlyLastMoveIsMarked(s: GameData, r: int, c: int)
    requires Consistent(s) && OnBoard(r, c)
    ensures CellContent(s, r, c)[0] == '[' <==> s.lastMove == Some((r, c))
  {
  }

  // ---------------------------------------------------------------------------
  // The status block

  /** The name the status block gives a player to move: "Black" for Black, "White" otherwise. */
  function PlayerName(p: Player): string {
    if p == Black then "Black" else "White"
  }

  /** `str.title()` on a single lower-case word: its first letter upper-cased. */
  function Title(word: string): (r: string)
    ensures |r| == |word|
  {
    if word == [] then [] else [UpperChar(word[0])] + word[1..]
  }

  /** The last-move line: who moved last, by the parity of the move count, and where. */
  function LastMoveLine(s: GameData): string
    requires s.lastMove.Some? && IsLetterColumn(s.lastMove.value.1)
  {
    "**Last move:** " + PlayerName(LastMover(s.moveCount)) + " at "
      + CoordText(s.lastMove.value.0, s.lastMove.value.1)
  }

  /**
   * The closing line, chosen in priority order: a recorded winner, then a
   * full move count, then whose turn is next.
   */
  function ResultLine(s: GameData): (r: string)
    ensures s.winner.Some? ==> r == "**Winner:** " + Title(Value(s.winner.value))
    ensures s.winner.None? && s.moveCount >= CellCount ==> r == "**Result:** Draw - Board is full"
    ensures s.winner.None? && s.moveCount < CellCount ==> r == "**Next turn:** " + PlayerName(s.currentPlayer)
  {
    if s.winner.Some? then "**Winner:** " + Title(Value(s.winner.value))
    else if s.moveCount >= BoardSize * BoardSize then "**Result:** Draw - Board is full"
    else "**Next turn:** " + PlayerName(s.currentPlayer)
  }

  /**
   * The lines generate_status_message joins: the status message, the move
   * count, the last move when there is one, and the closing line.
   */
  function StatusLines(s: GameData): (lines: seq<string>)
    requires s.lastMove.Some? ==> IsLetterColumn(s.lastMove.value.1)
    ensures |lines| == if s.lastMove.Some? then 4 else 3
    ensures lines[0] == "**Game Status:** " + StatusMessage(s)
    ensures lines[1] == "**Moves played:** " + IntToString(s.moveCount)
    ensures s.lastMove.Some? ==> lines[2] == LastMoveLine(s)
    ensures lines[|lines| - 1] == ResultLine(s)
  {
    ["**Game Status:** " + StatusMessage(s), "**Moves played:** " + IntToString(s.moveCount)]
      + (if s.lastMove.Some? then [LastMoveLine(s)] else [])
      + [ResultLine(s)]
  }

  /**
   * generate_status_message once the state is loaded: the lines are appended
   * one by one, then joined with newlines.
   */
  method GenerateStatusMessage(s: GameData) returns (text: string)
    requires s.lastMove.Some? ==> IsLetterColumn(s.lastMove.value.1)
    ensures text == JoinLines(StatusLines(s))
  {
    var statusLines: seq<string> := [];
    statusLines := statusLines + ["**Game Status:** " + StatusMessage(s)];
    statusLines := statusLines + ["**Moves played:** " + IntToString(s.moveCount)];
    ghost var head := ["**Game Status:** " + StatusMessage(s), "**Moves played:** " + IntToString(s.moveCount)];
    assert statusLines == head;
    if s.lastMove.Some? {
      var (row, col) := s.lastMove.value;
      var coordStr := [ColumnLetter(col)] + [','] + IntToString(row + 1);
      var lastPlayer := if s.moveCount % 2 == 1 then "Black" else "White";
      assert coordStr == CoordText(row, col) && lastPlayer == PlayerName(LastMover(s.moveCount));
      statusLines := statusLines + ["**Last move:** " + lastPlayer + " at " + coordStr];
      assert statusLines == head + [LastMoveLine(s)];
    }
    ghost var before := statusLines;
    assert before == head + (if s.lastMove.Some? then [LastMoveLine(s)] else []);
    if s.winner.Some? {
      statusLines := statusLines + ["**Winner:** " + Title(Value(s.winner.value))];
    } else if s.moveCount >= BoardSize * BoardSize {
      statusLines := statusLines + ["**Result:** Draw - Board is full"];
    } else {
      var nextPlayer := if s.currentPlayer == Black then "Black" else "White";
      statusLines := statusLines + ["**Next turn:** " + nextPlayer];
    }
    assert statusLines == before + [ResultLine(s)];
    text := JoinLines(statusLines);
  }

  /**
   * When the turn and status fields agree with the move count, as in every
   * state reached by play, get_status_message's text has the "Current turn"
   * form exactly while the game is ongoing, and then names the player the
   * move count gives and numbers the coming move one past the moves played.
   */
  lemma StatusMessageMatchesTurn(s: GameData)
    requires TurnsAgree(s)
    ensures s.gameStatus == Ongoing <==>
              StatusMessage(s) == "Current turn: " + PlayerName(ToMove(s.moveCount))
                                  + " (Move #" + IntToString(s.moveCount + 1) + ")"
  {
    var m := StatusMessage(s);
    if s.gameStatus == Ongoing {
      assert s.currentPlayer == ToMove(s.moveCount);
    } else {
      assert m[0] != 'C';
    }
  }

  /**
   * When the turn and status fields agree with the move count, as in every
   * state reached by play, the closing line agrees with the game status:
   * it names the winner exactly in the two winning statuses, reports the
   * draw exactly in a draw, and otherwise names the player whose turn the
   * move count gives.
   */
  lemma ResultLineMatchesStatus(s: GameData)
    requires TurnsAgree(s)
    ensures s.gameStatus == BlackWins <==> ResultLine(s) == "**Winner:** Black"
    ensures s.gameStatus == WhiteWins <==> ResultLine(s) == "**Winner:** White"
    ensures s.gameStatus == Draw <==> ResultLine(s) == "**Result:** Draw - Board is full"
    ensures s.gameStatus == Ongoing <==> ResultLine(s) == "**Next turn:** " + PlayerName(ToMove(s.moveCount))
  {
    var r := ResultLine(s);
    assert r[2] == (if s.winner.Some? then 'W' else if s.moveCount >= CellCount then 'R' else 'N');
    if s.winner.Some? {
      assert r[12] == (if s.winner.value == Black then 'B' else 'W');
    }
  }

  /**
   * When the last move's cell holds the last mover's stone, as in every
   * state reached by play, the last-move line names the colour of that
   * stone (its coordinate parses back to that cell, by
   * ParseCoordTextRoundTrip).
   */
  lemma LastMoveLineMatchesBoard(s: GameData, r: int, c: int)
    requires IsGrid(s.board) && s.lastMove == Some((r, c)) && OnBoard(r, c)
    requires s.board[r][c] == Value(LastMover(s.moveCount))
    ensures IsLetterColumn(c)
    ensures s.board[r][c] == Value(Black) <==> LastMoveLine(s) == "**Last move:** Black at " + CoordText(r, c)
    ensures s.board[r][c] == Value(White) <==> LastMoveLine(s) == "**Last move:** White at " + CoordText(r, c)
  {
    var line := LastMoveLine(s);
    assert line[15] == (if LastMover(s.moveCount) == Black then 'B' else 'W');
  }
}
