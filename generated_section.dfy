/**
 * _generate_board_section: the README block built from the board text and
 * the status text, and why splicing it in keeps the README updatable. None
 * of the generated lines after the heading holds two '#' in a row, so none
 * of them holds either marker. The next scan therefore finds exactly the
 * spliced block, and a second update with the same state changes nothing.
 */
module GeneratedSection {
  import opened Optional
  import opened PyText
  import opened Omok
  import opened Coordinates
  import opened TextBoard
  import opened ReadmeText

  /** A character that is neither a '#' nor a line break. */
  predicate PlainChar(ch: char) {
    ch != '#' && ch != '\n'
  }

  predicate PlainText(t: string) {
    forall i | 0 <= i < |t| :: PlainChar(t[i])
  }

  /** No two '#' stand side by side. */
  predicate NoHashPair(line: string) {
    forall i | 0 <= i < |line| - 1 :: !(line[i] == '#' && line[i + 1] == '#')
  }

  /** A generated line: no line break inside it and no "##" in it. */
  predicate SafeLine(line: string) {
    (forall i | 0 <= i < |line| :: line[i] != '\n') && NoHashPair(line)
  }

  lemma PlainAppend(a: string, b: string)
    requires PlainText(a) && PlainText(b)
    ensures PlainText(a + b)
  {
    forall i | 0 <= i < |a + b|
      ensures PlainChar((a + b)[i])
    {
      if i < |a| {
        assert (a + b)[i] == a[i];
      } else {
        assert (a + b)[i] == b[i - |a|];
      }
    }
  }

  lemma {:induction false} PlainConcat(pieces: seq<string>)
    requires forall k | 0 <= k < |pieces| :: PlainText(pieces[k])
    ensures PlainText(Concat(pieces))
  {
    if pieces != [] {
      PlainConcat(pieces[1..]);
      PlainAppend(pieces[0], Concat(pieces[1..]));
    }
  }

  lemma PlainIsSafe(line: string)
    requires PlainText(line)
    ensures SafeLine(line)
  {
  }

  /** A single '#' between two plain texts makes no "##". */
  lemma OneHashIsSafe(a: string, b: string)
    requires PlainText(a) && PlainText(b)
    ensures SafeLine(a + "#" + b)
  {
    var line := a + "#" + b;
    forall i | 0 <= i < |line| - 1
      ensures !(line[i] == '#' && line[i + 1] == '#')
    {
      if i < |a| {
        assert line[i] == a[i];
      } else if i > |a| {
        assert line[i] == b[i - |a| - 1];
      } else {
        assert line[i + 1] == b[0];
      }
    }
    forall i | 0 <= i < |line|
      ensures line[i] != '\n'
    {
      if i < |a| {
        assert line[i] == a[i];
      } else if i > |a| {
        assert line[i] == b[i - |a| - 1];
      }
    }
  }

  /** A line with no "##" holds neither marker, since both begin with "##". */
  lemma NoMarkerIn(line: string)
    requires NoHashPair(line)
    ensures !IsStartLine(line) && !IsEndLine(line)
  {
    forall i | 0 <= i <= |line| - |StartMarker|
      ensures !OccursAt(line, StartMarker, i)
    {
      var w := line[i..i + |StartMarker|];
      assert w[0] == line[i] && w[1] == line[i + 1];
      assert StartMarker[0] == '#' && StartMarker[1] == '#';
    }
    forall i | 0 <= i <= |line| - |EndMarker|
      ensures !OccursAt(line, EndMarker, i)
    {
      var w := line[i..i + |EndMarker|];
      assert w[0] == line[i] && w[1] == line[i + 1];
      assert EndMarker[0] == '#' && EndMarker[1] == '#';
    }
  }

  /** A safe line followed by its '\n' still has no "##". */
  lemma NewlineKeepsNoHashPair(line: string)
    requires SafeLine(line)
    ensures NoHashPair(line + "\n")
  {
    var t := line + "\n";
    forall i | 0 <= i < |t| - 1
      ensures !(t[i] == '#' && t[i + 1] == '#')
    {
      assert t[i] == line[i];
      if i + 1 < |line| {
        assert t[i + 1] == line[i + 1];
      }
    }
  }

  lemma IntToStringPlain(n: int)
    ensures PlainText(IntToString(n))
  {
    if n < 0 {
      var d := NatToString(-n);
      assert forall i | 0 <= i < |d| :: IsDigit(d[i]);
      PlainAppend("-", d);
    } else {
      var d := NatToString(n);
      assert forall i | 0 <= i < |d| :: IsDigit(d[i]);
    }
  }

  // ---------------------------------------------------------------------------
  // The board lines

  lemma HeaderLinePlain()
    ensures PlainText(HeaderLine())
  {
    var entries := seq(BoardSize, i requires 0 <= i < BoardSize => ColumnHeader(i));
    forall k | 0 <= k < |entries|
      ensures PlainText(entries[k])
    {
      assert 'A' <= ColumnLetter(k) <= 'O';
    }
    PlainConcat(entries);
    PlainAppend("   ", Concat(entries));
  }

  lemma RowLinePlain(s: GameData, row: int)
    requires IsGrid(s.board) && 0 <= row < BoardSize
    ensures PlainText(RowLine(s, row))
  {
    var number := IntToString(row + 1);
    IntToStringPlain(row + 1);
    var padded := RJust(number, 2);
    RJustPads(number, 2);
    forall i | 0 <= i < |padded|
      ensures PlainChar(padded[i])
    {
      if i >= |padded| - |number| {
        assert padded[i] == padded[|padded| - |number|..][i - (|padded| - |number|)];
      }
    }
    var cells := RowCells(s, row);
    forall k | 0 <= k < |cells|
      ensures PlainText(cells[k])
    {
      var cell := CellContent(s, row, k);
      assert cells[k] == cell;
      assert cell[1] == Glyph(s.board[row][k]);
    }
    PlainConcat(cells);
    PlainAppend(padded, " ");
    PlainAppend(padded + " ", Concat(cells));
  }

  lemma BoardLinesPlain(s: GameData)
    requires IsGrid(s.board)
    ensures forall k | 0 <= k < |BoardLines(s)| :: PlainText(BoardLines(s)[k])
  {
    forall k | 0 <= k < |BoardLines(s)|
      ensures PlainText(BoardLines(s)[k])
    {
      if k == 0 {
        HeaderLinePlain();
      } else {
        assert BoardLines(s)[k] == RowLine(s, k - 1);
        RowLinePlain(s, k - 1);
      }
    }
  }

  // ---------------------------------------------------------------------------
  // The status lines

  /** The fixed texts the status lines are assembled from. */
  lemma StatusTextsPlain()
    ensures PlainText("**Game Status:** ") && PlainText("Current turn: ") && PlainText(" (Move ")
    ensures PlainText(")") && PlainText("Black") && PlainText("White")
    ensures PlainText("Black wins!") && PlainText("White wins!") && PlainText("It's a draw!")
    ensures PlainText("**Moves played:** ") && PlainText("**Last move:** ") && PlainText(" at ")
    ensures PlainText("**Winner:** ") && PlainText("**Result:** Draw - Board is full")
    ensures PlainText("**Next turn:** ")
    ensures PlainText("black") && PlainText("white") && PlainText("empty")
  {
    StatusMessageTextsPlain();
    StatusLabelsPlain();
    PlayerWordsPlain();
  }

  lemma StatusMessageTextsPlain()
    ensures PlainText("Current turn: ") && PlainText(" (Move ") && PlainText(")")
    ensures PlainText("Black wins!") && PlainText("White wins!") && PlainText("It's a draw!")
  {
  }

  lemma StatusLabelsPlain()
    ensures PlainText("**Game Status:** ") && PlainText("**Moves played:** ") && PlainText("**Last move:** ")
    ensures PlainText(" at ") && PlainText("**Winner:** ") && PlainText("**Result:** Draw - Board is full")
    ensures PlainText("**Next turn:** ")
  {
  }

  lemma PlayerWordsPlain()
    ensures PlainText("Black") && PlainText("White")
    ensures PlainText("black") && PlainText("white") && PlainText("empty")
  {
  }

  /** Upper-casing the first letter of a plain word keeps it plain. */
  lemma TitlePlain(word: string)
    requires PlainText(word)
    ensures PlainText(Title(word))
  {
    if word != [] {
      assert Title(word)[0] == UpperChar(word[0]);
      assert forall i | 1 <= i < |word| :: Title(word)[i] == word[i];
    }
  }

  /** The text before the '#' of an ongoing status line is plain. */
  lemma OngoingPrefixPlain(name: string)
    requires name == "Black" || name == "White"
    ensures PlainText("**Game Status:** " + ("Current turn: " + name) + " (Move ")
  {
    StatusTextsPlain();
    PlainAppend("Current turn: ", name);
    PlainAppend("**Game Status:** ", "Current turn: " + name);
    PlainAppend("**Game Status:** " + ("Current turn: " + name), " (Move ");
  }

  /** Where the '#' of "(Move #n)" sits in a line. */
  lemma MoveHashSplit(head: string, prefix: string, number: string)
    ensures head + (prefix + " (Move #" + number + ")")
            == (head + prefix + " (Move ") + "#" + (number + ")")
  {
    assert " (Move #" == " (Move " + "#";
  }

  /** An ongoing game's status line holds one '#', in "(Move #n)". */
  lemma OngoingStatusLineSafe(s: GameData)
    requires s.gameStatus == Ongoing
    ensures SafeLine("**Game Status:** " + StatusMessage(s))
  {
    var head := "**Game Status:** ";
    var name := PlayerName(s.currentPlayer);
    var prefix := "Current turn: " + name;
    var number := IntToString(s.moveCount + 1);
    assert StatusMessage(s) == prefix + " (Move #" + number + ")";
    MoveHashSplit(head, prefix, number);
    OngoingPrefixPlain(name);
    assert PlainText(")") by { StatusTextsPlain(); }
    IntToStringPlain(s.moveCount + 1);
    PlainAppend(number, ")");
    OneHashIsSafe(head + prefix + " (Move ", number + ")");
  }

  /** A finished game's status line holds no '#' at all. */
  lemma FinishedStatusLineSafe(s: GameData)
    requires s.gameStatus != Ongoing
    ensures SafeLine("**Game Status:** " + StatusMessage(s))
  {
    var m := StatusMessage(s);
    StatusTextsPlain();
    assert m == "Black wins!" || m == "White wins!" || m == "It's a draw!";
    PlainAppend("**Game Status:** ", m);
    PlainIsSafe("**Game Status:** " + m);
  }

  /** The status message holds a '#' only in "(Move #n)", which a number follows. */
  lemma StatusLineSafe(s: GameData)
    ensures SafeLine("**Game Status:** " + StatusMessage(s))
  {
    if s.gameStatus == Ongoing {
      OngoingStatusLineSafe(s);
    } else {
      FinishedStatusLineSafe(s);
    }
  }

  lemma LastMoveLinePlain(s: GameData)
    requires s.lastMove.Some? && OnBoard(s.lastMove.value.0, s.lastMove.value.1)
    ensures PlainText(LastMoveLine(s))
  {
    var (row, col) := s.lastMove.value;
    StatusTextsPlain();
    IntToStringPlain(row + 1);
    assert 'A' <= ColumnLetter(col) <= 'O';
    PlainAppend([ColumnLetter(col)] + [','], IntToString(row + 1));
    var head := "**Last move:** " + PlayerName(LastMover(s.moveCount)) + " at ";
    PlainAppend("**Last move:** ", PlayerName(LastMover(s.moveCount)));
    PlainAppend("**Last move:** " + PlayerName(LastMover(s.moveCount)), " at ");
    PlainAppend(head, CoordText(row, col));
  }

  lemma ResultLinePlain(s: GameData)
    ensures PlainText(ResultLine(s))
  {
    StatusTextsPlain();
    if s.winner.Some? {
      TitlePlain(Value(s.winner.value));
      PlainAppend("**Winner:** ", Title(Value(s.winner.value)));
    } else if s.moveCount < CellCount {
      PlainAppend("**Next turn:** ", PlayerName(s.currentPlayer));
    }
  }

  lemma StatusLinesSafe(s: GameData)
    requires s.lastMove.Some? ==> OnBoard(s.lastMove.value.0, s.lastMove.value.1)
    ensures forall k | 0 <= k < |StatusLines(s)| :: SafeLine(StatusLines(s)[k])
  {
    var lines := StatusLines(s);
    StatusLineSafe(s);
    StatusTextsPlain();
    IntToStringPlain(s.moveCount);
    PlainAppend("**Moves played:** ", IntToString(s.moveCount));
    PlainIsSafe(lines[1]);
    if s.lastMove.Some? {
      LastMoveLinePlain(s);
      PlainIsSafe(lines[2]);
    }
    ResultLinePlain(s);
    PlainIsSafe(lines[|lines| - 1]);
  }

  // ---------------------------------------------------------------------------
  // The block

  /** Safe lines, each ended by a '\n', hold no "##". */
  lemma {:induction false} WithNewlinesNoHashPair(lines: seq<string>)
    requires forall k | 0 <= k < |lines| :: SafeLine(lines[k])
    ensures forall k | 0 <= k < |WithNewlines(lines)| :: NoHashPair(WithNewlines(lines)[k])
  {
    if lines != [] {
      WithNewlinesNoHashPair(lines[1..]);
      NewlineKeepsNoHashPair(lines[0]);
      assert WithNewlines(lines) == [lines[0] + "\n"] + WithNewlines(lines[1..]);
    }
  }

  lemma AllNoHashPair(a: seq<string>, b: seq<string>)
    requires forall k | 0 <= k < |a| :: NoHashPair(a[k])
    requires forall k | 0 <= k < |b| :: NoHashPair(b[k])
    ensures forall k | 0 <= k < |a + b| :: NoHashPair((a + b)[k])
  {
    forall k | 0 <= k < |a + b|
      ensures NoHashPair((a + b)[k])
    {
      if k < |a| {
        assert (a + b)[k] == a[k];
      } else {
        assert (a + b)[k] == b[k - |a|];
      }
    }
  }

  /** Every line of the block after its heading has no "##". */
  lemma BlockTailNoHashPair(boardLines: seq<string>, statusLines: seq<string>)
    requires forall k | 0 <= k < |boardLines| :: SafeLine(boardLines[k])
    requires forall k | 0 <= k < |statusLines| :: SafeLine(statusLines[k])
    ensures var tail := ["\n"] + (["```\n"] + (WithNewlines(boardLines)
              + (["```\n"] + (["\n"] + (WithNewlines(statusLines) + ["\n"])))));
            forall k | 0 <= k < |tail| :: NoHashPair(tail[k])
  {
    var b := WithNewlines(boardLines);
    var st := WithNewlines(statusLines);
    WithNewlinesNoHashPair(boardLines);
    WithNewlinesNoHashPair(statusLines);
    assert NoHashPair("\n") && NoHashPair("```\n");
    AllNoHashPair(st, ["\n"]);
    AllNoHashPair(["\n"], st + ["\n"]);
    AllNoHashPair(["```\n"], ["\n"] + (st + ["\n"]));
    AllNoHashPair(b, ["```\n"] + (["\n"] + (st + ["\n"])));
    AllNoHashPair(["```\n"], b + (["```\n"] + (["\n"] + (st + ["\n"]))));
    AllNoHashPair(["\n"], ["```\n"] + (b + (["```\n"] + (["\n"] + (st + ["\n"])))));
  }

  /** A heading line followed by lines without "##" is a block the scan finds again. */
  lemma BlockFromTail(lines: seq<string>, tail: seq<string>)
    requires lines == [StartMarker + "\n"] + tail
    requires forall k | 0 <= k < |tail| :: NoHashPair(tail[k])
    ensures IsSectionBlock(lines)
  {
    HeadingLine();
    forall k | 1 <= k < |lines|
      ensures !IsStartLine(lines[k]) && !IsEndLine(lines[k])
    {
      assert lines[k] == tail[k - 1];
      NoMarkerIn(lines[k]);
    }
  }

  /**
   * Board lines and status lines that are safe make a block whose heading
   * is the only line holding a marker.
   */
  lemma SectionOfSafeLines(boardLines: seq<string>, statusLines: seq<string>)
    requires |boardLines| >= 1 && forall k | 0 <= k < |boardLines| :: SafeLine(boardLines[k])
    requires |statusLines| >= 1 && forall k | 0 <= k < |statusLines| :: SafeLine(statusLines[k])
    ensures IsSectionBlock(SplitLines(BoardSection(JoinLines(boardLines), JoinLines(statusLines))))
  {
    assert forall k | 0 <= k < |boardLines| :: '\n' !in boardLines[k];
    assert forall k | 0 <= k < |statusLines| :: '\n' !in statusLines[k];
    SectionLines(boardLines, statusLines);
    BlockTailNoHashPair(boardLines, statusLines);
    BlockFromTail(SplitLines(BoardSection(JoinLines(boardLines), JoinLines(statusLines))),
                  ["\n"] + (["```\n"] + (WithNewlines(boardLines)
                  + (["```\n"] + (["\n"] + (WithNewlines(statusLines) + ["\n"]))))));
  }

  /**
   * A state the renderer can draw: a 15x15 board, and a last move, if any,
   * on the board. Every state reached by play is one.
   */
  predicate Renderable(s: GameData) {
    IsGrid(s.board) && (s.lastMove.Some? ==> OnBoard(s.lastMove.value.0, s.lastMove.value.1))
  }

  /** The lines _replace_board_section splices in for the section generated from s. */
  function SectionLinesFor(s: GameData): seq<string>
    requires Renderable(s)
  {
    SplitLines(BoardSection(JoinLines(BoardLines(s)), JoinLines(StatusLines(s))))
  }

  /**
   * The section generated for a drawable state is a block the scan finds
   * again: its first line holds the start marker and no other line holds
   * either marker.
   */
  lemma GeneratedSectionIsBlock(s: GameData)
    requires Renderable(s)
    ensures IsSectionBlock(SectionLinesFor(s))
  {
    BoardLinesPlain(s);
    forall k | 0 <= k < |BoardLines(s)|
      ensures SafeLine(BoardLines(s)[k])
    {
      PlainIsSafe(BoardLines(s)[k]);
    }
    StatusLinesSafe(s);
    SectionOfSafeLines(BoardLines(s), StatusLines(s));
  }

  /**
   * _generate_board_section once the state is loaded: the board text and
   * the status text inside the fixed frame of heading, code fences and
   * blank lines.
   */
  method GenerateBoardSection(s: GameData) returns (section: string)
    requires IsGrid(s.board) && (s.lastMove.Some? ==> IsLetterColumn(s.lastMove.value.1))
    ensures section == BoardSection(JoinLines(BoardLines(s)), JoinLines(StatusLines(s)))
  {
    var boardText := GenerateBoardText(s);
    var statusText := GenerateStatusMessage(s);
    var sectionLines := [
      StartMarker + "\n",
      "\n",
      "```\n",
      boardText + "\n",
      "```\n",
      "\n",
      statusText + "\n",
      "\n"
    ];
    section := Concat(sectionLines);
  }

  /**
   * Updating a README that has a board section with the section generated
   * for a drawable state leaves a README whose section is the new block,
   * and updating it again with the same state changes nothing.
   */
  lemma UpdateIsIdempotent(content: seq<string>, start: int, end: int, s: GameData)
    requires IsSection(content, start, end) && Renderable(s)
    ensures var once := Splice(content, start, end, SectionLinesFor(s));
            && IsSection(once, start, start + |SectionLinesFor(s)|)
            && Splice(once, start, start + |SectionLinesFor(s)|, SectionLinesFor(s)) == once
  {
    GeneratedSectionIsBlock(s);
    ReplaceTwiceIsReplaceOnce(content, start, end, SectionLinesFor(s));
  }

  /** Every state reached by play can be drawn. */
  lemma PlayedStateIsRenderable(s: GameData)
    requires Consistent(s)
    ensures Renderable(s)
  {
  }
}
