# Omok rules engine and its text rendering, in Dafny

This project models the rules engine of a 15x15 five-in-a-row (Omok/Gomoku)
game that is played through a saved state file and published as a text board
inside a README. It also models the text routines built on the engine:

- the coordinate parser;
- the board and status renderer;
- the README section splicer.

It models:

- **`GameState`** (game_state.py), as class `Omok.GameState`.
  - Its fields are the board (a list of 15 rows of 15 cell strings), the
    player to move, the game status, the move count, the winner and the last
    move. The methods update them in place.
  - `reset_game` builds a fresh game.
  - `make_move` validates the move, places the stone, asks `check_win`, and
    then runs exactly one of the win, draw and change-of-turn branches.
  - `check_win` counts the run through the placed stone on four axes with two
    while loops per axis.
  - `load_state` keeps an already decoded record after checking the board's
    shape.
  - Each method is proved against a pure specification on the record
    `Omok.GameData`, the record `save_state` writes: `IsValidMove`, `AfterMove`,
    `MakeMoveResult`, `WinsAt`, `ShapeChecked`.
  - The invariant of every state reached from a reset is `Consistent`. It says:
    - the move count equals the number of stones;
    - turns alternate from Black and freeze once the game is over;
    - the winner matches the status;
    - the last move holds the last mover's stone.
  - `check_win`'s run counting is proved equal to an independent statement of
    the rule: five consecutive stones on one of the four axes through the
    placed stone. Runs longer than five win too.
- **`parse_coordinate`** (game_state.py), as `Coordinates.ParseCoordinate`.
  Python's `strip`, `upper`, `split`, `isdigit` and `int` are written out in
  module `PyText`, together with the 4300-digit limit of `int()`. It is
  proved that:
  - text of the form "<letter>,<digits>", with any whitespace around either
    part, names the cell the upper-cased letter and the digits' value give,
    and otherwise gives no coordinate;
  - every coordinate returned comes from such text;
  - the coordinate text the status block writes parses back to its cell;
  - the letter and number printed around a cell of the text board name that
    cell.
- **`TextBoardGenerator`** (generate_text_board.py), as module `TextBoard`.
  - The cell strings.
  - The header and row loops of `generate_board_text`.
  - The status block of `generate_status_message`.
  - The state is passed in instead of being loaded from disk.
- **`ReadmeUpdater`** (update_readme_text.py), as modules `ReadmeText` and
  `GeneratedSection`.
  - The marker scan and splice of `_replace_board_section`.
  - The block `_generate_board_section` builds.
  - It is proved that the spliced-in block is the section the next scan finds,
    so updating twice with the same state is the same as updating once.

The modules are:

- `Optional` (option.dfy);
- `PyText` (py_text.dfy);
- `Omok` (game_state.dfy);
- `Coordinates` (coordinates.dfy);
- `TextBoard` (text_board.dfy);
- `ReadmeText` (readme_text.dfy);
- `GeneratedSection` (generated_section.dfy).

Three facts about the code that the model keeps:

- The draw is declared once the move count reaches 225 or more.
- Cells are the strings the code stores. A cell that is neither "black" nor
  "white" is treated as empty by rendering, but only "empty" counts as empty
  for `is_valid_move`.
- `load_state`'s shape check resets the game only when the board has the
  wrong shape. Nothing else in the record is checked.

## Model

| member | source | states |
|---|---|---|
| Omok.GameState.constructor | game_state.py:33-40 | a new object has an empty board list, Black to move, an ongoing game, no moves, no winner and no last move |
| Omok.GameState.ResetGame | game_state.py:42-50 | the fields become the reset state (15 rows of 15 "empty" cells, Black, ongoing, 0, no winner, no last move), which satisfies the play invariant |
| Omok.NewGameIsConsistent | game_state.py:42-50 | the reset board is 15x15 with every cell empty, and the reset state satisfies the play invariant (move count equals stone count, and so on) |
| Omok.GameState.LoadState | game_state.py:68-78 | the fields become the decoded record, replaced by the reset state exactly when its board is not 15 rows of 15 cells; the board is 15x15 afterwards |
| Omok.ShapeChecked | game_state.py:75-78 | the result is always a 15x15 board, either the record itself or the reset state, and a well-shaped record is kept unchanged |
| Omok.ShapeCheckedKeepsUncheckedContent | game_state.py:75-78 | a well-shaped record whose move count disagrees with its stones passes the check, so a loaded state need not satisfy the play invariant |
| Omok.IsValidMove | game_state.py:167-173 | a move is valid exactly when the game is ongoing, both coordinates are in [0, 15) and the cell holds "empty" |
| Omok.GameState.MakeMove | game_state.py:186-206 | reports true exactly for a valid move; the new state is the old one for an invalid move, and the moved state otherwise; a state reached by play stays one |
| Omok.AfterMove | game_state.py:190-204 | only cell (row, col) changes, and it gets the mover's colour; the last move is (row, col) and the count grows by one. Then exactly one branch: five in a row gives the mover's win status and winner with the turn frozen; otherwise a count of 225 or more gives a draw with the turn frozen; otherwise the turn passes to the opponent |
| Omok.StonesUpdate | game_state.py:190-192 | writing a stone into an empty cell raises the stone count by exactly one |
| Omok.MovePreservesConsistent | game_state.py:186-206 | a valid move from a state reached by play leaves a state reached by play: move count equals stone count, turns alternate, the winner matches the status, the last move holds the last mover's stone |
| Omok.MoveKeepsTurns | game_state.py:186-206 | after a valid move the turn, status and winner still agree with the new move count: the mover keeps the turn only when the move wins or fills the board, and a winner is recorded exactly on a win |
| Omok.MoveKeepsLastMove | game_state.py:186-206 | after a valid move the last move is the placed stone, which is the last mover's by parity, and it completes five in a row exactly when a winner is recorded |
| Omok.PlayAllPreservesConsistent | game_state.py:186-206 | any sequence of make_move calls from a state reached by play keeps the invariant |
| Omok.FinishedGameIsFrozen | game_state.py:167-187 | once the status is not ongoing, every later sequence of make_move calls leaves the state unchanged |
| Omok.MoveCountNeverDecreases | game_state.py:186-192 | after any sequence of make_move calls the move count has not decreased and has grown by at most one per call |
| Omok.OngoingGameHasLegalMove | game_state.py:199-200 | an ongoing game reached by play always has a valid move (the draw branch fires before the board is full) |
| Omok.GameState.CheckWin | game_state.py:219-250 | the answer is whether some axis counts 1 plus both runs at 5 or more; when the cell holds the player's stone, that is exactly five in a row through it |
| Omok.GameState.CountRun | game_state.py:231-236 | the while loop counts the consecutive cells holding the player from the start cell along the direction, stopping at the edge |
| Omok.WinsAtIffFiveThrough | game_state.py:227-248 | with the player's stone on the cell, the run-counting verdict holds exactly when five consecutive cells of the player lie on one of the four axes through it |
| Omok.LongLineHasFive | game_state.py:228-247 | a counted line of five or more through the cell lays out five consecutive cells of the player containing it |
| Omok.FiveMakesLongLine | game_state.py:228-247 | five consecutive cells of the player containing the cell make the counted line at least five long |
| Omok.StatusMessage | game_state.py:285-293 | the message is "Black wins!", "White wins!" or "It's a draw!" exactly for the matching finished status; the ongoing form is stated by TextBoard.StatusMessageMatchesTurn |
| Coordinates.ParseCoordinate | game_state.py:124-151 | a parsed coordinate is always on the board; its value and the failing inputs are stated by the lemmas below |
| Coordinates.ParseNormalized | game_state.py:126-131 | text that does not hold exactly one comma fails to parse |
| Coordinates.ParseParts | game_state.py:133-151 | the two stripped parts name a cell exactly when the first is one character and the second a run of at most 4300 digits, and then the cell is the one the character (A to O) and the digits' value (1 to 15, leading zeros allowed) name; anything off the board gives None |
| Coordinates.ParseOfParts | game_state.py:126-133 | text with one comma is parsed from the two parts around it, each stripped |
| Coordinates.ParsePadded | game_state.py:124-153 | "<letter>,<digits>" with any whitespace before, between and after the parts parses to the cell the upper-cased letter and the digits' value name, and to None when either is off the board or there are more than 4300 digits (int() raises ValueError, which is caught) |
| Coordinates.ParsedCoordinateText | game_state.py:124-151 | conversely, every returned (row, col) comes from text that, stripped and upper-cased, is two parts around one comma: the first strips to the column letter 'A' + col, the second to at most 4300 digits whose value is row + 1 |
| Coordinates.PaddedExample | game_state.py:124-151 | " h , 08 " parses to (7, 7) |
| Coordinates.DigitLimitExample | game_state.py:147-153 | "A," followed by 4300 zeros and a 1 gives None, though the number is 1 |
| Coordinates.ParseLetterNumber | game_state.py:125-151 | "letter,number" parses to (number - 1, letter - 'A') when the upper-cased letter is A to O and the number 1 to 15, and fails otherwise; lower-case letters read as upper case |
| Coordinates.ParseCoordTextRoundTrip | generate_text_board.py:121 | the "letter,number" text the status block writes for an on-board cell parses back to that cell |
| TextBoard.CellContent | generate_text_board.py:86-98 | every cell string is 3 characters with the cell's glyph in the middle; it is bracketed exactly when the cell holds a stone and is the last move, and otherwise padded with spaces; a non-stone cell is never bracketed |
| TextBoard.OnlyLastMoveIsMarked | generate_text_board.py:89-98 | in a state reached by play, a cell is bracketed exactly when it is the last move |
| TextBoard.GenerateBoardText | generate_text_board.py:52-73 | the loops produce the header and the 15 row lines, in order, joined by newlines |
| TextBoard.BuildHeader | generate_text_board.py:55-58 | the header loop produces three spaces followed by each column's letter between two spaces |
| TextBoard.BuildRow | generate_text_board.py:63-71 | the row loop produces the row number right-justified to two places, a space and the row's 15 cell strings |
| TextBoard.HeaderLayout | generate_text_board.py:55-58 | the header is 48 characters, starts with three spaces and has column c's letter at offset 4 + 3c |
| TextBoard.RowLayout | generate_text_board.py:62-71 | row line r is 48 characters, starts with the padded row number and a space, and has cell (r, c)'s string at offsets 3 + 3c to 6 + 3c |
| TextBoard.RowNumberWidth | generate_text_board.py:63 | every row number 1 to 15 right-justified to two places is exactly two characters |
| TextBoard.BoardLayout | generate_text_board.py:52-73 | the board text has 16 lines of 48 characters: the header, then row i - 1 on line i |
| TextBoard.StripRowNumber | generate_text_board.py:63 | the padded row number strips back to the plain decimal number |
| TextBoard.ReadCoordinateOffBoard | generate_text_board.py:55-71 | the letter above a cell and the number at the start of its row, read off the text and parsed, name that cell |
| TextBoard.ResultLine | generate_text_board.py:126-132 | the closing line is the winner line when there is a winner, else the draw line when the count is 225 or more, else the next-turn line |
| TextBoard.StatusLines | generate_text_board.py:110-132 | the block has 4 lines with a last move and 3 without: game status, moves played, the last-move line when present, then the closing line |
| TextBoard.GenerateStatusMessage | generate_text_board.py:110-134 | appending the lines one by one and joining them with newlines gives the status block |
| TextBoard.StatusMessageMatchesTurn | game_state.py:285-293 | whenever the turn and status fields agree with the move count (in every state reached by play), the message reads "Current turn: <player> (Move #<moves + 1>)" exactly while the game is ongoing, naming the player the move count gives |
| TextBoard.ResultLineMatchesStatus | generate_text_board.py:126-132 | whenever the turn and status fields agree with the move count (in every state reached by play), the closing line names Black or White as winner, or reports the draw, exactly for the matching status, and otherwise names the player the move count gives |
| TextBoard.LastMoveLineMatchesBoard | generate_text_board.py:119-123 | whenever the last move's cell holds the last mover's stone (in every state reached by play), the player the last-move line names by move-count parity is the colour of the stone on the last move's cell |
| ReadmeText.ReplaceBoardSection | update_readme_text.py:126-150 | without a start line followed by an end line the content is returned unchanged; otherwise the lines from the last start line before the first such end line up to that end line are replaced by the new section's lines |
| ReadmeText.SectionUnique | update_readme_text.py:130-135 | the scan's choice of start and end line is unique |
| ReadmeText.NoSectionFound | update_readme_text.py:137-143 | when no start line is followed by an end line there is no section, so the content is kept |
| ReadmeText.SectionIffStartThenEnd | update_readme_text.py:130-143 | a section exists exactly when some start line is followed by an end line (a line with both markers counts only as a start) |
| ReadmeText.Splice | update_readme_text.py:146-148 | the result has length start + new lines + (total - end); the prefix before the start line, the new lines, and everything from the end line on are in place |
| ReadmeText.SectionAfterReplace | update_readme_text.py:130-148 | after splicing in a block that starts with the start marker and holds no other marker line, the next scan finds exactly that block |
| ReadmeText.ReplaceTwiceIsReplaceOnce | update_readme_text.py:130-148 | splicing the same such block in again changes nothing |
| ReadmeText.HeadingLine | update_readme_text.py:103 | the heading line splits off as one line and holds the start marker |
| ReadmeText.SectionLines | update_readme_text.py:102-113 | the generated block splits into the heading, a blank line, a fence, each board line, a fence, a blank line, each status line and a blank line, each ending in a newline |
| GeneratedSection.GenerateBoardSection | update_readme_text.py:98-113 | the section is the board text and the status text in the fixed eight-piece frame |
| GeneratedSection.NoMarkerIn | update_readme_text.py:16-17 | a line without two adjacent '#' holds neither marker |
| GeneratedSection.StatusLineSafe | game_state.py:285-293 | the status line's only '#' is in "(Move #n)", followed by a number, so it never holds a marker |
| GeneratedSection.GeneratedSectionIsBlock | update_readme_text.py:102-111 | for any 15x15 board whose last move, if any, is on the board (every state reached by play), the generated block's first line holds the start marker and no other line holds either marker |
| GeneratedSection.UpdateIsIdempotent | update_readme_text.py:126-148 | updating a README that has a section, with the block for any 15x15 board whose last move, if any, is on the board, leaves that block as its section, and a second update with the same state changes nothing |

## Left out

- JSON decoding and encoding, file reads and writes, and `save_state`: the model starts from an already decoded record (`Omok.GameState.LoadState`), and the paths on which `load_state` raises are left out. A missing key is not one of them: every field is read with a default, and a missing board becomes `[]`, which the shape check replaces with a reset, as `Omok.ShapeChecked` models. The raising paths are invalid JSON, an unknown player or status string (ValueError), and a `len` or `tuple` on a value of the wrong type (TypeError). On those the code prints "Error loading game state", resets the game and reports failure. A top-level JSON value that is not an object raises an AttributeError that `load_state` does not catch.
- The `load_state` calls inside the text generator and the "Error: Could not load game state" results are left out: the state is passed in.
- README file reading and writing, `update_readme`, `preview_changes` and the top-level script are file I/O around the splice.
- `get_board_display` and `generate_complete_display` are left out: they are display variants that the README path does not use.
- generate_svg.py, embed_svg.py, update_readme.py and omok_game.py are not part of this model. They hold SVG drawing, base64 embedding, regex substitution and the command line.
- Omok.GameState: the board is a `seq<seq<string>>` field that the methods reassign, not a two-dimensional array. Python keeps a list of row lists that `load_state` may fill with rows of any length. Aliasing of the row lists is not modelled.
- Omok.GameState.MakeMove: requires a 15x15 board. On another shape Python's `make_move` and `check_win` can raise `IndexError`, which the model does not represent. `load_state` and `reset_game` always leave a 15x15 board.
- Coordinates.ParseCoordinate: the 4300-digit limit of `int()` is the default of Python 3.11 and later, and of the security releases of earlier versions. An interpreter without the limit converts any length, and there text with more than 4300 digits is parsed by value.
- Coordinates.ParseCoordinate: digits are the ASCII digits 0 to 9. Python's `isdigit` and `int` also accept the other Unicode decimal digits (Arabic-Indic, full-width and so on). For such row numbers the model reports no coordinate where Python returns one.
- PyText.Upper: maps only the characters whose upper case is a single ASCII letter. Those are a to z, the dotless i and the long s. Every other character is left alone, which gives the parse the same outcome as Python's full `str.upper()`.
- PyText.SplitLines: treats only '\n' as a line boundary. Python's `splitlines` also breaks at '\r', '\x0b', '\x0c', '\x1c' to '\x1e', '\x85', U+2028 and U+2029. When the last move's column is on the board, as in every `Renderable` state, which is what `GeneratedSectionIsBlock` and `UpdateIsIdempotent` assume, the generated section contains none of them. A loaded last move with column −54, −53, −52, −37 to −35, 68, 8167 or 8168 makes `chr(ord('A') + col)` one of those characters. For such a state Python splits the last-move line where the model's splice keeps it whole, so the two spliced READMEs differ.
- Omok.StatusMessage: `PyText.IntToString` converts an integer of any length. Python 3.11 and later, and the security releases of earlier versions, raise ValueError when converting an int of more than 4300 digits to text. A loaded `move_count` that large fails at `f"(Move #{move_count + 1})"` (game_state.py:293). A loaded last-move row that large fails in the same way at `row + 1` (generate_text_board.py:121), which also affects `TextBoard.StatusLines` and `Coordinates.CoordText`. `update_readme` catches the error, returns False and writes nothing, while the model returns a string. No state reached by play comes near that size.
- Coordinates.IsLetterColumn: `chr(ord('A') + col)` is modelled only for columns whose code `ord('A') + col` is a Dafny `char`: from 0 to 0x10FFFF, outside the surrogate range. Python's `chr` raises ValueError for a code below 0 or at or above 0x110000. `generate_status_message` does not catch that, so the model does not cover a last move with such a column. Python maps a surrogate code to a lone surrogate character, which Dafny has no `char` for. On-board columns map to A to O.
