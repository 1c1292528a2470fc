/**
 * parse_coordinate, the text form of a board cell ("H,8": the column
 * letter, a comma, the row number), and the same form as the status block
 * writes it.
 */
module Coordinates {
  import opened Optional
  import opened PyText
  import opened Omok

  /** The column letter chr(ord('A') + col), for columns that map to a character. */
  predicate IsLetterColumn(col: int) {
    var code := 'A' as int + col;
    0 <= code < 0xD800 || 0xE000 <= code < 0x11_0000
  }

  function ColumnLetter(col: int): char
    requires IsLetterColumn(col)
  {
    ('A' as int + col) as char
  }

  /** parse_coordinate's input form "<column letter>,<row number>", as the status block writes a move. */
  function CoordText(row: int, col: int): string
    requires IsLetterColumn(col)
  {
    [ColumnLetter(col)] + [','] + IntToString(row + 1)
  }

  /**
   * parse_coordinate: the stripped, upper-cased text must split on commas into
   * exactly two parts, a single letter and a run of digits; the letter gives
   * the column (A is 0) and the number the row (1 is 0). Out-of-range letters
   * and numbers give None, never a clamped value.
   */
  function ParseCoordinate(text: string): (r: Option<Coord>)
    ensures r.Some? ==> OnBoard(r.value.0, r.value.1)
  {
    ParseNormalized(Upper(Strip(text)))
  }

  /** The stripped, upper-cased text: it must hold a comma and split into exactly two parts. */
  function ParseNormalized(s: string): (r: Option<Coord>)
    ensures r.Some? ==> OnBoard(r.value.0, r.value.1)
    ensures Count(s, ',') != 1 ==> r == None
  {
    if ',' !in s then None else ParsePieces(Split(s, ','))
  }

  function ParsePieces(parts: seq<string>): (r: Option<Coord>)
    ensures r.Some? ==> OnBoard(r.value.0, r.value.1)
  {
    if |parts| != 2 then None else ParseParts(Strip(parts[0]), Strip(parts[1]))
  }

  /**
   * The cell an upper-case column letter and a 1-based row number name:
   * letters A to O and numbers 1 to 15 are on the board, anything else names
   * no cell.
   */
  function NamedCell(up: char, n: int): Option<Coord> {
    if 'A' <= up <= 'O' && 1 <= n <= BoardSize then Some((n - 1, up as int - 'A' as int)) else None
  }

  /**
   * The two comma-separated parts: a single letter for the column, then the
   * row number. The part pair names a cell exactly when the first part is one
   * character and the second a run of digits `int()` accepts, and the cell is
   * the one that character and number name; out-of-range values give None.
   */
  function ParseParts(colText: string, rowText: string): (r: Option<Coord>)
    ensures r.Some? ==> OnBoard(r.value.0, r.value.1)
    ensures r == if |colText| == 1 && IsDigits(rowText) && |rowText| <= IntMaxStrDigits
                 then NamedCell(colText[0], DigitsValue(rowText))
                 else None
  {
    if |colText| != 1 || !IsAsciiLetter(colText[0]) then None
    else
      var col := colText[0] as int - 'A' as int;
      if col < 0 || col >= BoardSize then None
      else if !IsDigits(rowText) then None
      else if |rowText| > IntMaxStrDigits then None  // int() raises ValueError
      else
        var row := DigitsValue(rowText) - 1;
        if row < 0 || row >= BoardSize then None
        else Some((row, col))
  }

  /** "<a>,<b>", with a and b comma-free, is parsed from a and b stripped. */
  lemma ParseOfParts(a: string, b: string)
    requires ',' !in a && ',' !in b
    ensures ParseNormalized(a + [','] + b) == ParseParts(Strip(a), Strip(b))
  {
    var s := a + [','] + b;
    assert ',' in s by { assert s[|a|] == ','; }
    assert Split(s, ',') == [a, b] by { SplitAtOnlySeparator(a, ',', b); }
  }

  lemma SplitAtOnlySeparator(a: string, sep: char, b: string)
    requires sep !in a && sep !in b
    ensures Split(a + [sep] + b, sep) == [a, b]
  {
    var s := a + [sep] + b;
    assert s[..|a|] == a && s[|a|] == sep;
    assert IndexOf(s, sep) == |a|;
    assert s[|a| + 1..] == b;
  }

  /** Text that splits into exactly two parts is those parts joined by the separator. */
  lemma SplitInTwo(s: string, sep: char)
    requires |Split(s, sep)| == 2
    ensures s == Split(s, sep)[0] + [sep] + Split(s, sep)[1]
  {
    if sep !in s {
      assert false;
    }
    var k := IndexOf(s, sep);
    var rest := s[k + 1..];
    assert Split(s, sep) == [s[..k]] + Split(rest, sep);
    if sep in rest {
      assert false;
    }
    assert s == s[..k] + [sep] + rest;
  }

  /** The seven pieces of padded coordinate text, grouped around the stripped core. */
  lemma GroupPadded(w1: string, l: string, w2: string, comma: string, w3: string, digits: string, w4: string)
    ensures w1 + l + w2 + comma + w3 + digits + w4 == w1 + (l + w2 + comma + w3 + digits) + w4
  {
  }

  /** The stripped core, grouped around its comma. */
  lemma GroupCore(l: string, w2: string, comma: string, w3: string, digits: string)
    ensures l + w2 + comma + w3 + digits == (l + w2) + (comma + (w3 + digits))
  {
  }

  /** The whitespace `strip` removes is left alone by `upper`. */
  lemma UpperSpaces(w: string)
    requires AllSpace(w)
    ensures Upper(w) == w
  {
    forall i | 0 <= i < |w|
      ensures UpperChar(w[i]) == w[i]
    {
      assert IsSpace(w[i]);
    }
    UpperFixed(w);
  }

  /** Digits are left alone by `upper`. */
  lemma UpperDigits(digits: string)
    requires IsDigits(digits)
    ensures Upper(digits) == digits
  {
    forall i | 0 <= i < |digits|
      ensures UpperChar(digits[i]) == digits[i]
    {
      assert IsDigit(digits[i]);
    }
    UpperFixed(digits);
  }

  /** Stripping padded coordinate text leaves the text from the letter to the last digit. */
  lemma StripCoordinate(w1: string, letter: char, w2: string, w3: string, digits: string, w4: string)
    requires AllSpace(w1) && AllSpace(w4) && !IsSpace(letter) && IsDigits(digits)
    ensures Strip(w1 + [letter] + w2 + [','] + w3 + digits + w4) == [letter] + w2 + [','] + w3 + digits
  {
    var core := [letter] + w2 + [','] + w3 + digits;
    GroupPadded(w1, [letter], w2, [','], w3, digits, w4);
    assert core[0] == letter;
    assert core[|core| - 1] == digits[|digits| - 1];
    assert IsDigit(digits[|digits| - 1]);
    StripPadded(w1, core, w4);
  }

  /** Upper-casing the stripped text changes only the letter. */
  lemma UpperCoordinate(letter: char, w2: string, w3: string, digits: string)
    requires AllSpace(w2) && AllSpace(w3) && IsDigits(digits)
    ensures Upper([letter] + w2 + [','] + w3 + digits)
            == ([UpperChar(letter)] + w2) + ([','] + (w3 + digits))
  {
    var left := [letter] + w2;
    var right := w3 + digits;
    var tail := [','] + right;
    GroupCore([letter], w2, [','], w3, digits);
    UpperAppend(left, tail);
    UpperAppend([letter], w2);
    UpperSpaces(w2);
    assert Upper(left) == [UpperChar(letter)] + w2;
    UpperAppend([','], right);
    UpperAppend(w3, digits);
    UpperSpaces(w3);
    UpperDigits(digits);
    assert Upper(tail) == [','] + right;
  }

  /** Neither padded part holds a comma. */
  lemma PartsCommaFree(up: char, w2: string, w3: string, digits: string)
    requires AllSpace(w2) && AllSpace(w3) && up != ',' && IsDigits(digits)
    ensures ',' !in [up] + w2 && ',' !in w3 + digits
  {
    var left := [up] + w2;
    var right := w3 + digits;
    forall i | 0 <= i < |left|
      ensures left[i] != ','
    {
      if i > 0 {
        assert left[i] == w2[i - 1];
        assert IsSpace(w2[i - 1]);
      }
    }
    forall i | 0 <= i < |right|
      ensures right[i] != ','
    {
      if i < |w3| {
        assert IsSpace(w3[i]);
      } else {
        assert right[i] == digits[i - |w3|];
        assert IsDigit(digits[i - |w3|]);
      }
    }
  }

  /** The upper-cased text splits at its one comma into the letter and the digits, each padded. */
  lemma ParseUpperCoordinate(up: char, w2: string, w3: string, digits: string)
    requires AllSpace(w2) && AllSpace(w3) && !IsSpace(up) && up != ',' && IsDigits(digits)
    ensures ParseNormalized(([up] + w2) + ([','] + (w3 + digits))) == ParseParts([up], digits)
  {
    var left := [up] + w2;
    var right := w3 + digits;
    PartsCommaFree(up, w2, w3, digits);
    ParseOfParts(left, right);
    assert left + [','] + right == left + ([','] + right);
    StripParts(up, w2, w3, digits);
  }

  /** Each padded part strips to the letter or to the digits. */
  lemma StripParts(up: char, w2: string, w3: string, digits: string)
    requires AllSpace(w2) && AllSpace(w3) && !IsSpace(up) && IsDigits(digits)
    ensures Strip([up] + w2) == [up] && Strip(w3 + digits) == digits
  {
    assert [] + [up] + w2 == [up] + w2;
    StripPadded([], [up], w2);
    assert w3 + digits + [] == w3 + digits;
    assert IsDigit(digits[0]) && IsDigit(digits[|digits| - 1]);
    StripPadded(w3, digits, []);
  }

  /** `upper` turns neither a non-space into whitespace nor anything else into a comma. */
  lemma UpperCharNotSpace(ch: char)
    requires !IsSpace(ch) && ch != ','
    ensures !IsSpace(UpperChar(ch)) && UpperChar(ch) != ','
  {
    if 'a' <= ch <= 'z' {
      assert 'A' <= UpperChar(ch) <= 'Z';
    }
  }

  /**
   * parse_coordinate on "<letter>,<digits>" with any whitespace around either
   * part: the upper case of the letter and the value of the digits, leading
   * zeros and all, name the cell; an off-board letter or number, or more
   * digits than `int()` converts, gives None.
   */
  lemma ParsePadded(w1: string, letter: char, w2: string, w3: string, digits: string, w4: string)
    requires AllSpace(w1) && AllSpace(w2) && AllSpace(w3) && AllSpace(w4)
    requires !IsSpace(letter) && letter != ',' && IsDigits(digits)
    ensures ParseCoordinate(w1 + [letter] + w2 + [','] + w3 + digits + w4)
            == if |digits| <= IntMaxStrDigits then NamedCell(UpperChar(letter), DigitsValue(digits)) else None
  {
    var text := w1 + [letter] + w2 + [','] + w3 + digits + w4;
    var up := UpperChar(letter);
    var normalized := ([up] + w2) + ([','] + (w3 + digits));
    StripCoordinate(w1, letter, w2, w3, digits, w4);
    UpperCoordinate(letter, w2, w3, digits);
    assert Upper(Strip(text)) == normalized;
    UpperCharNotSpace(letter);
    ParseUpperCoordinate(up, w2, w3, digits);
    assert ParseCoordinate(text) == ParseParts([up], digits);
    assert |[up]| == 1 && [up][0] == up;
  }

  /** Padded lower-case text with a leading zero names its cell. */
  lemma PaddedExample()
    ensures ParseCoordinate(" h , 08 ") == Some((7, 7))
  {
    ExamplePieces();
    ParsePadded(" ", 'h', " ", " ", "08", " ");
  }

  /** The pieces of the padded example. */
  lemma ExamplePieces()
    ensures AllSpace(" ") && !IsSpace('h') && IsDigits("08")
    ensures " " + ['h'] + " " + [','] + " " + "08" + " " == " h , 08 "
    ensures DigitsValue("08") == 8 && UpperChar('h') == 'H'
  {
    assert "08"[..1] == "0";
  }

  /** A row number one digit longer than `int()` converts gives None, though its value is 1. */
  lemma DigitLimitExample()
    ensures ParseCoordinate("A," + seq(IntMaxStrDigits, _ => '0') + "1") == None
  {
    var digits := seq(IntMaxStrDigits, _ => '0') + "1";
    assert IsDigits(digits);
    ParsePadded([], 'A', [], [], digits, []);
    Unpadded(['A'], [','], digits);
    assert ['A'] + [','] + digits == "A," + seq(IntMaxStrDigits, _ => '0') + "1";
  }

  /**
   * Every cell parse_coordinate returns comes from text that, stripped and
   * upper-cased, is two parts around one comma: the first strips to the
   * cell's column letter, the second to at most 4300 digits whose value is
   * the row plus one.
   */
  lemma ParsedCoordinateText(text: string, r: int, c: int)
    requires ParseCoordinate(text) == Some((r, c))
    ensures var parts := Split(Upper(Strip(text)), ',');
            && |parts| == 2
            && Upper(Strip(text)) == parts[0] + [','] + parts[1]
            && IsLetterColumn(c) && Strip(parts[0]) == [ColumnLetter(c)]
            && IsDigits(Strip(parts[1])) && |Strip(parts[1])| <= IntMaxStrDigits
            && DigitsValue(Strip(parts[1])) == r + 1
  {
    var s := Upper(Strip(text));
    var parts := Split(s, ',');
    assert ParsePieces(parts) == Some((r, c));
    SplitInTwo(s, ',');
    var col := Strip(parts[0]);
    assert NamedCell(col[0], DigitsValue(Strip(parts[1]))) == Some((r, c));
    assert col == [ColumnLetter(c)];
  }

  /**
   * The simple form "<letter>,<number>" parses to the cell it names when the
   * letter is A to O and the number 1 to 15 (a lower-case letter reads as its
   * upper case), and to None otherwise.
   */
  lemma ParseLetterNumber(letter: char, n: nat)
    requires IsAsciiLetter(letter)
    ensures ParseCoordinate([letter] + [','] + NatToString(n)) == NamedCell(UpperChar(letter), n)
  {
    var digits := NatToString(n);
    ParsePadded([], letter, [], [], digits, []);
    Unpadded([letter], [','], digits);
    if n <= BoardSize {
      ShortNumber(n);
    }
  }

  /** Coordinate text with every padding empty. */
  lemma Unpadded(l: string, comma: string, digits: string)
    ensures [] + l + [] + comma + [] + digits + [] == l + comma + digits
  {
  }

  /** Numbers below 100 are written with at most two digits. */
  lemma ShortNumber(n: nat)
    requires n < 100
    ensures |NatToString(n)| <= 2
  {
    if n >= 10 {
      assert NatToString(n) == NatToString(n / 10) + [DigitChar(n % 10)];
    }
  }

  /** The coordinate the status block writes for a cell parses back to that cell. */
  lemma ParseCoordTextRoundTrip(row: int, col: int)
    requires OnBoard(row, col)
    ensures ParseCoordinate(CoordText(row, col)) == Some((row, col))
  {
    var letter := ColumnLetter(col);
    assert 'A' <= letter <= 'O' && UpperChar(letter) == letter;
    assert NamedCell(letter, row + 1) == Some((row, col));
    var text := [letter] + [','] + NatToString(row + 1);
    assert CoordText(row, col) == text;
    ParseLetterNumber(letter, row + 1);
    assert ParseCoordinate(text) == Some((row, col));
  }
}
