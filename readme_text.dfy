/**
 * The README board section: the block of lines between the line holding
 * the start marker and the line holding the end marker, how the updater
 * finds it in the README's lines, how it splices a new block in, and the
 * layout of the block it generates.
 */
module ReadmeText {
  import opened Optional
  import opened PyText

  const StartMarker := "### Current Game State"
  const EndMarker := "### \U{1F4CB} How to Play"

  /** A line holding the start marker. */
  predicate IsStartLine(line: string) {
    Contains(line, StartMarker)
  }

  /** A line the scan takes as an end line: it holds the end marker but not the start marker. */
  predicate IsEndLine(line: string) {
    !IsStartLine(line) && Contains(line, EndMarker)
  }

  /** No start line among the first n lines is followed, still among them, by an end line. */
  predicate NoEndAfterStart(content: seq<string>, n: int)
    requires n <= |content|
  {
    forall j, k | 0 <= j < k < n :: !(IsStartLine(content[j]) && IsEndLine(content[k]))
  }

  /**
   * Lines s to e - 1 are the board section the scan finds: line e is the
   * first end line that comes after some start line, and line s is the last
   * start line before it.
   */
  predicate IsSection(content: seq<string>, s: int, e: int) {
    && 0 <= s < e < |content|
    && IsStartLine(content[s])
    && IsEndLine(content[e])
    && (forall k | s < k < e :: !IsStartLine(content[k]))
    && NoEndAfterStart(content, e)
  }

  predicate HasSection(content: seq<string>) {
    exists s, e | 0 <= s < e < |content| :: IsSection(content, s, e)
  }

  /** The scan finds at most one section. */
  lemma SectionUnique(content: seq<string>, s1: int, e1: int, s2: int, e2: int)
    requires IsSection(content, s1, e1) && IsSection(content, s2, e2)
    ensures s1 == s2 && e1 == e2
  {
    if e1 < e2 || e2 < e1 {
      // the earlier end line already follows the other section's start line
      assert false;
    } else if s1 != s2 {
      // the later start line lies inside the other section
      assert false;
    }
  }

  /**
   * _replace_board_section: scan the lines, remembering the latest start
   * line and stopping at the first end line met after one; with both found,
   * the lines from the start line up to the end line are replaced by the new
   * section's lines, otherwise the content is returned as it is.
   */
  method ReplaceBoardSection(content: seq<string>, newSection: string) returns (updated: seq<string>)
    ensures !HasSection(content) ==> updated == content
    ensures forall s, e | IsSection(content, s, e) :: updated == Splice(content, s, e, SplitLines(newSection))
  {
    var startIdx: Option<nat> := None;
    var endIdx: Option<nat> := None;
    for i := 0 to |content|
      invariant endIdx.None? ==> NoEndAfterStart(content, i)
      invariant endIdx.None? && startIdx.Some? ==>
                  && startIdx.value < i
                  && IsStartLine(content[startIdx.value])
                  && forall k | startIdx.value < k < i :: !IsStartLine(content[k])
      invariant endIdx.None? && startIdx.None? ==> forall k | 0 <= k < i :: !IsStartLine(content[k])
      invariant endIdx.Some? ==> startIdx.Some? && IsSection(content, startIdx.value, endIdx.value)
    {
      if IsStartLine(content[i]) {
        startIdx := Some(i);
      } else if Contains(content[i], EndMarker) && startIdx.Some? {
        endIdx := Some(i);
        break;
      }
    }
    if startIdx.None? {
      NoSectionFound(content);
      return content;
    }
    if endIdx.None? {
      NoSectionFound(content);
      return content;
    }
    updated := content[..startIdx.value] + SplitLines(newSection) + content[endIdx.value..];
    assert IsSection(content, startIdx.value, endIdx.value);
    forall s, e | IsSection(content, s, e)
      ensures updated == Splice(content, s, e, SplitLines(newSection))
    {
      SectionUnique(content, s, e, startIdx.value, endIdx.value);
    }
  }

  /** Content whose start lines are never followed by an end line has no section. */
  lemma NoSectionFound(content: seq<string>)
    requires NoEndAfterStart(content, |content|)
    ensures !HasSection(content)
  {
    forall s, e | 0 <= s < e < |content| && IsStartLine(content[s])
      ensures !IsSection(content, s, e)
    {
      assert !IsEndLine(content[e]);
    }
  }

  /** Among lines j to e - 1, j a start line, there is a last start line. */
  lemma {:induction false} LastStartBefore(content: seq<string>, j: int, e: int) returns (s: int)
    requires 0 <= j < e <= |content| && IsStartLine(content[j])
    ensures j <= s < e && IsStartLine(content[s])
    ensures forall k | s < k < e :: !IsStartLine(content[k])
  {
    if IsStartLine(content[e - 1]) {
      s := e - 1;
    } else {
      s := LastStartBefore(content, j, e - 1);
    }
  }

  /** Some start line among the first n lines is followed, among them, by an end line: a section exists. */
  lemma {:induction false} SectionFound(content: seq<string>, n: int)
    requires 0 <= n <= |content| && !NoEndAfterStart(content, n)
    ensures HasSection(content)
  {
    if !NoEndAfterStart(content, n - 1) {
      SectionFound(content, n - 1);
    } else {
      var j, k :| 0 <= j < k < n && IsStartLine(content[j]) && IsEndLine(content[k]);
      assert k == n - 1;
      var s := LastStartBefore(content, j, k);
      assert IsSection(content, s, k);
    }
  }

  /** The README has a board section exactly when some start line is followed by an end line. */
  lemma SectionIffStartThenEnd(content: seq<string>)
    ensures HasSection(content) <==> !NoEndAfterStart(content, |content|)
  {
    if NoEndAfterStart(content, |content|) {
      NoSectionFound(content);
    } else {
      SectionFound(content, |content|);
    }
  }

  /** The lines with lines s to e - 1 replaced by `lines`. */
  function Splice(content: seq<string>, s: int, e: int, lines: seq<string>): (r: seq<string>)
    requires 0 <= s <= e <= |content|
    ensures |r| == s + |lines| + (|content| - e)
    ensures r[..s] == content[..s] && r[s..s + |lines|] == lines && r[s + |lines|..] == content[e..]
  {
    content[..s] + lines + content[e..]
  }

  /**
   * A block whose first line is a start line and whose other lines are
   * neither start nor end lines, spliced in place of the section, is the
   * section the next scan finds.
   */
  predicate IsSectionBlock(lines: seq<string>) {
    && |lines| >= 1
    && IsStartLine(lines[0])
    && forall k | 1 <= k < |lines| :: !IsStartLine(lines[k]) && !IsEndLine(lines[k])
  }

  lemma SectionAfterReplace(content: seq<string>, s: int, e: int, lines: seq<string>)
    requires IsSection(content, s, e) && IsSectionBlock(lines)
    ensures IsSection(Splice(content, s, e, lines), s, s + |lines|)
  {
    var updated := Splice(content, s, e, lines);
    var e' := s + |lines|;
    assert updated[s] == lines[0];
    assert updated[e'] == content[e];
    forall k | s < k < e'
      ensures !IsStartLine(updated[k]) && !IsEndLine(updated[k])
    {
      assert updated[k] == lines[k - s];
    }
    forall j, k | 0 <= j < k < e'
      ensures !(IsStartLine(updated[j]) && IsEndLine(updated[k]))
    {
      if k < s {
        assert updated[j] == content[j] && updated[k] == content[k];
      }
    }
  }

  /** Splicing the same block again in place of the section it formed changes nothing. */
  lemma ReplaceTwiceIsReplaceOnce(content: seq<string>, s: int, e: int, lines: seq<string>)
    requires IsSection(content, s, e) && IsSectionBlock(lines)
    ensures var once := Splice(content, s, e, lines);
            IsSection(once, s, s + |lines|) && Splice(once, s, s + |lines|, lines) == once
  {
    SectionAfterReplace(content, s, e, lines);
  }

  // ---------------------------------------------------------------------------
  // The generated section

  /**
   * _generate_board_section's block: the start-marker heading, a blank line,
   * a code fence, the board text, a code fence, a blank line, the status
   * text and a blank line, joined.
   */
  function BoardSection(boardText: string, statusText: string): string {
    Concat([StartMarker + "\n", "\n", "```\n", boardText + "\n", "```\n", "\n", statusText + "\n", "\n"])
  }

  lemma ConcatCons(piece: string, rest: seq<string>)
    ensures Concat([piece] + rest) == piece + Concat(rest)
  {
    assert ([piece] + rest)[1..] == rest;
  }

  /** Joined lines with a final '\n' split back into the lines, each ended by a '\n'. */
  lemma SplitJoined(lines: seq<string>)
    requires |lines| >= 1 && forall i | 0 <= i < |lines| :: '\n' !in lines[i]
    ensures SplitLines(JoinLines(lines) + "\n") == WithNewlines(lines)
  {
    JoinLinesNewline(lines);
    SplitLinesOfTerminated(lines);
  }

  /** The heading line of the block splits off as one line and is a start line. */
  lemma HeadingLine()
    ensures SplitLines(StartMarker + "\n") == [StartMarker + "\n"]
    ensures IsStartLine(StartMarker + "\n")
  {
    assert '\n' !in StartMarker;
    SplitLinesOfLine(StartMarker);
    assert OccursAt(StartMarker + "\n", StartMarker, 0);
  }

  /** The block is its eight pieces joined. */
  lemma BoardSectionPieces(boardText: string, statusText: string)
    ensures BoardSection(boardText, statusText)
            == (StartMarker + "\n") + ("\n" + ("```\n" + ((boardText + "\n")
               + ("```\n" + ("\n" + ((statusText + "\n") + "\n"))))))
  {
    var p0, p1, p2, p3 := StartMarker + "\n", "\n", "```\n", boardText + "\n";
    var p4, p5, p6, p7 := "```\n", "\n", statusText + "\n", "\n";
    ConcatCons(p7, []);
    ConcatCons(p6, [p7]);
    ConcatCons(p5, [p6, p7]);
    ConcatCons(p4, [p5, p6, p7]);
    ConcatCons(p3, [p4, p5, p6, p7]);
    ConcatCons(p2, [p3, p4, p5, p6, p7]);
    ConcatCons(p1, [p2, p3, p4, p5, p6, p7]);
    ConcatCons(p0, [p1, p2, p3, p4, p5, p6, p7]);
  }

  /** A blank line and a code fence each split into themselves. */
  lemma FixedLines()
    ensures SplitLines("\n") == ["\n"] && SplitLines("```\n") == ["```\n"]
  {
    SplitLinesOfLine("");
    assert "" + "\n" == "\n";
    SplitLinesOfLine("```");
    assert "```" + "\n" == "```\n";
  }

  /** Every piece of the block ends with a '\n', so the block splits piece by piece. */
  lemma SectionSplit(boardText: string, statusText: string)
    ensures SplitLines(BoardSection(boardText, statusText))
            == [StartMarker + "\n"] + (["\n"] + (["```\n"] + (SplitLines(boardText + "\n")
               + (["```\n"] + (["\n"] + (SplitLines(statusText + "\n") + ["\n"]))))))
  {
    BoardSectionPieces(boardText, statusText);
    FixedLines();
    HeadingLine();
    SplitPieces(StartMarker + "\n", "\n", "```\n", boardText + "\n", "```\n", "\n", statusText + "\n", "\n");
  }

  /** Eight pieces, the first seven ended by a '\n', split piece by piece. */
  lemma SplitPieces(p0: string, p1: string, p2: string, p3: string,
                    p4: string, p5: string, p6: string, p7: string)
    requires p0 != [] && p0[|p0| - 1] == '\n' && p1 != [] && p1[|p1| - 1] == '\n'
    requires p2 != [] && p2[|p2| - 1] == '\n' && p3 != [] && p3[|p3| - 1] == '\n'
    requires p4 != [] && p4[|p4| - 1] == '\n' && p5 != [] && p5[|p5| - 1] == '\n'
    requires p6 != [] && p6[|p6| - 1] == '\n'
    ensures SplitLines(p0 + (p1 + (p2 + (p3 + (p4 + (p5 + (p6 + p7)))))))
            == SplitLines(p0) + (SplitLines(p1) + (SplitLines(p2) + (SplitLines(p3)
               + (SplitLines(p4) + (SplitLines(p5) + (SplitLines(p6) + SplitLines(p7)))))))
  {
    SplitLinesAppend(p6, p7);
    SplitLinesAppend(p5, p6 + p7);
    SplitLinesAppend(p4, p5 + (p6 + p7));
    SplitLinesAppend(p3, p4 + (p5 + (p6 + p7)));
    SplitLinesAppend(p2, p3 + (p4 + (p5 + (p6 + p7))));
    SplitLinesAppend(p1, p2 + (p3 + (p4 + (p5 + (p6 + p7)))));
    SplitLinesAppend(p0, p1 + (p2 + (p3 + (p4 + (p5 + (p6 + p7))))));
  }

  /**
   * The lines the splice inserts for a generated block: the heading, a blank
   * line and a fence, each board line, a fence and a blank line, each status
   * line, and a final blank line, every one ended by a '\n'.
   */
  lemma SectionLines(boardLines: seq<string>, statusLines: seq<string>)
    requires |boardLines| >= 1 && forall i | 0 <= i < |boardLines| :: '\n' !in boardLines[i]
    requires |statusLines| >= 1 && forall i | 0 <= i < |statusLines| :: '\n' !in statusLines[i]
    ensures SplitLines(BoardSection(JoinLines(boardLines), JoinLines(statusLines)))
            == [StartMarker + "\n"] + (["\n"] + (["```\n"] + (WithNewlines(boardLines)
               + (["```\n"] + (["\n"] + (WithNewlines(statusLines) + ["\n"]))))))
  {
    SectionSplit(JoinLines(boardLines), JoinLines(statusLines));
    SplitJoined(boardLines);
    SplitJoined(statusLines);
  }
}
