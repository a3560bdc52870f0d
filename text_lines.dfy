/** The two Python string built-ins the line-delimited fallback relies on:
    `str.splitlines()` and the blankness test `not line.strip()`. */
module TextLines {

  /** The characters `str.isspace()` accepts; every line boundary is one. */
  function IsSpace(c: char): (b: bool)
    ensures IsLineBreak(c) ==> b
  {
    c == ' ' || '\t' <= c <= '\r' || '\U{1c}' <= c <= '\U{1f}' || c == '\U{85}' || c == '\U{a0}'
    || c == '\U{1680}' || '\U{2000}' <= c <= '\U{200a}' || c == '\U{2028}' || c == '\U{2029}'
    || c == '\U{202f}' || c == '\U{205f}' || c == '\U{3000}'
  }

  /** `not line.strip()`: the line has no character other than white space
      (`BlankIffStripEmpty` connects the two). */
  predicate IsBlank(line: string)
  {
    forall i :: 0 <= i < |line| ==> IsSpace(line[i])
  }

  /** `s.strip()`: `s` without its leading and trailing white space. */
  function Strip(s: string): (r: string)
    ensures |r| <= |s|
    ensures r != [] ==> !IsSpace(r[0]) && !IsSpace(r[|r| - 1])
    decreases |s|
  {
    if s == [] then []
    else if IsSpace(s[0]) then Strip(s[1..])
    else if IsSpace(s[|s| - 1]) then Strip(s[..|s| - 1])
    else s
  }

  /** A line is blank exactly when stripping it leaves nothing. */
  lemma {:induction false} BlankIffStripEmpty(line: string)
    ensures IsBlank(line) <==> Strip(line) == []
    decreases |line|
  {
    if line != [] {
      if IsSpace(line[0]) {
        BlankIffStripEmpty(line[1..]);
        assert forall i :: 0 < i < |line| ==> line[i] == line[1..][i - 1];
      } else if |line| > 1 && IsSpace(line[|line| - 1]) {
        BlankIffStripEmpty(line[..|line| - 1]);
        assert line[..|line| - 1][0] == line[0];
      }
    }
  }

  /** The line boundaries `str.splitlines()` splits at (`\r\n` counts once). */
  predicate IsLineBreak(c: char)
  {
    '\n' <= c <= '\r' || '\U{1c}' <= c <= '\U{1e}' || c == '\U{85}' || c == '\U{2028}' || c == '\U{2029}'
  }

  /** Index of the first line boundary at or after `from`, or `|s|`. */
  function NextBreak(s: string, from: nat): (i: nat)
    requires from <= |s|
    ensures from <= i <= |s|
    ensures i < |s| ==> IsLineBreak(s[i])
    ensures forall j :: from <= j < i ==> !IsLineBreak(s[j])
    decreases |s| - from
  {
    if from == |s| || IsLineBreak(s[from]) then from else NextBreak(s, from + 1)
  }

  /** `s.splitlines()`: the lines of `s` without their boundaries; a final
      boundary does not start another line, and "" has no lines. */
  function SplitLines(s: string): (lines: seq<string>)
    decreases |s|
  {
    if s == [] then []
    else
      var i := NextBreak(s, 0);
      if i == |s| then [s]
      else
        var width := BreakWidth(s, i);
        [s[..i]] + SplitLines(s[i + width..])
  }

  /** The length of the boundary at `i`: two for `\r\n`, one otherwise. */
  function BreakWidth(s: string, i: nat): (w: nat)
    requires i < |s|
    ensures 1 <= w <= 2 && i + w <= |s|
  {
    if s[i] == '\r' && i + 1 < |s| && s[i + 1] == '\n' then 2 else 1
  }

  /** A boundary `str.splitlines()` removes: `\r\n`, or one break character. */
  predicate IsLineEnd(e: string)
  {
    e == "\r\n" || (|e| == 1 && IsLineBreak(e[0]))
  }

  /** The boundary that ended each line of `SplitLines(s)`; "" for a last
      line that runs to the end of `s`. */
  function LineEnds(s: string): (ends: seq<string>)
    decreases |s|
  {
    if s == [] then []
    else
      var i := NextBreak(s, 0);
      if i == |s| then [""]
      else
        var width := BreakWidth(s, i);
        [s[i..i + width]] + LineEnds(s[i + width..])
  }

  /** Each line followed by its boundary, all concatenated. */
  function Joined(lines: seq<string>, ends: seq<string>): string
    requires |lines| == |ends|
  {
    if lines == [] then [] else lines[0] + ends[0] + Joined(lines[1..], ends[1..])
  }

  /** One step of `SplitLines` and `LineEnds`: the first line and its
      boundary, then the lines of the rest. */
  lemma SplitLinesStep(s: string) returns (i: nat, width: nat)
    requires s != [] && NextBreak(s, 0) < |s|
    ensures i == NextBreak(s, 0) && i < |s| && width == BreakWidth(s, i)
    ensures SplitLines(s) == [s[..i]] + SplitLines(s[i + width..])
    ensures LineEnds(s) == [s[i..i + width]] + LineEnds(s[i + width..])
  {
    i := NextBreak(s, 0);
    width := BreakWidth(s, i);
  }

  /** No line produced by `splitlines()` contains a line boundary. */
  lemma {:induction false} LinesHaveNoBreaks(s: string)
    ensures forall k, j :: 0 <= k < |SplitLines(s)| && 0 <= j < |SplitLines(s)[k]| ==> !IsLineBreak(SplitLines(s)[k][j])
    decreases |s|
  {
    if s != [] && NextBreak(s, 0) < |s| {
      var i, width := SplitLinesStep(s);
      LinesHaveNoBreaks(s[i + width..]);
    }
  }

  /** A text without a line boundary is one line that runs to its end. */
  lemma SingleLine(s: string)
    requires s != [] && NextBreak(s, 0) == |s|
    ensures SplitLines(s) == [s] && LineEnds(s) == [""]
    ensures Joined([s], [""]) == s
  {
    assert Joined([s], [""]) == s + "" + Joined([], []);
  }

  lemma Pieces(s: string, i: nat, j: nat)
    requires i <= j <= |s|
    ensures s[..i] + s[i..j] + s[j..] == s
  {
  }

  lemma JoinedCons(line: string, end: string, lines: seq<string>, ends: seq<string>)
    requires |lines| == |ends|
    ensures Joined([line] + lines, [end] + ends) == line + end + Joined(lines, ends)
  {
    assert ([line] + lines)[1..] == lines && ([end] + ends)[1..] == ends;
  }

  /** `splitlines()` loses nothing but the boundaries: putting each line's
      boundary back gives `s` again. */
  lemma {:induction false} SplitLinesRoundTrip(s: string)
    ensures |LineEnds(s)| == |SplitLines(s)|
    ensures Joined(SplitLines(s), LineEnds(s)) == s
    decreases |s|
  {
    if s != [] && NextBreak(s, 0) < |s| {
      var i, width := SplitLinesStep(s);
      var rest := s[i + width..];
      SplitLinesRoundTrip(rest);
      JoinedCons(s[..i], s[i..i + width], SplitLines(rest), LineEnds(rest));
      Pieces(s, i, i + width);
    } else if s != [] {
      SingleLine(s);
    }
  }

  lemma BoundaryIsLineEnd(s: string, i: nat, width: nat)
    requires i < |s| && IsLineBreak(s[i]) && width == BreakWidth(s, i)
    ensures IsLineEnd(s[i..i + width])
  {
    if width == 2 { assert s[i..i + width] == "\r\n"; } else { assert s[i..i + width] == [s[i]]; }
  }

  /** The boundaries `splitlines()` removes are real ones: each is `\r\n` or
      a single break character, except that the last line may run to the end
      of `s`; and no line is empty together with its boundary. */
  lemma LineEndsAreBoundaries(s: string)
    ensures |LineEnds(s)| == |SplitLines(s)|
    ensures forall k :: 0 <= k < |LineEnds(s)| ==> |SplitLines(s)[k]| + |LineEnds(s)[k]| > 0
    ensures forall k :: 0 <= k < |LineEnds(s)| - 1 ==> IsLineEnd(LineEnds(s)[k])
    ensures LineEnds(s) != [] ==> IsLineEnd(LineEnds(s)[|LineEnds(s)| - 1]) || LineEnds(s)[|LineEnds(s)| - 1] == ""
  {
    NoEmptyPiece(s);
    EndsAreLineEnds(s);
  }

  /** No line is empty together with its boundary. */
  lemma {:induction false} NoEmptyPiece(s: string)
    ensures |LineEnds(s)| == |SplitLines(s)|
    ensures forall k :: 0 <= k < |LineEnds(s)| ==> |SplitLines(s)[k]| + |LineEnds(s)[k]| > 0
    decreases |s|
  {
    if s != [] && NextBreak(s, 0) == |s| {
      SingleLine(s);
    } else if s != [] {
      var i, width := SplitLinesStep(s);
      NoEmptyPiece(s[i + width..]);
    }
  }

  /** Every boundary but the last line's is `\r\n` or one break character. */
  lemma {:induction false} EndsAreLineEnds(s: string)
    ensures forall k :: 0 <= k < |LineEnds(s)| - 1 ==> IsLineEnd(LineEnds(s)[k])
    ensures LineEnds(s) != [] ==> IsLineEnd(LineEnds(s)[|LineEnds(s)| - 1]) || LineEnds(s)[|LineEnds(s)| - 1] == ""
    decreases |s|
  {
    if s != [] && NextBreak(s, 0) == |s| {
      SingleLine(s);
    } else if s != [] {
      var i, width := SplitLinesStep(s);
      EndsAreLineEnds(s[i + width..]);
      BoundaryIsLineEnd(s, i, width);
    }
  }

  /** A `\r` directly followed by `\n` is one boundary, not two: a line
      ended by a lone `\r` is never followed by an empty line ended by `\n`. */
  lemma {:induction false} CrLfIsOneBoundary(s: string)
    ensures |LineEnds(s)| == |SplitLines(s)|
    ensures forall k :: 0 <= k < |LineEnds(s)| - 1 && LineEnds(s)[k] == "\r" ==> !(SplitLines(s)[k + 1] == "" && LineEnds(s)[k + 1] == "\n")
    decreases |s|
  {
    if s != [] && NextBreak(s, 0) == |s| {
      SingleLine(s);
    } else if s != [] {
      var i, width := SplitLinesStep(s);
      var rest := s[i + width..];
      CrLfIsOneBoundary(rest);
      if s[i..i + width] == "\r" && rest != [] {
        NoNewlineAfterLoneCr(s, i, width);
        FirstLineOfNewline(rest);
      }
    }
  }

  /** A boundary that is a lone `\r` is not followed by `\n`. */
  lemma NoNewlineAfterLoneCr(s: string, i: nat, width: nat)
    requires i < |s| && width == BreakWidth(s, i) && s[i..i + width] == "\r" && i + width < |s|
    ensures s[i + width..][0] != '\n'
  {
    assert s[i] == s[i..i + width][0];
  }

  /** A text whose first line is empty and ended by `\n` starts with `\n`. */
  lemma FirstLineOfNewline(s: string)
    requires s != []
    ensures |LineEnds(s)| == |SplitLines(s)|
    ensures SplitLines(s) != [] && SplitLines(s)[0] == "" && LineEnds(s)[0] == "\n" ==> s[0] == '\n'
  {
    SplitLinesRoundTrip(s);
    if NextBreak(s, 0) == |s| {
      SingleLine(s);
    } else {
      var i, width := SplitLinesStep(s);
      if i == 0 && s[i..i + width] == "\n" {
        assert s[0] == s[i..i + width][0];
      }
    }
  }
}
