/**
 * Python's str.isspace, str.rstrip() and str.splitlines() on code points,
 * as StreamToLogger.write applies them to a buffer.
 */
module PyText {

  function Last<T>(s: seq<T>): T
    requires s != []
  {
    s[|s| - 1]
  }

  /** str.isspace for one character: Unicode bidirectional class WS, B or S, or category Zs. */
  predicate IsWhitespace(c: char)
  {
    ('\t' <= c <= '\r') || ('\U{1C}' <= c <= ' ') || c == '\U{85}' || c == '\U{A0}' ||
    c == '\U{1680}' || ('\U{2000}' <= c <= '\U{200A}') || c == '\U{2028}' || c == '\U{2029}' ||
    c == '\U{202F}' || c == '\U{205F}' || c == '\U{3000}'
  }

  /** The line boundaries of str.splitlines (of which "\r\n" is the one two-character boundary). */
  predicate IsLineBreak(c: char)
  {
    c == '\n' || c == '\r' || c == '\U{B}' || c == '\U{C}' || ('\U{1C}' <= c <= '\U{1E}') ||
    c == '\U{85}' || c == '\U{2028}' || c == '\U{2029}'
  }

  predicate NoLineBreak(s: string)
  {
    forall k :: 0 <= k < |s| ==> !IsLineBreak(s[k])
  }

  predicate AllWhitespace(s: string)
  {
    forall k :: 0 <= k < |s| ==> IsWhitespace(s[k])
  }

  /** A string that rstrip() leaves as it is. */
  predicate NoTrailingWhitespace(s: string)
  {
    s == [] || !IsWhitespace(Last(s))
  }

  lemma LineBreakIsWhitespace(c: char)
    requires IsLineBreak(c)
    ensures IsWhitespace(c)
  {
  }

  /** str.rstrip() with no argument: the longest prefix that does not end in whitespace. */
  function RStrip(s: string): (r: string)
    ensures r <= s
    ensures forall k :: |r| <= k < |s| ==> IsWhitespace(s[k])
    ensures NoTrailingWhitespace(r)
    decreases |s|
  {
    if s != [] && IsWhitespace(Last(s)) then RStrip(s[..|s| - 1]) else s
  }

  /** The three properties in RStrip's contract determine its result. */
  lemma RStripUnique(s: string, r: string)
    requires r <= s && AllWhitespace(s[|r|..]) && NoTrailingWhitespace(r)
    ensures RStrip(s) == r
  {
    var t := RStrip(s);
    assert |r| > 0 ==> !IsWhitespace(s[|r| - 1]);
    assert |t| > 0 ==> !IsWhitespace(s[|t| - 1]);
    assert forall k :: |r| <= k < |s| ==> IsWhitespace(s[k]) by {
      forall k | |r| <= k < |s| ensures IsWhitespace(s[k]) {
        assert s[k] == s[|r|..][k - |r|];
      }
    }
    assert |t| == |r|;
    assert t == s[..|t|] && r == s[..|r|];
  }

  /** Whitespace appended to a string does not change what rstrip() keeps. */
  lemma RStripIgnoresWhitespaceSuffix(s: string, w: string)
    requires AllWhitespace(w)
    ensures RStrip(s + w) == RStrip(s)
  {
    var r := RStrip(s);
    assert (s + w)[|r|..] == s[|r|..] + w;
    RStripUnique(s + w, r);
  }

  /** rstrip() of a text whose last piece keeps a character strips only that piece. */
  lemma RStripAppend(p: string, l: string)
    requires RStrip(l) != []
    ensures RStrip(p + l) == p + RStrip(l)
  {
    var r := RStrip(l);
    assert (p + l)[|p + r|..] == l[|r|..];
    assert Last(p + r) == Last(r);
    RStripUnique(p + l, p + r);
  }

  lemma RStripIdempotent(s: string)
    ensures RStrip(RStrip(s)) == RStrip(s)
  {
    RStripUnique(RStrip(s), RStrip(s));
  }

  /** The index of the first line boundary in s, or |s| when there is none. */
  function LineEnd(s: string): (i: nat)
    ensures i <= |s|
    ensures forall k :: 0 <= k < i ==> !IsLineBreak(s[k])
    ensures i < |s| ==> IsLineBreak(s[i])
  {
    if s == [] || IsLineBreak(s[0]) then 0 else 1 + LineEnd(s[1..])
  }

  /** The number of characters of the line boundary that starts at s[i]. */
  function BoundaryLength(s: string, i: nat): nat
    requires i < |s|
  {
    if s[i] == '\r' && i + 1 < |s| && s[i + 1] == '\n' then 2 else 1
  }

  /**
   * str.splitlines() (keepends=False): the pieces between line boundaries. The empty
   * string has no lines, and a final boundary does not start an extra empty line.
   */
  function SplitLines(s: string): (lines: seq<string>)
    ensures lines == [] <==> s == []
    ensures forall j :: 0 <= j < |lines| ==> NoLineBreak(lines[j])
    ensures s != [] && !IsLineBreak(Last(s)) ==> Last(lines) != [] && Last(Last(lines)) == Last(s)
    decreases |s|
  {
    if s == [] then []
    else
      var i := LineEnd(s);
      if i == |s| then [s]
      else [s[..i]] + SplitLines(s[i + BoundaryLength(s, i)..])
  }

  /** "\n".join(lines). */
  function JoinLines(lines: seq<string>): string
  {
    if lines == [] then []
    else if |lines| == 1 then lines[0]
    else lines[0] + "\n" + JoinLines(lines[1..])
  }

  /** A string that holds no line boundary and is not empty is one line. */
  lemma SplitSingleLine(s: string)
    requires s != [] && NoLineBreak(s)
    ensures SplitLines(s) == [s]
  {
    assert LineEnd(s) == |s|;
  }

  /**
   * A line followed by one boundary character is split off as the first line,
   * unless the character is "\r" and starts a "\r\n" pair.
   */
  lemma SplitLinesCons(first: string, b: char, rest: string)
    requires NoLineBreak(first) && IsLineBreak(b)
    requires !(b == '\r' && rest != [] && rest[0] == '\n')
    ensures SplitLines(first + [b] + rest) == [first] + SplitLines(rest)
  {
    var s := first + [b] + rest;
    assert s[|first|] == b;
    assert forall k :: 0 <= k < |first| ==> s[k] == first[k];
    assert LineEnd(s) == |first|;
    assert s[..|first|] == first;
    assert s[|first| + 1..] == rest;
  }

  /** "\r\n" is one boundary: the line before it is split off and no empty line follows. */
  lemma SplitLinesCrLf(first: string, rest: string)
    requires NoLineBreak(first)
    ensures SplitLines(first + "\r\n" + rest) == [first] + SplitLines(rest)
  {
    var s := first + "\r\n" + rest;
    assert s[|first|] == '\r' && s[|first| + 1] == '\n';
    assert forall k :: 0 <= k < |first| ==> s[k] == first[k];
    assert LineEnd(s) == |first|;
    assert s[..|first|] == first;
    assert s[|first| + 2..] == rest;
  }

  /**
   * splitlines undoes "\n".join for lines without line boundaries, as long as
   * the last line is not empty (a trailing empty line is not split off again).
   */
  lemma {:induction false} SplitLinesOfJoin(lines: seq<string>)
    requires forall j :: 0 <= j < |lines| ==> NoLineBreak(lines[j])
    requires lines != [] ==> Last(lines) != []
    ensures SplitLines(JoinLines(lines)) == lines
  {
    if |lines| == 1 {
      SplitSingleLine(lines[0]);
    } else if |lines| > 1 {
      SplitLinesCons(lines[0], '\n', JoinLines(lines[1..]));
      assert lines[0] + "\n" + JoinLines(lines[1..]) == lines[0] + ['\n'] + JoinLines(lines[1..]);
      SplitLinesOfJoin(lines[1..]);
    }
  }

  /**
   * "\n".join undoes splitlines for a text whose only boundaries are "\n" and
   * which does not end in one: the lines are exactly the text between boundaries.
   */
  lemma {:induction false} JoinOfSplitLines(s: string)
    requires forall k :: 0 <= k < |s| && IsLineBreak(s[k]) ==> s[k] == '\n'
    requires s == [] || !IsLineBreak(Last(s))
    ensures JoinLines(SplitLines(s)) == s
    decreases |s|
  {
    if s != [] {
      var i := LineEnd(s);
      if i < |s| {
        var first, rest := s[..i], s[i + 1..];
        assert s == first + ['\n'] + rest;
        assert rest != [] && Last(rest) == Last(s);
        SplitLinesCons(first, '\n', rest);
        JoinOfSplitLines(rest);
        JoinLinesCons(first, SplitLines(rest));
      }
    }
  }

  lemma JoinLinesCons(first: string, lines: seq<string>)
    requires lines != []
    ensures JoinLines([first] + lines) == first + "\n" + JoinLines(lines)
  {
    assert ([first] + lines)[1..] == lines;
  }

  /** "\n".join of two non-empty lists is the two joins with a "\n" between. */
  lemma {:induction false} JoinLinesAppend(xs: seq<string>, ys: seq<string>)
    requires xs != [] && ys != []
    ensures JoinLines(xs + ys) == JoinLines(xs) + "\n" + JoinLines(ys)
  {
    if |xs| == 1 {
      JoinLinesCons(xs[0], ys);
      assert xs + ys == [xs[0]] + ys;
    } else {
      JoinLinesAppend(xs[1..], ys);
      assert (xs + ys)[1..] == xs[1..] + ys;
    }
  }

  /** Whitespace lines join into whitespace. */
  lemma {:induction false} JoinLinesOfWhitespace(lines: seq<string>)
    requires forall j :: 0 <= j < |lines| ==> AllWhitespace(lines[j])
    ensures AllWhitespace(JoinLines(lines))
  {
    if |lines| > 1 {
      JoinLinesOfWhitespace(lines[1..]);
      var t := JoinLines(lines[1..]);
      assert JoinLines(lines) == lines[0] + "\n" + t;
      assert AllWhitespace(lines[0]);
      forall k | 0 <= k < |JoinLines(lines)| ensures IsWhitespace(JoinLines(lines)[k]) {
        if k < |lines[0]| {
          assert JoinLines(lines)[k] == lines[0][k];
        } else if k > |lines[0]| {
          assert JoinLines(lines)[k] == t[k - |lines[0]| - 1];
        }
      }
    }
  }

  lemma RStripKeepsNoLineBreak(l: string)
    requires NoLineBreak(l)
    ensures NoLineBreak(RStrip(l))
  {
    var r := RStrip(l);
    forall k | 0 <= k < |r| ensures !IsLineBreak(r[k]) {
      assert r[k] == l[k];
    }
  }

  /** rstrip() of joined lines strips only the last line, when that keeps a character. */
  lemma RStripJoinedLines(xs: seq<string>, l: string)
    requires RStrip(l) != []
    ensures RStrip(JoinLines(xs + [l])) == JoinLines(xs + [RStrip(l)])
  {
    if xs == [] {
      assert xs + [l] == [l] && xs + [RStrip(l)] == [RStrip(l)];
      RStripIdempotent(l);
    } else {
      JoinLinesAppend(xs, [l]);
      JoinLinesAppend(xs, [RStrip(l)]);
      RStripAppend(JoinLines(xs) + "\n", l);
    }
  }
}
