/** StreamToLogger: turns text written to stdout into log records, one per line. */
module Stream {
  import opened Wrappers
  import opened PyText
  import opened Levels
  import opened Loguru

  /** The messages write(buffer) logs: buffer.rstrip().splitlines(), each line rstrip()ed. */
  function WriteMessages(buffer: string): seq<string>
  {
    var lines := SplitLines(RStrip(buffer));
    seq(|lines|, k requires 0 <= k < |lines| => RStrip(lines[k]))
  }

  /** The records a run of log calls with one level, depth and set of sinks leaves, one per message. */
  function Stamp(msgs: seq<string>, level: Level, depth: nat, sinkIds: seq<nat>): seq<Record>
  {
    seq(|msgs|, k requires 0 <= k < |msgs| => Record(level, msgs[k], depth, None, sinkIds))
  }

  lemma StampSnoc(msgs: seq<string>, m: string, level: Level, depth: nat, sinkIds: seq<nat>)
    ensures Stamp(msgs + [m], level, depth, sinkIds) == Stamp(msgs, level, depth, sinkIds) + [Record(level, m, depth, None, sinkIds)]
  {
    assert Stamp(msgs + [m], level, depth, sinkIds)[|msgs|] == Record(level, m, depth, None, sinkIds);
  }

  class StreamToLogger {
    var level: string

    constructor (level: string)
      ensures this.level == level
    {
      this.level := level;
    }

    /** StreamToLogger() with the default level. */
    constructor WithDefaultLevel()
      ensures level == "INFO"
    {
      level := "INFO";
    }

    /**
     * Logs each line of the buffer at this stream's level with depth 1, in order.
     * With sinks registered, loguru raises on an unknown level name at the first
     * line, and nothing is logged; with none, nothing is logged and nothing raises.
     */
    method Write(logger: Logger, buffer: string) returns (ok: bool)
      modifies logger
      ensures ok <==> WriteMessages(buffer) == [] || logger.sinks == [] || level in LoguruLevels
      ensures logger.records == old(logger.records) +
        (if logger.sinks != [] && level in LoguruLevels
         then Stamp(WriteMessages(buffer), Named(level), 1, SinkIds(logger.sinks)) else [])
      ensures logger.sinks == old(logger.sinks) && logger.nextId == old(logger.nextId)
    {
      var lines := SplitLines(RStrip(buffer));
      ghost var msgs := WriteMessages(buffer);
      ghost var emits := logger.sinks != [] && level in LoguruLevels;
      ok := true;
      for i := 0 to |lines|
        invariant logger.sinks == old(logger.sinks) && logger.nextId == old(logger.nextId)
        invariant logger.records == old(logger.records) +
          (if emits then Stamp(msgs[..i], Named(level), 1, SinkIds(logger.sinks)) else [])
        invariant i > 0 ==> logger.sinks == [] || level in LoguruLevels
      {
        var logged := logger.Log(Named(level), RStrip(lines[i]), 1, None);
        if !logged {
          ok := false;
          return;
        }
        assert msgs[..i + 1] == msgs[..i] + [msgs[i]];
        StampSnoc(msgs[..i], msgs[i], Named(level), 1, SinkIds(logger.sinks));
      }
      assert msgs[..|lines|] == msgs;
    }

    /** flush does nothing: its frame is empty. */
    method Flush()
      ensures unchanged(this)
    {
    }
  }

  /**
   * Every logged message is a whole line: it holds no line boundary and ends in no
   * whitespace; and the last one is not empty, so trailing blank lines are dropped.
   */
  lemma WriteMessagesAreLines(buffer: string)
    ensures forall j :: 0 <= j < |WriteMessages(buffer)| ==>
      NoLineBreak(WriteMessages(buffer)[j]) && NoTrailingWhitespace(WriteMessages(buffer)[j])
    ensures WriteMessages(buffer) != [] ==> Last(WriteMessages(buffer)) != []
  {
    var text := RStrip(buffer);
    var lines := SplitLines(text);
    var msgs := WriteMessages(buffer);
    forall j | 0 <= j < |msgs|
      ensures NoLineBreak(msgs[j])
    {
      assert msgs[j] <= lines[j];
    }
    if msgs != [] {
      if IsLineBreak(Last(text)) {
        LineBreakIsWhitespace(Last(text));
      }
      assert Last(msgs) == RStrip(Last(lines));
      assert Last(lines) != [] && !IsWhitespace(Last(Last(lines)));
    }
  }

  /** A buffer logs nothing exactly when it is empty or all whitespace. */
  lemma BlankBufferWritesNothing(buffer: string)
    ensures WriteMessages(buffer) == [] <==> AllWhitespace(buffer)
  {
    var text := RStrip(buffer);
    if text != [] {
      assert buffer[|text| - 1] == Last(text);
    }
  }

  /**
   * Lines joined with "\n" and written at once are logged back line by line, each
   * rstrip()ed, blank interior lines included, provided none holds a line boundary
   * and the last one keeps a character after rstrip().
   */
  lemma WriteOfJoinedLines(lines: seq<string>)
    requires forall j :: 0 <= j < |lines| ==> NoLineBreak(lines[j])
    requires lines != [] ==> RStrip(Last(lines)) != []
    ensures |WriteMessages(JoinLines(lines))| == |lines|
    ensures forall j :: 0 <= j < |lines| ==> WriteMessages(JoinLines(lines))[j] == RStrip(lines[j])
  {
    if lines != [] {
      var xs, l := lines[..|lines| - 1], Last(lines);
      var stripped := xs + [RStrip(l)];
      assert lines == xs + [l];
      RStripJoinedLines(xs, l);
      RStripKeepsNoLineBreak(l);
      assert forall j :: 0 <= j < |stripped| ==> NoLineBreak(stripped[j]);
      SplitLinesOfJoin(stripped);
      RStripIdempotent(l);
    }
  }

  /** Lines that rstrip() leaves alone come back exactly. */
  lemma WriteOfCleanLines(lines: seq<string>)
    requires forall j :: 0 <= j < |lines| ==> NoLineBreak(lines[j]) && NoTrailingWhitespace(lines[j])
    requires lines != [] ==> Last(lines) != []
    ensures WriteMessages(JoinLines(lines)) == lines
  {
    WriteOfJoinedLines(lines);
  }

  /** Trailing blank lines are dropped. */
  lemma WriteDropsTrailingBlankLines()
    ensures WriteMessages("a\nb\n\n") == ["a", "b"]
  {
    assert RStrip("a\nb\n\n") == RStrip("a\nb\n");
    assert RStrip("a\nb\n") == "a\nb";
    assert "a\nb" == JoinLines(["a", "b"]);
    WriteOfCleanLines(["a", "b"]);
  }

  /** Whitespace appended to a buffer changes nothing that write logs. */
  lemma WriteIgnoresTrailingWhitespace(buffer: string, w: string)
    requires AllWhitespace(w)
    ensures WriteMessages(buffer + w) == WriteMessages(buffer)
  {
    RStripIgnoresWhitespaceSuffix(buffer, w);
  }

  /** Lines followed by blank or whitespace-only lines log the same messages as the lines alone. */
  lemma WriteIgnoresTrailingBlankLines(lines: seq<string>, blanks: seq<string>)
    requires forall j :: 0 <= j < |blanks| ==> AllWhitespace(blanks[j])
    ensures WriteMessages(JoinLines(lines + blanks)) == WriteMessages(JoinLines(lines))
  {
    JoinLinesOfWhitespace(blanks);
    if blanks == [] {
      assert lines + blanks == lines;
    } else if lines == [] {
      assert lines + blanks == blanks;
      BlankBufferWritesNothing(JoinLines(blanks));
      BlankBufferWritesNothing(JoinLines(lines));
    } else {
      JoinLinesAppend(lines, blanks);
      assert JoinLines(lines + blanks) == JoinLines(lines) + ("\n" + JoinLines(blanks));
      WriteIgnoresTrailingWhitespace(JoinLines(lines), "\n" + JoinLines(blanks));
    }
  }

  /** Whitespace alone logs nothing. */
  lemma WriteOfWhitespaceOnly()
    ensures WriteMessages("   \n") == []
  {
    BlankBufferWritesNothing("   \n");
  }

  /**
   * An interior line of spaces is logged as an empty message. The buffer is a
   * parameter fixed by the requires rather than a literal in the ensures: with the
   * literal there, the verifier unfolds WriteMessages on it eagerly and the proof
   * exceeds the resource limit.
   */
  lemma WriteKeepsInteriorBlankLine(buffer: string)
    requires buffer == "a\n  \nb"
    ensures WriteMessages(buffer) == ["a", "", "b"]
  {
    var lines := ["a", "  ", "b"];
    assert lines[1..] == ["  ", "b"] && lines[1..][1..] == ["b"];
    assert JoinLines(lines) == buffer;
    WriteOfJoinedLines(lines);
    assert "  "[..1] == " " && " "[..0] == "";
    assert RStrip("  ") == "";
  }
}
