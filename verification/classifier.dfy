/** `logLine` and `logLines`: each piece of a chunk is tried against the
    Java compiler, the Kotlin compiler and the Java note pattern in turn,
    and an unrecognised piece from stderr is reported as a plain error. */
module Classifier {

  import opened Wrappers
  import opened Chars
  import opened Numerals
  import opened Patterns
  import opened Annotation
  import opened Splitter

  /** The groups of a successful `exec` are digit strings where the pattern
      has `\d+`. */
  lemma ExecDigitGroups(p: Pattern, s: string)
    requires SingleLine(s) && Exec(p, s).Some?
    ensures DigitGroups(Exec(p, s).value.groups)
  {
    WellFormedDigitGroups(p, Exec(p, s).value.groups);
  }

  /** Some pattern recognises the line. */
  predicate Recognized(line: string)
    requires SingleLine(line)
  {
    Exec(JavaCompilerLog, line).Some? || Exec(KotlinCompilerLog, line).Some? || Exec(JavaNotice, line).Some?
  }

  /** `logLine(line, isError)`: the events one line produces. Every `.*` of
      the patterns, in the `path` groups as in the trailing ones, stops at a
      line terminator, so the line is taken to hold none. */
  function LogLine(line: string, isError: bool): (r: seq<Event>)
    requires SingleLine(line)
    ensures |r| <= 1
  {
    match Exec(JavaCompilerLog, line)
    case Some(h) =>
      ExecDigitGroups(JavaCompilerLog, line);
      ExecLevel(JavaCompilerLog, line);
      DoAnnotation(line, h.groups, None)
    case None =>
      match Exec(KotlinCompilerLog, line)
      case Some(h) =>
        ExecDigitGroups(KotlinCompilerLog, line);
        ExecLevel(KotlinCompilerLog, line);
        DoAnnotation(line, h.groups, None)
      case None =>
        match Exec(JavaNotice, line)
        case Some(h) =>
          ExecDigitGroups(JavaNotice, line);
          DoAnnotation(line, h.groups, Some("notice"))
        case None =>
          if isError then [Report(Error, line, None)] else []
  }

  /** A line produces nothing exactly when no pattern recognises it and it
      came from stdout; an event carries a location exactly when a pattern
      recognised the line, and an unrecognised line from stderr is reported
      as it is. */
  lemma LogLineOutcome(line: string, isError: bool)
    requires SingleLine(line)
    ensures |LogLine(line, isError)| == 0 <==> !Recognized(line) && !isError
    ensures |LogLine(line, isError)| == 1 ==> (LogLine(line, isError)[0].properties.None? <==> !Recognized(line))
    ensures !Recognized(line) ==> LogLine(line, isError) == (if isError then [Report(Error, line, None)] else [])
  {
    if Exec(JavaCompilerLog, line).Some? {
      JavaCompilerEvent(line, isError);
    } else if Exec(KotlinCompilerLog, line).Some? {
      KotlinCompilerEvent(line, isError);
    } else if Exec(JavaNotice, line).Some? {
      JavaNoticeEvent(line, isError);
    }
  }

  /** The compiler patterns capture a level the switch has a case for. */
  lemma ExecLevel(p: Pattern, s: string)
    requires SingleLine(s) && p != JavaNotice && Exec(p, s).Some?
    ensures Exec(p, s).value.groups.level.Some?
    ensures SeverityOf(Exec(p, s).value.groups.level.value).Some?
  {
  }

  /** The event of a line the Java compiler pattern matches: its level
      picks the sink, its message group is the message, and its line group
      gives both the start and the end line, with no column. */
  lemma JavaCompilerEvent(line: string, isError: bool)
    requires SingleLine(line) && Exec(JavaCompilerLog, line).Some?
    ensures var g := Exec(JavaCompilerLog, line).value.groups;
            LogLine(line, isError)
            == [Report(if g.level == Some("error") then Error else Warning, g.message.value,
                       Some(Properties(g.path, Some(ParseNat(g.line.value)), Some(ParseNat(g.line.value)), None, None)))]
  {
  }

  /** The event of a line the Java compiler pattern misses and the Kotlin
      pattern matches: the level `e` or `w` picks the sink, and the position
      group gives the start column. */
  lemma KotlinCompilerEvent(line: string, isError: bool)
    requires SingleLine(line) && Exec(JavaCompilerLog, line).None? && Exec(KotlinCompilerLog, line).Some?
    ensures var g := Exec(KotlinCompilerLog, line).value.groups;
            LogLine(line, isError)
            == [Report(if g.level == Some("e") then Error else Warning, g.message.value,
                       Some(Properties(g.path, Some(ParseNat(g.line.value)), Some(ParseNat(g.line.value)),
                                       Some(ParseNat(g.position.value)), None)))]
  {
  }

  /** The event of a line only the note pattern matches: a notice whose
      message is the whole line and whose location is only the file. */
  lemma JavaNoticeEvent(line: string, isError: bool)
    requires SingleLine(line) && Exec(JavaCompilerLog, line).None? && Exec(KotlinCompilerLog, line).None?
    requires Exec(JavaNotice, line).Some?
    ensures LogLine(line, isError)
            == [Report(Notice, line, Some(Properties(Exec(JavaNotice, line).value.groups.path, None, None, None, None)))]
  {
  }

  /** A line without a space is recognised by no pattern. */
  lemma UnrecognizedWithoutSpace(line: string)
    requires SingleLine(line) && ' ' !in line
    ensures !Recognized(line)
  {
    if Exec(JavaCompilerLog, line).Some? {
      MatchNeedsSpace(JavaCompilerLog, line);
    } else if Exec(KotlinCompilerLog, line).Some? {
      MatchNeedsSpace(KotlinCompilerLog, line);
    } else if Exec(JavaNotice, line).Some? {
      MatchNeedsSpace(JavaNotice, line);
    }
  }

  /** Every piece is a single line. */
  predicate AllSingleLine(ts: seq<string>)
  {
    forall k :: 0 <= k < |ts| ==> SingleLine(ts[k])
  }

  /** The events of the pieces, each handed to `LogLine` once and in order. */
  function LineEvents(ts: seq<string>, isError: bool): (r: seq<Event>)
    requires AllSingleLine(ts)
    ensures |r| <= |ts|
  {
    if |ts| == 0 then [] else LineEvents(ts[..|ts| - 1], isError) + LogLine(ts[|ts| - 1], isError)
  }

  /** One `core.error(piece)` per piece, in order. */
  function PlainErrors(ts: seq<string>): (r: seq<Event>)
    ensures |r| == |ts|
    ensures forall k :: 0 <= k < |ts| ==> r[k] == Report(Error, ts[k], None)
  {
    seq(|ts|, k requires 0 <= k < |ts| => Report(Error, ts[k], None))
  }

  /** A piece of a split holds no separator and therefore no space. */
  lemma PieceHasNoSpace(t: string)
    requires NoSeparator(t)
    ensures ' ' !in t && SingleLine(t)
  {
    NoSeparatorIsSingleLine(t);
  }

  /** Pieces without separators are never recognised: from stderr each is
      one plain error, from stdout they produce nothing. */
  lemma {:induction false} SeparatorFreeEvents(ts: seq<string>, isError: bool)
    requires forall k :: 0 <= k < |ts| ==> NoSeparator(ts[k])
    ensures AllSingleLine(ts)
    ensures LineEvents(ts, isError) == if isError then PlainErrors(ts) else []
    decreases |ts|
  {
    SeparatorFreeSingleLine(ts);
    if |ts| > 0 {
      var init, last := ts[..|ts| - 1], ts[|ts| - 1];
      SeparatorFreeEvents(init, isError);
      SeparatorFreeEvent(last, isError);
      LineEventsSnoc(ts, isError);
      PlainErrorsSnoc(ts);
    }
  }

  /** The plain errors of all pieces are those of all but the last, then the last's. */
  lemma PlainErrorsSnoc(ts: seq<string>)
    requires |ts| > 0
    ensures PlainErrors(ts) == PlainErrors(ts[..|ts| - 1]) + [Report(Error, ts[|ts| - 1], None)]
  {
  }

  /** Pieces without separators are single lines. */
  lemma SeparatorFreeSingleLine(ts: seq<string>)
    requires forall k :: 0 <= k < |ts| ==> NoSeparator(ts[k])
    ensures AllSingleLine(ts)
  {
    forall k | 0 <= k < |ts| ensures SingleLine(ts[k]) {
      PieceHasNoSpace(ts[k]);
    }
  }

  /** The events of all pieces are those of all but the last, then the last's. */
  lemma LineEventsSnoc(ts: seq<string>, isError: bool)
    requires AllSingleLine(ts) && |ts| > 0
    ensures AllSingleLine(ts[..|ts| - 1]) && SingleLine(ts[|ts| - 1])
    ensures LineEvents(ts, isError) == LineEvents(ts[..|ts| - 1], isError) + LogLine(ts[|ts| - 1], isError)
  {
  }

  /** A piece without separators is never recognised. */
  lemma SeparatorFreeEvent(t: string, isError: bool)
    requires NoSeparator(t)
    ensures SingleLine(t)
    ensures LogLine(t, isError) == if isError then [Report(Error, t, None)] else []
  {
    PieceHasNoSpace(t);
    UnrecognizedWithoutSpace(t);
    LogLineOutcome(t, isError);
  }

  /** The pieces of any chunk are single lines that no pattern recognises. */
  lemma ChunkEvents(chunk: string, isError: bool)
    ensures AllSingleLine(Split(chunk))
    ensures LineEvents(Split(chunk), isError) == if isError then PlainErrors(Split(chunk)) else []
  {
    SplitDecomposes(chunk);
    SeparatorFreeEvents(Split(chunk), isError);
  }

  /** One more piece handed to `LogLine`. */
  lemma LineEventsStep(ts: seq<string>, i: nat, isError: bool)
    requires AllSingleLine(ts) && i < |ts|
    ensures AllSingleLine(ts[..i]) && AllSingleLine(ts[..i + 1]) && SingleLine(ts[i])
    ensures LineEvents(ts[..i + 1], isError) == LineEvents(ts[..i], isError) + LogLine(ts[i], isError)
  {
    assert ts[..i + 1][..i] == ts[..i];
  }

  /** `logLines(chunk, isError)`: split the chunk and hand every piece, in
      order, to `LogLine`. No piece can be recognised, so the trace is one
      plain error per piece on stderr and empty on stdout. */
  method LogLines(chunk: string, isError: bool) returns (trace: seq<Event>)
    ensures AllSingleLine(Split(chunk))
    ensures trace == LineEvents(Split(chunk), isError)
    ensures trace == if isError then PlainErrors(Split(chunk)) else []
  {
    var pieces := Split(chunk);
    ChunkEvents(chunk, isError);
    trace := LogPieces(pieces, isError);
  }

  /** Every piece handed to `LogLine` once, in order, the events collected. */
  method LogPieces(pieces: seq<string>, isError: bool) returns (trace: seq<Event>)
    requires AllSingleLine(pieces)
    ensures trace == LineEvents(pieces, isError)
  {
    trace := [];
    var i := 0;
    assert pieces[..0] == [];
    while i < |pieces|
      invariant 0 <= i <= |pieces|
      invariant AllSingleLine(pieces[..i]) && trace == LineEvents(pieces[..i], isError)
    {
      LineEventsStep(pieces, i, isError);
      var events := LogLine(pieces[i], isError);
      trace := trace + events;
      i := i + 1;
    }
    assert pieces[..i] == pieces;
  }

}
