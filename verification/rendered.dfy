/** `logLine` on whole lines written in the three formats: each yields
    exactly the annotation its text describes. */
module RenderedLines {

  import opened Wrappers
  import opened Chars
  import opened Numerals
  import opened Patterns
  import opened Annotation
  import opened Classifier
  import opened Recognition

  /** A javac diagnostic line `<path>:<line>: <level>:<message>` whose
      message has no colon is reported on the sink its level names, with the
      message group as the message and the line as start and end line. */
  lemma JavaCompilerLineEvent(g: Groups, isError: bool)
    requires WellFormed(JavaCompilerLog, g) && ':' !in g.message.value
    requires SingleLine(Render(JavaCompilerLog, g))
    ensures LogLine(Render(JavaCompilerLog, g), isError)
            == [Report(if g.level == Some("error") then Error else Warning, g.message.value,
                       Some(Properties(g.path, Some(ParseNat(g.line.value)), Some(ParseNat(g.line.value)), None, None)))]
  {
    JavaCompilerLine(g);
    JavaCompilerEvent(Render(JavaCompilerLog, g), isError);
  }

  /** A kotlinc diagnostic line `<e|w>: <path>: (<line>, <column>): <message>`
      without colons in its path and message is reported with its line and
      start column, and no end column. */
  lemma KotlinCompilerLineEvent(g: Groups, isError: bool)
    requires WellFormed(KotlinCompilerLog, g) && ':' !in g.path && ':' !in g.message.value
    requires SingleLine(Render(KotlinCompilerLog, g))
    ensures LogLine(Render(KotlinCompilerLog, g), isError)
            == [Report(if g.level == Some("e") then Error else Warning, g.message.value,
                       Some(Properties(g.path, Some(ParseNat(g.line.value)), Some(ParseNat(g.line.value)),
                                       Some(ParseNat(g.position.value)), None)))]
  {
    KotlinCompilerLine(g);
    KotlinCompilerEvent(Render(KotlinCompilerLog, g), isError);
  }

  /** A javac note `Note: <path>.java <rest>` is a notice whose message is the
      whole line and whose location is the file alone. */
  lemma JavaNoticeLineEvent(path: string, rest: string, isError: bool)
    requires WellFormed(JavaNotice, Groups(path, None, None, None, None))
    requires ':' !in path && ':' !in rest && !Occurs(rest, ".java ")
    requires SingleLine(NoticeText(path, rest))
    ensures LogLine(NoticeText(path, rest), isError)
            == [Report(Notice, NoticeText(path, rest), Some(Properties(path, None, None, None, None)))]
  {
    JavaNoticeLine(path, rest);
    JavaNoticeEvent(NoticeText(path, rest), isError);
  }
}
