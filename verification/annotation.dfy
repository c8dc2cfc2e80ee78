/** `doAnnotation`: from the groups of a match to one call of the
    annotation sink, with a severity, a message and a location. */
module Annotation {

  import opened Wrappers
  import opened Numerals
  import opened Patterns

  /** The three sinks `core.error`, `core.warning` and `core.notice`. */
  datatype Severity = Error | Warning | Notice

  /** The annotation properties the sink reads. The builder stores the
      position under the misspelled key `endColoumn`, which the sink does not
      know, so `endColumn` is never set. */
  datatype Properties = Properties(
    file: string,
    startLine: Option<nat>,
    endLine: Option<nat>,
    startColumn: Option<nat>,
    endColumn: Option<nat>)

  /** One call of a sink: `core.error(message)` has no properties, the calls
      made by `doAnnotation` always have them. */
  datatype Event = Report(severity: Severity, message: string, properties: Option<Properties>)

  /** The `switch` on the log level; a level it has no case for emits nothing. */
  function SeverityOf(level: string): (r: Option<Severity>)
    ensures r.Some? ==> level in LevelsOf(r.value)
  {
    if level == "e" || level == "error" then Some(Error)
    else if level == "w" || level == "warning" then Some(Warning)
    else if level == "notice" then Some(Notice)
    else None
  }

  /** The level names each sink is reached by. */
  function LevelsOf(sev: Severity): set<string>
  {
    match sev
    case Error => {"e", "error"}
    case Warning => {"w", "warning"}
    case Notice => {"notice"}
  }

  /** The switch sends a level to a sink exactly when the level is one of
      that sink's names, so no level reaches two sinks. */
  lemma SeverityOfLevels(level: string, sev: Severity)
    ensures SeverityOf(level) == Some(sev) <==> level in LevelsOf(sev)
  {
  }

  /** The `\d+` groups of a match hold only digits. */
  predicate DigitGroups(g: Groups)
  {
    && (g.line.Some? ==> IsNumeral(g.line.value))
    && (g.position.Some? ==> IsNumeral(g.position.value))
  }

  /** What every pattern captures satisfies `DigitGroups`. */
  lemma WellFormedDigitGroups(p: Pattern, g: Groups)
    requires WellFormed(p, g)
    ensures DigitGroups(g)
  {
  }

  /** `raw != null ? parseInt(raw) : null` for a digit group: the number
      whose decimal text is the group without its leading zeros. */
  function ParseGroup(raw: Option<string>): (r: Option<nat>)
    requires raw.Some? ==> IsNumeral(raw.value)
    ensures r.Some? <==> raw.Some?
    ensures raw.Some? ==> NatToString(r.value) == StripLeadingZeros(raw.value)
  {
    match raw
    case None => None
    case Some(d) =>
      StripLeadingZerosValue(d);
      NatToStringParse(StripLeadingZeros(d));
      Some(ParseNat(d))
  }

  /** `doAnnotation(match, level)`: the explicit level wins over the `level`
      group, the message is the `message` group or else the whole input, and
      the line and position groups become the location. */
  function DoAnnotation(input: string, g: Groups, level: Option<string>): (r: seq<Event>)
    requires DigitGroups(g)
    ensures |r| <= 1
    ensures |r| == 1 ==> && r[0].properties.Some?
                         && r[0].message == (if g.message.Some? then g.message.value else input)
                         && r[0].properties.value.file == g.path
                         && r[0].properties.value.startLine == r[0].properties.value.endLine
                         && (r[0].properties.value.startLine.Some? <==> g.line.Some?)
                         && (r[0].properties.value.startColumn.Some? <==> g.position.Some?)
                         && r[0].properties.value.endColumn.None?
  {
    var logLevel := if level.Some? then level else g.level;
    var message := if g.message.Some? then g.message.value else input;
    var line := ParseGroup(g.line);
    var position := ParseGroup(g.position);
    var properties := Properties(g.path, line, line, position, None);
    match logLevel
    case None => []
    case Some(name) =>
      match SeverityOf(name)
      case Some(sev) => [Report(sev, message, Some(properties))]
      case None => []
  }

  /** An annotation is emitted exactly when the effective level names a
      sink, and then it goes to that sink. */
  lemma DoAnnotationSeverity(input: string, g: Groups, level: Option<string>, sev: Severity)
    requires DigitGroups(g)
    ensures var name := if level.Some? then level else g.level;
            (DoAnnotation(input, g, level) != [] && DoAnnotation(input, g, level)[0].severity == sev)
            <==> (name.Some? && name.value in LevelsOf(sev))
  {
    var name := if level.Some? then level else g.level;
    if name.Some? {
      SeverityOfLevels(name.value, sev);
    }
  }
}
