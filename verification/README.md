# Build-output annotations of gradle-build-action, in Dafny

This project models `src/execution.ts` of gradle-build-action. That file runs a
Gradle build, feeds everything the build prints through a line classifier, and
turns recognised compiler diagnostics into GitHub annotations. It then decides
whether the step failed. The model covers four parts:

- **The chunk splitter** `logLines`. Each chunk of stdout or stderr is split on
  runs of whitespace and commas (`/[\s,]+/`), and every piece goes to `logLine`
  in order (`splitter.dfy`, `classifier.dfy`).
- **The classifier** `logLine` and the three regular expressions. Each piece is
  tried against the javac diagnostic pattern, then the kotlinc pattern, then the
  javac `Note:` pattern. An unmatched piece from stderr becomes a plain
  `core.error(piece)`; one from stdout produces nothing. `RegExp.prototype.exec`
  is modelled for these three patterns on a string without line terminators:
  leftmost start, then the longest `path` group, because the greedy `.*`
  backtracks (`patterns.dfy`).
- **The annotation builder** `doAnnotation` (`annotation.dfy`). It picks a sink
  from the level, takes the message (or the whole input), and builds the
  location properties.
- **The build outcome** of `executeGradleBuild` (`build.dfy`): any stale scan
  file is deleted, the chunks are classified in arrival order, and the
  `core.setFailed` message is chosen from the exit status and the scan file.

The main consequence is proved in `classifier.dfy` and `build.dfy`. The splitter
removes every space, and each of the three patterns needs one. So no piece is
ever recognised, and the trace of a whole build is one plain error per stderr
piece (`Build.OutputEvents`, `Classifier.LogLines`).

The classifier's behaviour on whole lines is also characterised, independently
of the splitter (`recognition.dfy`, `rendered.dfy`). A javac, kotlinc or note
line written from given groups is recognised with exactly those groups, and
yields exactly the annotation they describe. The proofs count colons: the javac
pattern needs three from the end of its path on; the kotlinc pattern needs two
from there and three in all.

Wiring in the model:
- The process, the file system and the sinks are parameters or results.
  `ExecuteGradleBuild` takes the chunks the process emits, its exit status, and
  what it writes to `gradle-build-scan.txt`.
- It returns the list of sink calls (`Event`s) and the failure message.

## Model

| member | source | states |
|---|---|---|
| Chars.IsWhitespace | src/execution.ts:53 | no contract of its own: the `\s` class of ECMAScript regular expressions, its WhiteSpace and LineTerminator code points; NoSeparatorIsSingleLine and the split lemmas build on it |
| Chars.IsSeparator | src/execution.ts:53 | no contract of its own: the class `[\s,]` the chunk is split on, whitespace or a comma; SplitDecomposes and PieceHasNoSpace are stated with it |
| Chars.IsLineTerminator | src/execution.ts:9-15 | no contract of its own: the four characters the `.` of the patterns does not match |
| Chars.SingleLine | src/execution.ts:9-15 | no contract of its own: a string without a line terminator, on which every `.` of the patterns matches any character; Exec and the lemmas about it require it |
| Chars.NoSeparatorIsSingleLine | src/execution.ts:53-60 | a string without whitespace or commas holds no line terminator, so every piece of a split is a single line |
| Splitter.Split | src/execution.ts:53 | there is always at least one piece; the first piece is empty exactly when the chunk is empty or starts with a whitespace or comma; when the chunk starts with one, a second piece follows |
| Splitter.SplitDecomposes | src/execution.ts:53 | the pieces hold no separator, the runs between them are non-empty runs of separators, only the first and last piece may be empty, and pieces joined with their runs give back the chunk |
| Splitter.SplitUnique | src/execution.ts:53 | any pieces and runs of that shape which rebuild the chunk are exactly what the split returns, so the split is fully determined by the regular expression `/[\s,]+/` |
| Splitter.SplitNoSeparator | src/execution.ts:53 | a chunk without whitespace or commas is returned whole as the only piece |
| Splitter.SplitAroundRun | src/execution.ts:53 | two pieces without whitespace or commas around one non-empty run of them split into exactly those two pieces, either of which may be empty |
| Splitter.LastPiece | src/execution.ts:53 | the last piece is empty exactly when the chunk is empty or ends with a whitespace or comma |
| Splitter.Runs | src/execution.ts:53 | the maximal separator runs the split cuts at, one fewer than the pieces; SplitDecomposes states that they are non-empty runs of separators and rebuild the chunk with the pieces |
| Splitter.Join | src/execution.ts:53 | no contract of its own: the pieces interleaved with the separator runs between them, the inverse of the split (see SplitDecomposes and SplitUnique) |
| Patterns.WellFormed | src/execution.ts:9-15 | no contract of its own: the groups each pattern can capture, with numeral digit groups, a level among the pattern's literal choices, and a notice path ending in `.java` |
| Patterns.Render | src/execution.ts:9-15 | no contract of its own: the text a match covers written from its groups, the independent partner AnchoredSound and AnchoredComplete are stated against |
| Patterns.LongestAtSpec | src/execution.ts:9-15 | the greedy `path` group ends at the last position from which the rest of the pattern matches; when no position works there is no match from that start |
| Patterns.SearchFromSpec | src/execution.ts:9-15 | `exec` takes the first start that has any match; it fails only when no start and path end match |
| Patterns.Anchored | src/execution.ts:9-15 | a match of one pattern from a start with its path ending at a given place has a path that runs exactly from the start plus the pattern's fixed prefix to that place; what it matches is stated by AnchoredSound and AnchoredComplete |
| Patterns.JavaCompilerAt | src/execution.ts:11 | the javac pattern anchored at a start and path end: its path group is the text between them; AnchoredSound and AnchoredComplete state the rest |
| Patterns.JavaLevelTail | src/execution.ts:11 | the javac pattern after its line number keeps the path between start and path end |
| Patterns.JavaLevelAt | src/execution.ts:11 | the level alternation yields `error` or `warning`, and that word is in the line at the given place |
| Patterns.KotlinCompilerAt | src/execution.ts:13-15 | the kotlinc pattern anchored at a start and path end: the level and `: ` take three characters and the path group is the text from there to the path end |
| Patterns.KotlinLineTail | src/execution.ts:13-15 | the kotlinc pattern after its line number keeps the path after the three-character level prefix |
| Patterns.KotlinPositionTail | src/execution.ts:13-15 | the kotlinc pattern after its position keeps the path after the three-character level prefix |
| Patterns.JavaNoticeAt | src/execution.ts:9 | the note pattern anchored at a start and path end: `Note: ` takes six characters and the path group, ending in `.java`, is the text from there to the path end |
| Patterns.LongestAt | src/execution.ts:9-15 | a match found while backtracking the greedy path starts where it was asked to and its path ends inside the range tried; LongestAtSpec states that it is the longest |
| Patterns.SearchFrom | src/execution.ts:9-15 | a match found while moving the start forward lies inside the range searched; SearchFromSpec states that it is the leftmost and longest |
| Patterns.Exec | src/execution.ts:9-15 | a match lies inside the line and its groups have the shape the pattern captures: digit groups are numerals, the javac level is `error` or `warning`, the kotlinc level is `e` or `w`, and the note path ends in `.java` |
| Patterns.ExecFound | src/execution.ts:9-15 | the match `exec` returns is the pattern matched at its start with its path ending at the reported place |
| Patterns.ExecLongest | src/execution.ts:9-15 | no match from the same start has a longer path |
| Patterns.ExecLeftmost | src/execution.ts:9-15 | no match starts earlier |
| Patterns.ExecNone | src/execution.ts:9-15 | `exec` returns null exactly when no start and path end give a match |
| Patterns.AnchoredSound | src/execution.ts:9-15 | whatever the matcher finds at a start rebuilds the text from that start, from its own groups |
| Patterns.AnchoredComplete | src/execution.ts:9-15 | text written from well-formed groups is matched at that start with exactly those groups, the path ending after the path text |
| Patterns.ExecSound | src/execution.ts:9-15 | the match `exec` returns rebuilds the line from its start, from its groups |
| Patterns.JavaCompilerMatchesWholeLine | src/execution.ts:11 | the javac pattern, when it matches at all, matches from the first character and covers the whole line |
| Patterns.MatchNeedsSpace | src/execution.ts:9-15 | none of the three patterns matches a line without a space character |
| Annotation.SeverityOfLevels | src/execution.ts:106-118 | a level reaches a sink exactly when it is one of that sink's names: `e` or `error` for errors, `w` or `warning` for warnings, `notice` for notices |
| Annotation.SeverityOf | src/execution.ts:106-118 | a level chosen for a sink is one of that sink's names; SeverityOfLevels gives both directions |
| Annotation.LevelsOf | src/execution.ts:106-118 | no contract of its own: the `case` labels leading to each sink; SeverityOfLevels ties it to the switch |
| Annotation.ParseGroup | src/execution.ts:93-96 | a digit group yields a number exactly when the group was captured, and the number's decimal text is the group without its leading zeros |
| Annotation.DoAnnotation | src/execution.ts:85-119 | at most one sink call; its message is the `message` group or else the whole input, its file is the path group, its start and end line are equal and present exactly when a line group was captured, the start column is present exactly when a position group was, and no end column is ever set |
| Annotation.DoAnnotationSeverity | src/execution.ts:90-118 | an annotation is made, on a given sink, exactly when the explicit level (or else the captured level) is one of that sink's names |
| Classifier.LogLine | src/execution.ts:60-83 | one line produces at most one sink call |
| Classifier.LogLineOutcome | src/execution.ts:60-83 | a line produces nothing exactly when no pattern recognises it and it came from stdout; the call has a location exactly when a pattern recognised the line; an unrecognised stderr line is reported verbatim as an error |
| Classifier.JavaCompilerEvent | src/execution.ts:60-119 | a javac match is reported on the sink of its level, with the message group, the path, and the line as start and end line, without columns |
| Classifier.KotlinCompilerEvent | src/execution.ts:60-119 | a kotlinc match, on a line the javac pattern misses, is reported with its line as start and end line and its position as start column |
| Classifier.JavaNoticeEvent | src/execution.ts:60-119 | a note match, on a line both compiler patterns miss, is a notice whose message is the whole line and whose location is only the file |
| Classifier.UnrecognizedWithoutSpace | src/execution.ts:9-80 | a line without a space is recognised by no pattern |
| Classifier.SeparatorFreeEvents | src/execution.ts:53-80 | pieces without whitespace or commas each give one plain error from stderr and nothing from stdout |
| Classifier.ChunkEvents | src/execution.ts:50-57 | every piece of any chunk is a single line, and the pieces of a stderr chunk are all plain errors while those of a stdout chunk produce nothing |
| Classifier.LogPieces | src/execution.ts:54-56 | the loop hands every piece to the classifier once, in order, and its trace is the classifier's output on each piece concatenated |
| Classifier.LineEvents | src/execution.ts:54-56 | every piece produces at most one sink call, so a chunk produces at most as many calls as it has pieces; LogPieces shows the loop computes it |
| Classifier.PlainErrors | src/execution.ts:74 | one `core.error` call per piece, in order, each with the piece as message and no location |
| Classifier.LogLines | src/execution.ts:50-57 | the trace of one chunk is the classifier's output on every piece in order, which is one plain error per piece on stderr and nothing on stdout |
| Recognition.JavaCompilerNeedsThreeColons | src/execution.ts:11 | a line the javac pattern matches has at least three colons |
| Recognition.KotlinCompilerNeedsThreeColons | src/execution.ts:13-15 | a line the kotlinc pattern matches has at least three colons: after the level, after the path, and before the message |
| Recognition.FewColonsNoCompiler | src/execution.ts:11-15 | neither compiler pattern matches a line with fewer than three colons |
| Recognition.ExecAtStart | src/execution.ts:9-15 | a match from the first character whose path no match from there extends is exactly what `exec` returns |
| Recognition.JavaCompilerLine | src/execution.ts:11 | a single javac line whose message has no colon is matched from its first character with exactly the groups it was written from, whatever colons its path holds |
| Recognition.KotlinCompilerLine | src/execution.ts:11-15 | a single kotlinc line with no colon in its path or message is missed by the javac pattern and matched by the kotlinc pattern with exactly its groups |
| Recognition.JavaNoticeLine | src/execution.ts:9-15 | a single `Note: <path>.java <rest>` line whose path and rest hold no colon, and with no further `.java ` is missed by both compiler patterns and matched by the note pattern with exactly that path |
| RenderedLines.JavaCompilerLineEvent | src/execution.ts:11-119 | such a javac line, given whole to the classifier, yields exactly the annotation on the sink its level names, with its message, file and line |
| RenderedLines.KotlinCompilerLineEvent | src/execution.ts:13-119 | such a kotlinc line yields exactly its annotation with file, line and start column |
| RenderedLines.JavaNoticeLineEvent | src/execution.ts:9-119 | such a note line yields exactly a notice with the whole line as message and the file as location |
| Build.ScanFileAfter | src/execution.ts:20-39 | because a stale scan file is deleted before the build starts, the scan read afterwards is only what this build wrote |
| Build.FailureMessageMeaning | src/execution.ts:41-47 | the step fails exactly when the status is non-zero; the message starts with `Gradle build failed: ` and then either quotes a non-empty scan file or states the status as a decimal that reads back to the status: a `-` for a negative status, then the magnitude as a canonical numeral with no leading zero |
| Build.FailureMessage | src/execution.ts:41-47 | the step fails exactly when the status is non-zero; FailureMessageMeaning states what the message says |
| Build.OutputEvents | src/execution.ts:26-57 | the events of all the chunks are one plain error per piece of each stderr chunk, in arrival order |
| Build.ClassifyOutput | src/execution.ts:31-34 | every chunk goes to `logLines` with its stream as it arrives, and the events are those of all chunks in arrival order |
| Build.ExecuteGradleBuild | src/execution.ts:17-48 | the outcome's events are those of the chunks in arrival order, and its failure message is the one the status and the scan written by this build call for |
| Numerals.ParseNatToString | src/execution.ts:95-96 | reading back the decimal of a number gives the number |
| Numerals.NatToStringParse | src/execution.ts:95-96 | a canonical numeral is the decimal of its value |
| Numerals.ParseNat | src/execution.ts:95-96 | no contract of its own: `parseInt` of a digit string; ParseNatToString, NatToStringParse and StripLeadingZerosValue state what it reads |
| Numerals.NatToString | src/execution.ts:45 | the decimal of a number is a canonical numeral: digits only, with no leading zero unless it is `0` itself; ParseNatToString states that it reads back |
| Numerals.IntToString | src/execution.ts:45 | the decimal of the exit status is never empty; IntToStringParse states that it reads back to the status |
| Numerals.StripLeadingZeros | src/execution.ts:95-96 | a digit string without its leading zeros is a canonical numeral; StripLeadingZerosValue states that its value is unchanged |
| Numerals.IntToStringParse | src/execution.ts:45 | the decimal text of the exit status, sign included, reads back to the status |
| Numerals.ParseNatLeadingZero | src/execution.ts:95-96 | a leading zero does not change the value of a digit string |
| Numerals.StripLeadingZerosValue | src/execution.ts:95-96 | a digit string without its leading zeros has the same value, so `parseInt` reads `08` as 8 |
| Numerals.DigitRunEnd | src/execution.ts:11-15 | a greedy `\d+` stops at the first non-digit, and everything it took is a digit |
| Scenarios.SplitExamples | src/execution.ts:53 | `a, b` splits into `a` and `b`, since a comma and a space together separate once; ` a` splits into an empty piece and `a` |
| Scenarios.LeadingZeroGroups | src/execution.ts:95-96 | the groups `08` and `007` read as 8 and 7 |
| Scenarios.FailureMessages | src/execution.ts:41-47 | status 0 has no failure; status 1 with a scan quotes it; status 1 with an empty scan and status -2 with no scan state the status |

## Left out

- Spawning the process (`exec.exec`, lines 28-35) and its streams. The chunks, the exit status and the scan-file contents are given as data.
- How chunks of stdout and stderr interleave is not modelled. They arrive as one ordered sequence, each chunk tagged with its stream.
- `locateGradleWrapperScript` and `verifyIsExecutableScript` (lines 26-27 and 121-127). These are file-system checks on the script path, and they are not part of this model.
- The `console.log` of each chunk (line 52). It is a logging side effect with no effect on the outcome.
- The sinks `core.error`, `core.warning`, `core.notice` and `core.setFailed` are not called. The model returns the list of calls they would receive.
- Classifier.LogLine: requires that the line holds no line terminator. Every `.*` of the patterns, the `path` groups and the trailing ones alike, stops at one, and every piece of a split already satisfies this, because line terminators are whitespace.
- Annotation.ParseGroup: reads a digit group as an exact natural number. JavaScript's `parseInt` loses precision above 2^53, which is not modelled.
- Annotation.DoAnnotation: `endColumn` is always absent. The source stores the position under the misspelled key `endColoumn` (line 103), which the annotation API does not read. This is modelled as written.
- Patterns.Exec: models `exec` only for the three patterns of this file, not regular expressions in general, and only on strings without a line terminator, where `.` matches every character. On a multi-line string the real `exec` finds a match within one line; that case is not modelled, since `logLine` only ever receives split pieces. The lemmas about `exec` in `patterns.dfy`, `recognition.dfy` and `classifier.dfy` carry the same single-line requirement.
- Recognition.JavaCompilerLine: is proved only for lines without a line terminator and messages without a colon. With more colons, the greedy path group may end at a later colon, and that case is not characterised.
- Recognition.KotlinCompilerLine: is proved only for lines without a line terminator, and paths and messages without colons.
- Recognition.JavaNoticeLine: is proved only for lines without line terminators whose path and rest hold no colon, and with no second `.java ` after the path.
- The debug-only lines (`eslint` comments, the commented-out `console.log` of unmatched stdout lines) have no behaviour.

The split on `/[\s,]+/` is modelled exactly as written. Its consequence is that no diagnostic from a real build is ever annotated, since every pattern needs a space. That consequence is proved rather than corrected.
