/** `executeGradleBuild` with the process and the filesystem abstracted:
    the output arrives as a given sequence of chunks, the exit status and
    what the build writes to `gradle-build-scan.txt` are given, and the
    result is the event trace plus the failure message, if any. */
module Build {

  import opened Wrappers
  import opened Numerals
  import opened Annotation
  import opened Splitter
  import opened Classifier

  /** A piece of output as one stream listener receives it. */
  datatype Chunk = Chunk(data: string, fromStderr: bool)

  /** What the spawned build does: its output in arrival order, its exit
      status, and what it writes to the scan file (`None` if it writes
      nothing). */
  datatype Process = Process(output: seq<Chunk>, status: int, writesScan: Option<string>)

  /** The observable result: the sink calls and the `core.setFailed` message. */
  datatype Outcome = Outcome(events: seq<Event>, failure: Option<string>)

  const FailurePrefix: string := "Gradle build failed: "
  const StatusPrefix: string := "process exited with status "

  /** The scan file after the build: the step deletes any file left from an
      earlier run before it spawns the process, so only what the process
      writes is there afterwards. */
  function ScanFileAfter(before: Option<string>, run: Process): (after: Option<string>)
    ensures after == run.writesScan
  {
    var cleared := if before.Some? then None else before;
    if run.writesScan.Some? then run.writesScan else cleared
  }

  /** The `core.setFailed` message for an exit status and the contents of the
      scan file: none for status 0; the contents when they are non-empty (an
      empty string is falsy); otherwise the status in decimal. */
  function FailureMessage(status: int, scan: Option<string>): (r: Option<string>)
    ensures r.None? <==> status == 0
  {
    if status == 0 then None
    else if scan.Some? && scan.value != "" then Some(FailurePrefix + scan.value)
    else Some(FailurePrefix + StatusPrefix + IntToString(status))
  }

  /** Status 0 is success; any other status fails the step, and the message
      either quotes the scan file or can be read back to the status. */
  lemma FailureMessageMeaning(status: int, scan: Option<string>)
    ensures FailureMessage(status, scan).None? <==> status == 0
    ensures var r := FailureMessage(status, scan);
            r.Some? ==> && |r.value| > |FailurePrefix| && r.value[..|FailurePrefix|] == FailurePrefix
                        && var rest := r.value[|FailurePrefix|..];
                           if scan.Some? && scan.value != "" then rest == scan.value
                           else && |rest| > |StatusPrefix| && rest[..|StatusPrefix|] == StatusPrefix
                                && var digits := rest[|StatusPrefix|..];
                                   && (|digits| > 0 && digits[0] == '-' ==> IsCanonicalNumeral(digits[1..]))
                                   && (!(|digits| > 0 && digits[0] == '-') ==> IsCanonicalNumeral(digits))
                                   && ParseInt(digits) == status
  {
    var r := FailureMessage(status, scan);
    if r.Some? && !(scan.Some? && scan.value != "") {
      var digits := IntToString(status);
      assert r.value == FailurePrefix + (StatusPrefix + digits);
      assert r.value[|FailurePrefix|..] == StatusPrefix + digits;
      assert (StatusPrefix + digits)[|StatusPrefix|..] == digits;
      IntToStringDigits(status);
      IntToStringParse(status);
      if status < 0 {
        assert digits[1..] == NatToString(-status);
      }
    }
  }

  /** `executeGradleBuild`: every chunk goes to `LogLines` as it arrives, then
      the failure is decided from the status and the scan file. */
  method ExecuteGradleBuild(before: Option<string>, run: Process) returns (out: Outcome)
    ensures out.failure == FailureMessage(run.status, run.writesScan)
    ensures out.events == OutputEvents(run.output)
  {
    var events := ClassifyOutput(run.output);
    var scan := ScanFileAfter(before, run);
    out := Outcome(events, FailureMessage(run.status, scan));
  }

  /** The output listeners: every chunk goes to `LogLines` as it arrives. */
  method ClassifyOutput(output: seq<Chunk>) returns (events: seq<Event>)
    ensures events == OutputEvents(output)
  {
    events := [];
    var i := 0;
    while i < |output|
      invariant 0 <= i <= |output|
      invariant events == OutputEvents(output[..i])
    {
      var trace := LogLines(output[i].data, output[i].fromStderr);
      OutputEventsStep(output, i);
      events := events + trace;
      i := i + 1;
    }
    assert output[..i] == output;
  }


  /** The events after one more chunk are those before it, then the chunk's. */
  lemma OutputEventsStep(output: seq<Chunk>, i: nat)
    requires i < |output|
    ensures AllSingleLine(Split(output[i].data))
    ensures OutputEvents(output[..i + 1]) == OutputEvents(output[..i]) + LineEvents(Split(output[i].data), output[i].fromStderr)
  {
    assert output[..i + 1][..i] == output[..i];
    ChunkEvents(output[i].data, output[i].fromStderr);
  }

  /** The pieces of all stderr chunks, in arrival order. */
  function StderrPieces(output: seq<Chunk>): seq<string>
  {
    if |output| == 0 then []
    else
      var last := output[|output| - 1];
      StderrPieces(output[..|output| - 1]) + (if last.fromStderr then Split(last.data) else [])
  }

  /** The events of a sequence of chunks: each chunk's pieces through `LogLine`. */
  function OutputEvents(output: seq<Chunk>): (r: seq<Event>)
    ensures r == PlainErrors(StderrPieces(output))
  {
    if |output| == 0 then []
    else
      var last := output[|output| - 1];
      ChunkEvents(last.data, last.fromStderr);
      PlainErrorsAppend(StderrPieces(output[..|output| - 1]), if last.fromStderr then Split(last.data) else []);
      OutputEvents(output[..|output| - 1]) + LineEvents(Split(last.data), last.fromStderr)
  }

  /** The plain errors of two runs of pieces, one after the other. */
  lemma PlainErrorsAppend(a: seq<string>, b: seq<string>)
    ensures PlainErrors(a + b) == PlainErrors(a) + PlainErrors(b)
  {
  }
}
