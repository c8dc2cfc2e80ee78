/** Concrete chunks and exit statuses, worked through the model. */
module Scenarios {

  import opened Wrappers
  import opened Numerals
  import opened Splitter
  import opened Annotation
  import opened Build

  /** Commas and spaces both separate pieces, and a run of them counts
      once; a leading separator leaves an empty first piece. */
  lemma SplitExamples()
    ensures Split("a, b") == ["a", "b"]
    ensures Split(" a") == ["", "a"]
  {
    SplitAroundRun("a", ", ", "b");
    assert "a" + ", " + "b" == "a, b";
    SplitAroundRun("", " ", "a");
    assert "" + " " + "a" == " a";
  }

  /** A failed build quotes the scan file when it is non-empty and reports
      the status otherwise; a successful one has no failure. */
  lemma FailureMessages(url: string)
    requires url != ""
    ensures FailureMessage(0, Some(url)) == None
    ensures FailureMessage(1, Some(url)) == Some(FailurePrefix + url)
    ensures FailureMessage(1, Some("")) == Some(FailurePrefix + StatusPrefix + "1")
    ensures FailureMessage(-2, None) == Some(FailurePrefix + StatusPrefix + "-2")
  {
    assert IntToString(1) == "1" by { assert DigitChar(1) == '1'; }
    assert IntToString(-2) == "-2" by { assert DigitChar(2) == '2'; }
  }

  /** `parseInt` ignores leading zeros of a digit group. */
  lemma LeadingZeroGroups()
    ensures ParseGroup(Some("08")) == Some(8)
    ensures ParseGroup(Some("007")) == Some(7)
  {
    assert "08"[..1] == "0" && "007"[..2] == "00" && "00"[..1] == "0";
  }
}
