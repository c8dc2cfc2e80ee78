/** The three log-line regular expressions of the build step, each written out
    as a hand-made matcher, and the search `RegExp.prototype.exec` performs
    with them. */
module Patterns {

  import opened Wrappers
  import opened Chars
  import opened Numerals

  /** `JAVA_COMPILER_LOG_REGEX`, `KOTLIN_COMPILER_LOG_REGEX`, `JAVA_NOTICE_REGEX`. */
  datatype Pattern = JavaCompilerLog | KotlinCompilerLog | JavaNotice

  /** The `groups` object of a match. A group that the pattern does not
      declare is `None` (`undefined`); `path` is declared by all three. */
  datatype Groups = Groups(
    path: string,
    line: Option<string>,
    level: Option<string>,
    position: Option<string>,
    message: Option<string>)

  /** A successful `exec`: where the match starts, where its `path` group
      ends, and the captured groups. */
  datatype Hit = Hit(start: nat, pathEnd: nat, groups: Groups)

  /** Number of characters between the start of a match and its `path` group. */
  function PathOffset(p: Pattern): nat
  {
    match p
    case JavaCompilerLog => 0
    case KotlinCompilerLog => |"e: "|
    case JavaNotice => |"Note: "|
  }

  /** Groups that the pattern can capture: the `\d+` groups are digit strings,
      the alternations take one of their literal values, and the notice path
      ends in `.java`. */
  predicate WellFormed(p: Pattern, g: Groups)
  {
    match p
    case JavaCompilerLog =>
      && g.line.Some? && IsNumeral(g.line.value)
      && (g.level == Some("error") || g.level == Some("warning"))
      && g.position.None? && g.message.Some?
    case KotlinCompilerLog =>
      && (g.level == Some("e") || g.level == Some("w"))
      && g.line.Some? && IsNumeral(g.line.value)
      && g.position.Some? && IsNumeral(g.position.value)
      && g.message.Some?
    case JavaNotice =>
      && |g.path| >= |".java"| && g.path[|g.path| - |".java"|..] == ".java"
      && g.line.None? && g.level.None? && g.position.None? && g.message.None?
  }

  /** The text a match covers, rebuilt from its groups. The notice pattern ends
      in an uncaptured `.*`, so for it this is only the captured prefix. */
  function Render(p: Pattern, g: Groups): string
    requires WellFormed(p, g)
  {
    match p
    case JavaCompilerLog =>
      g.path + ":" + g.line.value + ": " + g.level.value + ":" + g.message.value
    case KotlinCompilerLog =>
      g.level.value + ": " + g.path + ": (" + g.line.value + ", " + g.position.value + "): " + g.message.value
    case JavaNotice =>
      "Note: " + g.path + " "
  }

  /** `s`, read from index `i` to its end, is a whole match of `p` with
      groups `g`. */
  predicate RenderedAt(p: Pattern, s: string, i: nat, g: Groups)
  {
    && i <= |s|
    && WellFormed(p, g)
    && (if p == JavaNotice then StartsWithAt(s, i, Render(p, g)) else s[i..] == Render(p, g))
  }

  /** The pattern matched from index `i` with its `path` group ending at `j`.
      Everything after the path is deterministic: each `\d+` must stop before
      the literal that follows it, which is never a digit, and the trailing
      `.*` takes the rest of the line. */
  function Anchored(p: Pattern, s: string, i: nat, j: nat): (r: Option<Groups>)
    requires i <= j <= |s|
    ensures r.Some? ==> j == i + PathOffset(p) + |r.value.path|
  {
    match p
    case JavaCompilerLog => JavaCompilerAt(s, i, j)
    case KotlinCompilerLog => KotlinCompilerAt(s, i, j)
    case JavaNotice => JavaNoticeAt(s, i, j)
  }

  /** `(?<path>.*(?=:)):(?<line>\d+): (?<level>error|warning):(?<message>.*)` */
  function JavaCompilerAt(s: string, i: nat, j: nat): (r: Option<Groups>)
    requires i <= j <= |s|
    ensures r.Some? ==> r.value.path == s[i..j]
  {
    if j < |s| && s[j] == ':' then JavaLevelTail(s, i, j, DigitRunEnd(s, j + 1)) else None
  }

  /** The rest of the Java compiler pattern once `\d+` for the line has run to `k`. */
  function JavaLevelTail(s: string, i: nat, j: nat, k: nat): (r: Option<Groups>)
    requires i <= j < k <= |s|
    ensures r.Some? ==> r.value.path == s[i..j]
  {
    if j + 1 < k && StartsWithAt(s, k, ": ") then
      match JavaLevelAt(s, k + 2)
      case Some(level) =>
        if StartsWithAt(s, k + 2 + |level|, ":") then
          Some(Groups(s[i..j], Some(s[j + 1..k]), Some(level), None, Some(s[k + |level| + 3..])))
        else None
      case None => None
    else None
  }

  /** The alternation `(error|warning)` at index `q`. */
  function JavaLevelAt(s: string, q: nat): (r: Option<string>)
    ensures r.Some? ==> (r.value == "error" || r.value == "warning") && StartsWithAt(s, q, r.value)
  {
    if StartsWithAt(s, q, "error") then Some("error")
    else if StartsWithAt(s, q, "warning") then Some("warning")
    else None
  }

  /** `(?<level>e|w): (?<path>.*(?=:)): \((?<line>\d+), (?<position>\d+)\): (?<message>.*)` */
  function KotlinCompilerAt(s: string, i: nat, j: nat): (r: Option<Groups>)
    requires i <= j <= |s|
    ensures r.Some? ==> i + 3 <= j && r.value.path == s[i + 3..j]
  {
    if i + 3 <= j && (s[i] == 'e' || s[i] == 'w') && StartsWithAt(s, i + 1, ": ")
       && StartsWithAt(s, j, ": (") then
      KotlinLineTail(s, i, j, DigitRunEnd(s, j + 3))
    else None
  }

  /** The rest of the Kotlin pattern once `\d+` for the line has run to `k1`. */
  function KotlinLineTail(s: string, i: nat, j: nat, k1: nat): (r: Option<Groups>)
    requires i + 3 <= j && j + 3 <= k1 <= |s|
    ensures r.Some? ==> r.value.path == s[i + 3..j]
  {
    if j + 3 < k1 && StartsWithAt(s, k1, ", ") then
      KotlinPositionTail(s, i, j, k1, DigitRunEnd(s, k1 + 2))
    else None
  }

  /** The rest of the Kotlin pattern once `\d+` for the position has run to `k2`. */
  function KotlinPositionTail(s: string, i: nat, j: nat, k1: nat, k2: nat): (r: Option<Groups>)
    requires i + 3 <= j && j + 3 < k1 && k1 + 2 <= k2 <= |s|
    ensures r.Some? ==> r.value.path == s[i + 3..j]
  {
    if k1 + 2 < k2 && StartsWithAt(s, k2, "): ") then
      Some(Groups(s[i + 3..j], Some(s[j + 3..k1]), Some([s[i]]), Some(s[k1 + 2..k2]), Some(s[k2 + 3..])))
    else None
  }

  /** `Note: (?<path>.*(?=\.java)\.java) .*` */
  function JavaNoticeAt(s: string, i: nat, j: nat): (r: Option<Groups>)
    requires i <= j <= |s|
    ensures r.Some? ==> i + 6 <= j && r.value.path == s[i + 6..j]
  {
    if i + 11 <= j && StartsWithAt(s, i, "Note: ") && StartsWithAt(s, j - 5, ".java ") then
      Some(Groups(s[i + 6..j], None, None, None, None))
    else None
  }

  /** Whatever the anchored matcher finds is a rendered match: well-formed
      groups that rebuild the text from `i` on. */
  lemma AnchoredSound(p: Pattern, s: string, i: nat, j: nat)
    requires i <= j <= |s| && Anchored(p, s, i, j).Some?
    ensures RenderedAt(p, s, i, Anchored(p, s, i, j).value)
  {
    match p
    case JavaCompilerLog => JavaCompilerSound(s, i, j);
    case KotlinCompilerLog => KotlinCompilerSound(s, i, j);
    case JavaNotice => JavaNoticeSound(s, i, j);
  }

  lemma JavaCompilerSound(s: string, i: nat, j: nat)
    requires i <= j <= |s| && JavaCompilerAt(s, i, j).Some?
    ensures RenderedAt(JavaCompilerLog, s, i, JavaCompilerAt(s, i, j).value)
  {
    var k := DigitRunEnd(s, j + 1);
    assert JavaCompilerAt(s, i, j) == JavaLevelTail(s, i, j, k);
    var level := JavaLevelAt(s, k + 2).value;
    JavaAssemble(s, i, j, k, level);
  }

  /** The text of a Java compiler line put back together from its pieces. */
  lemma JavaAssemble(s: string, i: nat, j: nat, k: nat, level: string)
    requires i <= j < k && k + 3 + |level| <= |s| && s[j] == ':'
    requires StartsWithAt(s, k, ": ") && StartsWithAt(s, k + 2, level) && StartsWithAt(s, k + 2 + |level|, ":")
    ensures s[i..] == s[i..j] + ":" + s[j + 1..k] + ": " + level + ":" + s[k + |level| + 3..]
  {
    var e := k + |level| + 3;
    Extend(s, i, j, j + 1, s[i..j], ":");
    Extend(s, i, j + 1, k, s[i..j] + ":", s[j + 1..k]);
    Extend(s, i, k, k + 2, s[i..j] + ":" + s[j + 1..k], ": ");
    Extend(s, i, k + 2, e - 1, s[i..j] + ":" + s[j + 1..k] + ": ", level);
    Extend(s, i, e - 1, e, s[i..j] + ":" + s[j + 1..k] + ": " + level, ":");
    Extend(s, i, e, |s|, s[i..j] + ":" + s[j + 1..k] + ": " + level + ":", s[e..]);
  }

  lemma KotlinCompilerSound(s: string, i: nat, j: nat)
    requires i <= j <= |s| && KotlinCompilerAt(s, i, j).Some?
    ensures RenderedAt(KotlinCompilerLog, s, i, KotlinCompilerAt(s, i, j).value)
  {
    var k1 := DigitRunEnd(s, j + 3);
    assert KotlinCompilerAt(s, i, j) == KotlinLineTail(s, i, j, k1);
    var k2 := DigitRunEnd(s, k1 + 2);
    assert KotlinLineTail(s, i, j, k1) == KotlinPositionTail(s, i, j, k1, k2);
    KotlinAssemble(s, i, j, k1, k2);
  }

  /** The text of a Kotlin compiler line put back together from its pieces. */
  lemma KotlinAssemble(s: string, i: nat, j: nat, k1: nat, k2: nat)
    requires i + 3 <= j && j + 3 <= k1 && k1 + 2 <= k2 && k2 + 3 <= |s|
    requires StartsWithAt(s, i + 1, ": ") && StartsWithAt(s, j, ": (")
    requires StartsWithAt(s, k1, ", ") && StartsWithAt(s, k2, "): ")
    ensures s[i..] == [s[i]] + ": " + s[i + 3..j] + ": (" + s[j + 3..k1] + ", " + s[k1 + 2..k2] + "): " + s[k2 + 3..]
  {
    var head := [s[i]] + ": " + s[i + 3..j] + ": (" + s[j + 3..k1];
    var pos := s[k1 + 2..k2];
    KotlinHeadAssemble(s, i, j, k1);
    Extend(s, i, k1, k1 + 2, head, ", ");
    Extend(s, i, k1 + 2, k2, head + ", ", pos);
    Extend(s, i, k2, k2 + 3, head + ", " + pos, "): ");
    Extend(s, i, k2 + 3, |s|, head + ", " + pos + "): ", s[k2 + 3..]);
  }

  lemma KotlinHeadAssemble(s: string, i: nat, j: nat, k1: nat)
    requires i + 3 <= j && j + 3 <= k1 <= |s|
    requires StartsWithAt(s, i + 1, ": ") && StartsWithAt(s, j, ": (")
    ensures s[i..k1] == [s[i]] + ": " + s[i + 3..j] + ": (" + s[j + 3..k1]
  {
    var level, path, line := [s[i]], s[i + 3..j], s[j + 3..k1];
    assert s[i..i + 1] == level;
    Extend(s, i, i + 1, i + 3, level, ": ");
    Extend(s, i, i + 3, j, level + ": ", path);
    Extend(s, i, j, j + 3, level + ": " + path, ": (");
    Extend(s, i, j + 3, k1, level + ": " + path + ": (", line);
  }

  /** Joining two adjacent slices whose contents are known. */
  lemma Extend(s: string, a: nat, b: nat, c: nat, x: string, y: string)
    requires a <= b <= c <= |s| && s[a..b] == x && s[b..c] == y
    ensures s[a..c] == x + y
  {
    assert s[a..c] == s[a..b] + s[b..c];
  }

  lemma JavaNoticeSound(s: string, i: nat, j: nat)
    requires i <= j <= |s| && JavaNoticeAt(s, i, j).Some?
    ensures RenderedAt(JavaNotice, s, i, JavaNoticeAt(s, i, j).value)
  {
    var path := s[i + 6..j];
    assert s[j - 5..j] == ".java" by { assert s[j - 5..j] == s[j - 5..j + 1][..5]; }
    assert path[|path| - 5..] == s[j - 5..j];
    assert s[i..j + 1] == "Note: " + path + " " by {
      assert s[i..j + 1] == s[i..i + 6] + s[i + 6..j] + s[j..j + 1];
    }
  }

  /** Conversely, a rendered match is found by the anchored matcher at the
      place its path ends. */
  lemma AnchoredComplete(p: Pattern, s: string, i: nat, g: Groups)
    requires RenderedAt(p, s, i, g)
    ensures i + PathOffset(p) + |g.path| <= |s|
    ensures Anchored(p, s, i, i + PathOffset(p) + |g.path|) == Some(g)
  {
    var j := i + PathOffset(p) + |g.path|;
    match p
    case JavaCompilerLog => JavaCompilerComplete(s, i, g, j);
    case KotlinCompilerLog => KotlinCompilerComplete(s, i, g, j);
    case JavaNotice => JavaNoticeComplete(s, i, g, j);
  }

  lemma JavaCompilerComplete(s: string, i: nat, g: Groups, j: nat)
    requires RenderedAt(JavaCompilerLog, s, i, g) && j == i + |g.path|
    ensures j <= |s| && Anchored(JavaCompilerLog, s, i, j) == Some(g)
  {
    JavaCompilerLayout(s, i, g);
    JavaCompilerFromLayout(s, i, g);
  }

  /** The Java compiler matcher reads back groups laid out at their places. */
  lemma JavaCompilerFromLayout(s: string, i: nat, g: Groups)
    requires WellFormed(JavaCompilerLog, g) && JavaLaidOut(s, i, g)
    ensures Anchored(JavaCompilerLog, s, i, i + |g.path|) == Some(g)
  {
    var j := i + |g.path|;
    var k := j + 1 + |g.line.value|;
    NumeralBeforeNonDigit(s, j + 1, g.line.value);
    JavaLevelOf(s, k + 2, g.level.value);
    JavaCompilerSteps(s, i, j, k, g);
  }

  /** The level alternation takes the word that is there. */
  lemma JavaLevelOf(s: string, q: nat, level: string)
    requires (level == "error" || level == "warning") && StartsWithAt(s, q, level)
    ensures JavaLevelAt(s, q) == Some(level)
  {
    if level == "warning" {
      assert s[q] == 'w' by { assert s[q] == s[q..q + |level|][0]; }
    }
  }

  lemma JavaCompilerSteps(s: string, i: nat, j: nat, k: nat, g: Groups)
    requires i <= j && j + 1 < k && k + 3 <= |s| && s[j] == ':' && DigitRunEnd(s, j + 1) == k
    requires g.level.Some? && JavaLevelAt(s, k + 2) == g.level && StartsWithAt(s, k + 2 + |g.level.value|, ":")
    requires StartsWithAt(s, k, ": ")
    requires g == Groups(s[i..j], Some(s[j + 1..k]), g.level, None, Some(s[k + |g.level.value| + 3..]))
    ensures JavaCompilerAt(s, i, j) == Some(g)
  {
    JavaLevelTailOf(s, i, j, k, g);
  }

  lemma JavaLevelTailOf(s: string, i: nat, j: nat, k: nat, g: Groups)
    requires i <= j && j + 1 < k && k + 3 <= |s|
    requires g.level.Some? && JavaLevelAt(s, k + 2) == g.level && StartsWithAt(s, k + 2 + |g.level.value|, ":")
    requires StartsWithAt(s, k, ": ")
    requires g == Groups(s[i..j], Some(s[j + 1..k]), g.level, None, Some(s[k + |g.level.value| + 3..]))
    ensures JavaLevelTail(s, i, j, k) == Some(g)
  {
  }

  /** The pieces of a Java compiler line with groups `g`, from `i`, at their places. */
  predicate JavaLaidOut(s: string, i: nat, g: Groups)
    requires WellFormed(JavaCompilerLog, g)
  {
    var j, k := i + |g.path|, i + |g.path| + 1 + |g.line.value|;
    && k + |g.level.value| + 3 <= |s|
    && s[j] == ':' && s[i..j] == g.path && s[j + 1..k] == g.line.value
    && s[k] == ':' && StartsWithAt(s, k, ": ") && StartsWithAt(s, k + 2, g.level.value)
    && StartsWithAt(s, k + 2 + |g.level.value|, ":")
    && s[k + |g.level.value| + 3..] == g.message.value
  }

  lemma JavaCompilerLayout(s: string, i: nat, g: Groups)
    requires RenderedAt(JavaCompilerLog, s, i, g)
    ensures JavaLaidOut(s, i, g)
  {
    var path, line, level, msg := g.path, g.line.value, g.level.value, g.message.value;
    var j := i + |path|;
    var k := j + 1 + |line|;
    var e := k + |level| + 3;
    var n := |s|;
    PeelRange(s, i, n, path + ":" + line + ": " + level + ":", msg);
    PeelRange(s, i, e, path + ":" + line + ": " + level, ":");
    PeelRange(s, i, e - 1, path + ":" + line + ": ", level);
    PeelRange(s, i, k + 2, path + ":" + line, ": ");
    PeelRange(s, i, k, path + ":", line);
    PeelRange(s, i, j + 1, path, ":");
    assert s[j] == ':' by { assert s[j] == s[j..j + 1][0]; }
    assert s[k] == ':' by { assert s[k] == s[k..k + 2][0]; }
  }

  /** Splitting a slice that is a concatenation at the seam. */
  lemma PeelRange(s: string, a: nat, b: nat, x: string, y: string)
    requires a <= b <= |s| && s[a..b] == x + y
    ensures a + |x| <= b && s[a..a + |x|] == x && s[a + |x|..b] == y
  {
    assert s[a..a + |x|] == (x + y)[..|x|];
    assert s[a + |x|..b] == (x + y)[|x|..];
  }

  /** A numeral followed by a non-digit is exactly what a greedy `\d+` takes. */
  lemma NumeralBeforeNonDigit(s: string, i: nat, d: string)
    requires i + |d| < |s| && s[i..i + |d|] == d && AllDigits(d) && !IsDigit(s[i + |d|])
    ensures DigitRunEnd(s, i) == i + |d|
  {
    DigitRunEndUnique(s, i, i + |d|);
  }

  lemma KotlinCompilerComplete(s: string, i: nat, g: Groups, j: nat)
    requires RenderedAt(KotlinCompilerLog, s, i, g) && j == i + 3 + |g.path|
    ensures j <= |s| && Anchored(KotlinCompilerLog, s, i, j) == Some(g)
  {
    var k1 := j + 3 + |g.line.value|;
    var k2 := k1 + 2 + |g.position.value|;
    KotlinCompilerLayout(s, i, g);
    KotlinCompilerSteps(s, i, j, k1, k2, g);
  }

  lemma KotlinCompilerSteps(s: string, i: nat, j: nat, k1: nat, k2: nat, g: Groups)
    requires i + 3 <= j && j + 3 < k1 && k1 + 2 < k2 && k2 + 3 <= |s|
    requires (s[i] == 'e' || s[i] == 'w') && StartsWithAt(s, i + 1, ": ") && StartsWithAt(s, j, ": (")
    requires IsNumeral(s[j + 3..k1]) && StartsWithAt(s, k1, ", ")
    requires IsNumeral(s[k1 + 2..k2]) && StartsWithAt(s, k2, "): ")
    requires g == Groups(s[i + 3..j], Some(s[j + 3..k1]), Some([s[i]]), Some(s[k1 + 2..k2]), Some(s[k2 + 3..]))
    ensures KotlinCompilerAt(s, i, j) == Some(g)
  {
    assert s[k1] == ',' && s[k2] == ')';
    DigitRunEndUnique(s, j + 3, k1);
    DigitRunEndUnique(s, k1 + 2, k2);
    assert KotlinPositionTail(s, i, j, k1, k2) == Some(g);
    assert KotlinLineTail(s, i, j, k1) == Some(g);
  }

  /** Where the pieces of a rendered Kotlin compiler line sit. */
  lemma KotlinCompilerLayout(s: string, i: nat, g: Groups)
    requires RenderedAt(KotlinCompilerLog, s, i, g)
    ensures var j := i + 3 + |g.path|;
            var k1 := j + 3 + |g.line.value|;
            var k2 := k1 + 2 + |g.position.value|;
            && k2 + 3 <= |s|
            && (s[i] == 'e' || s[i] == 'w') && StartsWithAt(s, i + 1, ": ") && StartsWithAt(s, j, ": (")
            && IsNumeral(s[j + 3..k1]) && StartsWithAt(s, k1, ", ")
            && IsNumeral(s[k1 + 2..k2]) && StartsWithAt(s, k2, "): ")
            && g == Groups(s[i + 3..j], Some(s[j + 3..k1]), Some([s[i]]), Some(s[k1 + 2..k2]), Some(s[k2 + 3..]))
  {
    var j := i + 3 + |g.path|;
    var k1 := j + 3 + |g.line.value|;
    var k2 := k1 + 2 + |g.position.value|;
    KotlinCompilerPieces(s, i, g);
    assert s[i] == 'e' || s[i] == 'w' by { assert s[i] == g.level.value[0]; }
    assert g.level == Some([s[i]]) && g.line == Some(s[j + 3..k1]) && g.position == Some(s[k1 + 2..k2]);
  }

  lemma KotlinCompilerPieces(s: string, i: nat, g: Groups)
    requires RenderedAt(KotlinCompilerLog, s, i, g)
    ensures var j := i + 3 + |g.path|;
            var k1 := j + 3 + |g.line.value|;
            var k2 := k1 + 2 + |g.position.value|;
            && k2 + 3 <= |s|
            && [s[i]] == g.level.value && s[i + 1..i + 3] == ": " && s[i + 3..j] == g.path
            && s[j..j + 3] == ": (" && s[j + 3..k1] == g.line.value
            && s[k1..k1 + 2] == ", " && s[k1 + 2..k2] == g.position.value
            && s[k2..k2 + 3] == "): " && s[k2 + 3..] == g.message.value
  {
    var level, path, line, pos, msg := g.level.value, g.path, g.line.value, g.position.value, g.message.value;
    var j := i + 3 + |path|;
    var k1 := j + 3 + |line|;
    var k2 := k1 + 2 + |pos|;
    var n := |s|;
    PeelRange(s, i, n, level + ": " + path + ": (" + line + ", " + pos + "): ", msg);
    PeelRange(s, i, k2 + 3, level + ": " + path + ": (" + line + ", " + pos, "): ");
    PeelRange(s, i, k2, level + ": " + path + ": (" + line + ", ", pos);
    PeelRange(s, i, k1 + 2, level + ": " + path + ": (" + line, ", ");
    KotlinHeadPieces(s, i, k1, level, path, line);
    assert s[k2 + 3..] == s[k2 + 3..n];
  }

  lemma KotlinHeadPieces(s: string, i: nat, k1: nat, level: string, path: string, line: string)
    requires |level| == 1 && i <= k1 <= |s| && s[i..k1] == level + ": " + path + ": (" + line
    ensures var j := i + 3 + |path|;
            && k1 == j + 3 + |line|
            && [s[i]] == level && s[i + 1..i + 3] == ": " && s[i + 3..j] == path
            && s[j..j + 3] == ": (" && s[j + 3..k1] == line
  {
    var j := i + 3 + |path|;
    PeelRange(s, i, k1, level + ": " + path + ": (", line);
    PeelRange(s, i, j + 3, level + ": " + path, ": (");
    PeelRange(s, i, j, level + ": ", path);
    PeelRange(s, i, i + 3, level, ": ");
    assert [s[i]] == level by { assert [s[i]] == s[i..i + 1]; }
  }

  lemma JavaNoticeComplete(s: string, i: nat, g: Groups, j: nat)
    requires RenderedAt(JavaNotice, s, i, g) && j == i + 6 + |g.path|
    ensures j <= |s| && Anchored(JavaNotice, s, i, j) == Some(g)
  {
    var path := g.path;
    assert s[i..j + 1] == "Note: " + path + " ";
    PeelRange(s, i, j + 1, "Note: " + path, " ");
    PeelRange(s, i, j, "Note: ", path);
    SliceSuffix(s, i + 6, j, path, 5);
    Extend(s, j - 5, j, j + 1, ".java", " ");
  }

  /** The last `n` characters of a slice that spells `x` spell the last `n` of `x`. */
  lemma SliceSuffix(s: string, a: nat, b: nat, x: string, n: nat)
    requires a <= b <= |s| && s[a..b] == x && n <= |x|
    ensures s[b - n..b] == x[|x| - n..]
  {
    assert s[b - n..b] == s[a..b][|x| - n..];
  }

  /** An anchored matcher as a value: for a start and a path end, the groups
      of the match found there, if any. */
  type Matcher = (nat, nat) -> Option<Groups>

  /** The matcher of pattern `p` on line `s`. */
  function MatcherOf(p: Pattern, s: string): Matcher
  {
    (i: nat, j: nat) => if i <= j <= |s| then Anchored(p, s, i, j) else None
  }

  /** The longest path end `j` in `[i, hi]` at which `m` matches from `i`:
      the greedy `.*` of the `path` group tries the longest candidate first
      and backtracks one character at a time. */
  function LongestAt(m: Matcher, i: nat, hi: nat): (r: Option<Hit>)
    requires i <= hi
    ensures r.Some? ==> r.value.start == i && i <= r.value.pathEnd <= hi
    decreases hi - i
  {
    match m(i, hi)
    case Some(g) => Some(Hit(i, hi, g))
    case None => if hi == i then None else LongestAt(m, i, hi - 1)
  }

  /** `LongestAt` finds a match at its path end and none at a later one, and
      fails only when no path end in range gives a match. */
  lemma {:induction false} LongestAtSpec(m: Matcher, i: nat, hi: nat)
    requires i <= hi
    ensures var r := LongestAt(m, i, hi);
            r.Some? ==> && m(i, r.value.pathEnd) == Some(r.value.groups)
                        && forall j :: r.value.pathEnd < j <= hi ==> m(i, j).None?
    ensures LongestAt(m, i, hi).None? ==> forall j :: i <= j <= hi ==> m(i, j).None?
    decreases hi - i
  {
    if m(i, hi).None? && hi > i {
      LongestAtSpec(m, i, hi - 1);
    }
  }

  /** The leftmost start in `[i, n]` from which `m` matches at all, with the
      longest path from that start. */
  function SearchFrom(m: Matcher, i: nat, n: nat): (r: Option<Hit>)
    requires i <= n
    ensures r.Some? ==> i <= r.value.start <= r.value.pathEnd <= n
    decreases n - i
  {
    var h := LongestAt(m, i, n);
    if h.Some? then h
    else if i == n then None
    else SearchFrom(m, i + 1, n)
  }

  /** `SearchFrom` returns a match from the first start that has one, and
      fails only when no start and path end in range give a match. */
  lemma {:induction false} SearchFromSpec(m: Matcher, i: nat, n: nat)
    requires i <= n
    ensures var r := SearchFrom(m, i, n);
            r.Some? ==> && m(r.value.start, r.value.pathEnd) == Some(r.value.groups)
                        && (forall j :: r.value.pathEnd < j <= n ==> m(r.value.start, j).None?)
                        && (forall i', j :: i <= i' < r.value.start && i' <= j <= n ==> m(i', j).None?)
    ensures SearchFrom(m, i, n).None? ==> forall i', j :: i <= i' <= j <= n ==> m(i', j).None?
    decreases n - i
  {
    LongestAtSpec(m, i, n);
    if LongestAt(m, i, n).None? && i < n {
      SearchFromSpec(m, i + 1, n);
    }
  }

  /** `RegExp.prototype.exec` of the pattern on a line: the match with the
      leftmost start, and among those the longest `path` group. None of the
      patterns has the `s` flag, so their `.` stops at a line terminator; on
      a string without one it matches every character, as the matchers
      above assume. */
  function Exec(p: Pattern, s: string): (r: Option<Hit>)
    requires SingleLine(s)
    ensures r.Some? ==> r.value.start <= r.value.pathEnd <= |s| && WellFormed(p, r.value.groups)
  {
    var r := SearchFrom(MatcherOf(p, s), 0, |s|);
    SearchFromSpec(MatcherOf(p, s), 0, |s|);
    if r.Some? then
      assert Anchored(p, s, r.value.start, r.value.pathEnd) == Some(r.value.groups);
      AnchoredSound(p, s, r.value.start, r.value.pathEnd);
      r
    else r
  }

  /** What `exec` returns is a match of the pattern at its start and path end. */
  lemma ExecFound(p: Pattern, s: string)
    requires SingleLine(s) && Exec(p, s).Some?
    ensures var h := Exec(p, s).value;
            && Anchored(p, s, h.start, h.pathEnd) == Some(h.groups)
            && h.pathEnd == h.start + PathOffset(p) + |h.groups.path|
  {
    SearchFromSpec(MatcherOf(p, s), 0, |s|);
  }

  /** No match of `p` on `s` ends its path later than the one `exec` returns. */
  lemma ExecLongest(p: Pattern, s: string, j: nat)
    requires SingleLine(s) && Exec(p, s).Some? && Exec(p, s).value.pathEnd < j <= |s|
    ensures Anchored(p, s, Exec(p, s).value.start, j).None?
  {
    SearchFromSpec(MatcherOf(p, s), 0, |s|);
    assert MatcherOf(p, s)(Exec(p, s).value.start, j).None?;
  }

  /** No match of `p` on `s` starts before the one `exec` returns. */
  lemma ExecLeftmost(p: Pattern, s: string, i: nat, j: nat)
    requires SingleLine(s) && Exec(p, s).Some? && i < Exec(p, s).value.start && i <= j <= |s|
    ensures Anchored(p, s, i, j).None?
  {
    SearchFromSpec(MatcherOf(p, s), 0, |s|);
    assert MatcherOf(p, s)(i, j).None?;
  }

  /** `exec` fails exactly when no start and path end give a match. */
  lemma ExecNone(p: Pattern, s: string)
    requires SingleLine(s)
    ensures Exec(p, s).None? <==> forall i, j :: 0 <= i <= j <= |s| ==> Anchored(p, s, i, j).None?
  {
    var m := MatcherOf(p, s);
    if Exec(p, s).Some? {
      ExecFound(p, s);
      var h := Exec(p, s).value;
      assert Anchored(p, s, h.start, h.pathEnd).Some?;
    } else {
      SearchFromSpec(m, 0, |s|);
      forall i, j | 0 <= i <= j <= |s| ensures Anchored(p, s, i, j).None? {
        assert m(i, j).None?;
      }
    }
  }

  /** What `exec` returns is a rendered match of the pattern. */
  lemma ExecSound(p: Pattern, s: string)
    requires SingleLine(s) && Exec(p, s).Some?
    ensures RenderedAt(p, s, Exec(p, s).value.start, Exec(p, s).value.groups)
  {
    var h := Exec(p, s).value;
    ExecFound(p, s);
    AnchoredSound(p, s, h.start, h.pathEnd);
  }

  /** The Java compiler pattern starts with an unanchored `.*`, so whenever it
      matches at all it matches from the first character and covers the line. */
  lemma JavaCompilerMatchesWholeLine(s: string)
    requires SingleLine(s) && Exec(JavaCompilerLog, s).Some?
    ensures Exec(JavaCompilerLog, s).value.start == 0
    ensures s == Render(JavaCompilerLog, Exec(JavaCompilerLog, s).value.groups)
  {
    var h := Exec(JavaCompilerLog, s).value;
    ExecFound(JavaCompilerLog, s);
    if h.start > 0 {
      JavaCompilerAnyStart(s, h.start, 0, h.pathEnd);
      ExecLeftmost(JavaCompilerLog, s, 0, h.pathEnd);
      assert false;
    }
    ExecSound(JavaCompilerLog, s);
  }

  /** Where the Java compiler match begins does not affect whether its path can end at `j`. */
  lemma JavaCompilerAnyStart(s: string, i: nat, i': nat, j: nat)
    requires i <= j <= |s| && i' <= j
    requires JavaCompilerAt(s, i, j).Some?
    ensures JavaCompilerAt(s, i', j).Some?
  {
    var k := DigitRunEnd(s, j + 1);
    assert JavaCompilerAt(s, i, j) == JavaLevelTail(s, i, j, k);
    assert JavaCompilerAt(s, i', j) == JavaLevelTail(s, i', j, k);
  }

  /** Every rendered match contains a space character. */
  lemma RenderHasSpace(p: Pattern, g: Groups)
    requires WellFormed(p, g)
    ensures ' ' in Render(p, g)
  {
  }

  /** None of the three patterns matches a line without a space. */
  lemma MatchNeedsSpace(p: Pattern, s: string)
    requires SingleLine(s) && Exec(p, s).Some?
    ensures ' ' in s
  {
    ExecSound(p, s);
    RenderedAtHasSpace(p, s, Exec(p, s).value.start, Exec(p, s).value.groups);
  }

  /** A line holding a rendered match holds a space. */
  lemma RenderedAtHasSpace(p: Pattern, s: string, i: nat, g: Groups)
    requires RenderedAt(p, s, i, g)
    ensures ' ' in s
  {
    var r := Render(p, g);
    RenderHasSpace(p, g);
    if p != JavaNotice {
      assert s[i..i + |r|] == r;
    }
    CharOfSlice(s, i, r, ' ');
  }

  /** A character of a slice is a character of the whole. */
  lemma CharOfSlice(s: string, a: nat, r: string, c: char)
    requires a + |r| <= |s| && s[a..a + |r|] == r && c in r
    ensures c in s
  {
    var q :| 0 <= q < |r| && r[q] == c;
    assert s[a + q] == r[q];
  }
}
