/** What `exec` finds on a line that was written in one of the three
    formats: the groups it was written from, and no other pattern first.
    The arguments count colons: each pattern needs a fixed number of them
    from the end of its path on. */
module Recognition {

  import opened Wrappers
  import opened Chars
  import opened Numerals
  import opened Patterns

  /** The number of colons in `s`. */
  function Colons(s: string): nat
  {
    multiset(s)[':']
  }

  /** The colons of a slice are those of its two halves. */
  lemma ColonsSplit(s: string, a: nat, b: nat)
    requires a <= b <= |s|
    ensures Colons(s[a..]) == Colons(s[a..b]) + Colons(s[b..])
  {
    assert s[a..] == s[a..b] + s[b..];
  }

  /** A later suffix has no more colons. */
  lemma ColonsSuffix(s: string, a: nat, b: nat)
    requires a <= b <= |s|
    ensures Colons(s[b..]) <= Colons(s[a..])
  {
    ColonsSplit(s, a, b);
  }

  /** A colon at `q` is counted by every suffix that starts at or before it. */
  lemma ColonAt(s: string, a: nat, q: nat)
    requires a <= q < |s| && s[q] == ':'
    ensures Colons(s[a..]) >= Colons(s[q + 1..]) + 1
  {
    ColonsSplit(s, a, q);
    assert s[q..] == [':'] + s[q + 1..];
  }

  /** A Java compiler match whose path ends at `j` has a colon at `j`, a
      digit right after it, and at least three colons from `j` on. */
  lemma JavaCompilerColons(s: string, i: nat, j: nat)
    requires i <= j <= |s| && Anchored(JavaCompilerLog, s, i, j).Some?
    ensures j + 1 < |s| && s[j] == ':' && IsDigit(s[j + 1])
    ensures Colons(s[j..]) >= 3
  {
    var k := DigitRunEnd(s, j + 1);
    assert JavaCompilerAt(s, i, j) == JavaLevelTail(s, i, j, k);
    JavaLevelTailColons(s, i, j, k);
  }

  lemma JavaLevelTailColons(s: string, i: nat, j: nat, k: nat)
    requires i <= j < k <= |s| && s[j] == ':' && AllDigits(s[j + 1..k])
    requires JavaLevelTail(s, i, j, k).Some?
    ensures j + 1 < |s| && IsDigit(s[j + 1]) && Colons(s[j..]) >= 3
  {
    JavaLevelTailShape(s, i, j, k);
    var level := JavaLevelAt(s, k + 2).value;
    var e := k + 2 + |level|;
    assert IsDigit(s[j + 1]) by { assert s[j + 1] == s[j + 1..k][0]; }
    assert s[k] == ':' by { assert s[k] == s[k..k + 2][0]; }
    assert s[e] == ':' by { assert s[e] == s[e..e + 1][0]; }
    ThreeColons(s, j, k, e);
  }

  /** What the rest of a Java compiler match needs after the line group. */
  lemma JavaLevelTailShape(s: string, i: nat, j: nat, k: nat)
    requires i <= j < k <= |s| && JavaLevelTail(s, i, j, k).Some?
    ensures j + 1 < k && JavaLevelAt(s, k + 2).Some? && StartsWithAt(s, k, ": ")
    ensures StartsWithAt(s, k + 2 + |JavaLevelAt(s, k + 2).value|, ":")
  {
  }

  /** Three colons at `a < b < c` are counted from `a` on. */
  lemma ThreeColons(s: string, a: nat, b: nat, c: nat)
    requires a < b < c < |s| && s[a] == ':' && s[b] == ':' && s[c] == ':'
    ensures Colons(s[a..]) >= 3
  {
    ColonAt(s, b + 1, c);
    ColonAt(s, a + 1, b);
    ColonAt(s, a, a);
  }

  /** A Kotlin compiler match from `i` whose path ends at `j` has colons at
      `i + 1` and at `j`, and at least two from `j` on. */
  lemma KotlinCompilerColons(s: string, i: nat, j: nat)
    requires i <= j <= |s| && Anchored(KotlinCompilerLog, s, i, j).Some?
    ensures i + 3 <= j < |s| && s[i + 1] == ':' && s[j] == ':'
    ensures Colons(s[j..]) >= 2
  {
    var k1 := DigitRunEnd(s, j + 3);
    assert KotlinCompilerAt(s, i, j) == KotlinLineTail(s, i, j, k1);
    var k2 := DigitRunEnd(s, k1 + 2);
    assert KotlinLineTail(s, i, j, k1) == KotlinPositionTail(s, i, j, k1, k2);
    assert s[i + 1] == ':' by { assert s[i + 1] == s[i + 1..i + 3][0]; }
    assert s[j] == ':' by { assert s[j] == s[j..j + 3][0]; }
    assert s[k2 + 1] == ':' by { assert s[k2 + 1] == s[k2..k2 + 3][1]; }
    ColonAt(s, j + 1, k2 + 1);
    ColonAt(s, j, j);
  }

  /** A line with a Java compiler match has at least three colons. */
  lemma JavaCompilerNeedsThreeColons(s: string, i: nat, j: nat)
    requires i <= j <= |s| && Anchored(JavaCompilerLog, s, i, j).Some?
    ensures Colons(s) >= 3
  {
    JavaCompilerColons(s, i, j);
    ColonsSuffix(s, 0, j);
    assert s[0..] == s;
  }

  /** A line with a Kotlin compiler match has at least three colons: the one
      after the level and two from the end of the path on. */
  lemma KotlinCompilerNeedsThreeColons(s: string, i: nat, j: nat)
    requires i <= j <= |s| && Anchored(KotlinCompilerLog, s, i, j).Some?
    ensures Colons(s) >= 3
  {
    KotlinCompilerColons(s, i, j);
    ColonAt(s, 0, i + 1);
    ColonsSuffix(s, i + 2, j);
    assert s[0..] == s;
  }

  /** When `exec` can match from the first character with path end `j0` and
      no path end after `j0` gives a match from there, `exec` returns exactly
      that match. */
  lemma ExecAtStart(p: Pattern, s: string, j0: nat, g: Groups)
    requires SingleLine(s) && j0 <= |s| && Anchored(p, s, 0, j0) == Some(g)
    requires forall j :: j0 < j <= |s| ==> Anchored(p, s, 0, j).None?
    ensures Exec(p, s) == Some(Hit(0, j0, g))
  {
    ExecFinds(p, s, 0, j0);
    var h := Exec(p, s).value;
    if h.start > 0 {
      ExecLeftmost(p, s, 0, j0);
      assert false;
    }
    if h.pathEnd < j0 {
      ExecLongest(p, s, j0);
      assert false;
    }
    ExecFound(p, s);
  }

  /** A line with any match of the pattern is one on which `exec` succeeds. */
  lemma ExecFinds(p: Pattern, s: string, i: nat, j: nat)
    requires SingleLine(s) && i <= j <= |s| && Anchored(p, s, i, j).Some?
    ensures Exec(p, s).Some?
  {
    ExecNone(p, s);
  }

  /** A Java compiler line whose message has no colon: the pattern matches
      from the first character with exactly the groups the line was written
      from, whatever colons the path holds. */
  lemma JavaCompilerLine(g: Groups)
    requires WellFormed(JavaCompilerLog, g) && ':' !in g.message.value
    requires SingleLine(Render(JavaCompilerLog, g))
    ensures Exec(JavaCompilerLog, Render(JavaCompilerLog, g)) == Some(Hit(0, |g.path|, g))
  {
    var s := Render(JavaCompilerLog, g);
    var n := |g.path|;
    assert RenderedAt(JavaCompilerLog, s, 0, g) by { assert s[0..] == s; }
    AnchoredComplete(JavaCompilerLog, s, 0, g);
    JavaRenderTailColons(g);
    forall j | n < j <= |s| ensures Anchored(JavaCompilerLog, s, 0, j).None? {
      if Anchored(JavaCompilerLog, s, 0, j).Some? {
        JavaCompilerColons(s, 0, j);
        ColonsSuffix(s, n + 1, j);
        assert false;
      }
    }
    ExecAtStart(JavaCompilerLog, s, n, g);
  }

  /** After the path, a Java compiler line has two colons when its message has none. */
  lemma JavaRenderTailColons(g: Groups)
    requires WellFormed(JavaCompilerLog, g) && ':' !in g.message.value
    ensures var s := Render(JavaCompilerLog, g);
            |g.path| < |s| && Colons(s[|g.path| + 1..]) == 2
  {
    var s := Render(JavaCompilerLog, g);
    assert RenderedAt(JavaCompilerLog, s, 0, g) by { assert s[0..] == s; }
    JavaCompilerLayout(s, 0, g);
    JavaLaidOutColons(s, 0, g);
  }

  lemma JavaLaidOutColons(s: string, i: nat, g: Groups)
    requires WellFormed(JavaCompilerLog, g) && ':' !in g.message.value && JavaLaidOut(s, i, g)
    ensures i + |g.path| < |s| && Colons(s[i + |g.path| + 1..]) == 2
  {
    DigitsHaveNoColon(g.line.value);
    JavaTailColons(s, i + |g.path|, i + |g.path| + 1 + |g.line.value|, g.level.value);
  }

  lemma JavaTailColons(s: string, j: nat, k: nat, level: string)
    requires j < k && k + 3 + |level| <= |s| && (level == "error" || level == "warning")
    requires ':' !in s[j + 1..k] && StartsWithAt(s, k, ": ") && StartsWithAt(s, k + 2, level)
    requires StartsWithAt(s, k + 2 + |level|, ":") && ':' !in s[k + 3 + |level|..]
    ensures Colons(s[j + 1..]) == 2
  {
    var e := k + 2 + |level|;
    JavaTailShape(s, k, level);
    ColonThenNone(s, e);
    SkipNoColons(s, k + 2, e);
    ColonsHead(s, k + 1);
    ColonsHead(s, k);
    SkipNoColons(s, j + 1, k);
  }

  /** The characters of `: <level>:` that matter for counting. */
  lemma JavaTailShape(s: string, k: nat, level: string)
    requires k + 3 + |level| <= |s| && (level == "error" || level == "warning")
    requires StartsWithAt(s, k, ": ") && StartsWithAt(s, k + 2, level) && StartsWithAt(s, k + 2 + |level|, ":")
    ensures s[k] == ':' && s[k + 1] != ':' && s[k + 2 + |level|] == ':' && ':' !in s[k + 2..k + 2 + |level|]
  {
    assert s[k..k + 2] == ": ";
    assert s[k + 2 + |level|..k + 3 + |level|] == ":";
    assert s[k + 2..k + 2 + |level|] == level;
  }

  /** A colon followed by none counts one. */
  lemma ColonThenNone(s: string, e: nat)
    requires e < |s| && s[e] == ':' && ':' !in s[e + 1..]
    ensures Colons(s[e..]) == 1
  {
    NoColons(s[e + 1..]);
    ColonsHead(s, e);
  }

  /** A stretch without colons adds nothing to the count. */
  lemma SkipNoColons(s: string, a: nat, b: nat)
    requires a <= b <= |s| && ':' !in s[a..b]
    ensures Colons(s[a..]) == Colons(s[b..])
  {
    NoColons(s[a..b]);
    ColonsSplit(s, a, b);
  }

  /** A string without a colon counts none. */
  lemma NoColons(w: string)
    requires ':' !in w
    ensures Colons(w) == 0
  {
  }

  /** A suffix counts its first character and the rest. */
  lemma ColonsHead(s: string, a: nat)
    requires a < |s|
    ensures Colons(s[a..]) == (if s[a] == ':' then 1 else 0) + Colons(s[a + 1..])
  {
    assert s[a..] == [s[a]] + s[a + 1..];
  }

  /** A digit string has no colon. */
  lemma DigitsHaveNoColon(d: string)
    requires AllDigits(d)
    ensures ':' !in d
  {
  }

  /** The colons of a concatenation. */
  lemma ColonsConcat(a: string, b: string)
    ensures Colons(a + b) == Colons(a) + Colons(b)
  {
  }

  /** A Kotlin compiler line whose path and message have no colon has three. */
  lemma KotlinRenderColons(g: Groups)
    requires WellFormed(KotlinCompilerLog, g) && ':' !in g.path && ':' !in g.message.value
    ensures Colons(Render(KotlinCompilerLog, g)) == 3
  {
    DigitsHaveNoColon(g.line.value);
    DigitsHaveNoColon(g.position.value);
    KotlinTextColons(g.level.value, g.path, g.line.value, g.position.value, g.message.value);
  }

  lemma KotlinTextColons(level: string, path: string, line: string, pos: string, msg: string)
    requires level == "e" || level == "w"
    requires ':' !in path && ':' !in line && ':' !in pos && ':' !in msg
    ensures Colons(level + ": " + path + ": (" + line + ", " + pos + "): " + msg) == 3
  {
    var a2 := level + ": " + path;
    var a6 := a2 + ": (" + line + ", " + pos;
    KotlinLiteralColons(level);
    AppendColons(level, ": ", 0, 1);
    AppendNoColons(level + ": ", path, 1);
    AppendColons(a2, ": (", 1, 1);
    AppendNoColons(a2 + ": (", line, 2);
    AppendColons(a2 + ": (" + line, ", ", 2, 0);
    AppendNoColons(a2 + ": (" + line + ", ", pos, 2);
    AppendColons(a6, "): ", 2, 1);
    AppendNoColons(a6 + "): ", msg, 3);
  }

  lemma KotlinLiteralColons(level: string)
    requires level == "e" || level == "w"
    ensures Colons(level) == 0 && Colons(": ") == 1 && Colons(": (") == 1
    ensures Colons(", ") == 0 && Colons("): ") == 1
  {
  }

  lemma AppendColons(a: string, b: string, m: nat, n: nat)
    requires Colons(a) == m && Colons(b) == n
    ensures Colons(a + b) == m + n
  {
    ColonsConcat(a, b);
  }

  lemma AppendNoColons(a: string, b: string, m: nat)
    requires Colons(a) == m && ':' !in b
    ensures Colons(a + b) == m
  {
    NoColons(b);
    ColonsConcat(a, b);
  }

  /** The characters around the colons of a rendered Kotlin compiler line. */
  lemma KotlinRenderShape(g: Groups)
    requires WellFormed(KotlinCompilerLog, g)
    ensures var s := Render(KotlinCompilerLog, g);
            && |s| > 3 + |g.path| && s[0] != ':' && s[1] == ':' && s[2] == ' ' && s[3 + |g.path|] == ':'
  {
    var s := Render(KotlinCompilerLog, g);
    var head := g.level.value + ": " + g.path + ": (";
    assert s[..|head|] == head by {
      assert s == head + (g.line.value + ", " + g.position.value + "): " + g.message.value);
    }
    assert head[3 + |g.path|] == ':';
  }

  /** A Kotlin compiler line whose path and message have no colon: the Java
      compiler pattern does not match it, and the Kotlin pattern matches
      from the first character with exactly the groups it was written from. */
  lemma KotlinCompilerLine(g: Groups)
    requires WellFormed(KotlinCompilerLog, g) && ':' !in g.path && ':' !in g.message.value
    requires SingleLine(Render(KotlinCompilerLog, g))
    ensures Exec(JavaCompilerLog, Render(KotlinCompilerLog, g)).None?
    ensures Exec(KotlinCompilerLog, Render(KotlinCompilerLog, g)) == Some(Hit(0, 3 + |g.path|, g))
  {
    var s := Render(KotlinCompilerLog, g);
    KotlinRenderNoJava(g);
    KotlinRenderAnchored(g);
    KotlinRenderLongest(g);
    ExecAtStart(KotlinCompilerLog, s, 3 + |g.path|, g);
  }

  lemma KotlinRenderNoJava(g: Groups)
    requires WellFormed(KotlinCompilerLog, g) && ':' !in g.path && ':' !in g.message.value
    requires SingleLine(Render(KotlinCompilerLog, g))
    ensures Exec(JavaCompilerLog, Render(KotlinCompilerLog, g)).None?
  {
    KotlinRenderColons(g);
    KotlinRenderShape(g);
    KotlinNoJava(Render(KotlinCompilerLog, g));
  }

  lemma KotlinRenderAnchored(g: Groups)
    requires WellFormed(KotlinCompilerLog, g)
    ensures 3 + |g.path| <= |Render(KotlinCompilerLog, g)|
    ensures Anchored(KotlinCompilerLog, Render(KotlinCompilerLog, g), 0, 3 + |g.path|) == Some(g)
  {
    var s := Render(KotlinCompilerLog, g);
    assert RenderedAt(KotlinCompilerLog, s, 0, g) by { assert s[0..] == s; }
    AnchoredComplete(KotlinCompilerLog, s, 0, g);
  }

  lemma KotlinRenderLongest(g: Groups)
    requires WellFormed(KotlinCompilerLog, g) && ':' !in g.path && ':' !in g.message.value
    ensures var s := Render(KotlinCompilerLog, g);
            forall j' :: 3 + |g.path| < j' <= |s| ==> Anchored(KotlinCompilerLog, s, 0, j').None?
  {
    KotlinRenderColons(g);
    KotlinRenderShape(g);
    KotlinLongest(Render(KotlinCompilerLog, g), 3 + |g.path|);
  }

  /** In a line with three colons, at 1 and at `j` among them, no Kotlin
      compiler match from the first character has its path end after `j`. */
  lemma KotlinLongest(s: string, j: nat)
    requires 2 <= j < |s| && s[1] == ':' && s[j] == ':' && Colons(s) == 3
    ensures forall j' :: j < j' <= |s| ==> Anchored(KotlinCompilerLog, s, 0, j').None?
  {
    assert s[0..] == s;
    ColonAt(s, 0, 1);
    ColonAt(s, 2, j);
    forall j' | j < j' <= |s| ensures Anchored(KotlinCompilerLog, s, 0, j').None? {
      if Anchored(KotlinCompilerLog, s, 0, j').Some? {
        KotlinCompilerColons(s, 0, j');
        ColonsSuffix(s, j + 1, j');
      }
    }
  }

  /** A line with three colons, the first at index 1 with a space after it,
      has no Java compiler match. */
  lemma KotlinNoJava(s: string)
    requires SingleLine(s) && |s| > 2 && s[0] != ':' && s[1] == ':' && s[2] == ' ' && Colons(s) == 3
    ensures Exec(JavaCompilerLog, s).None?
  {
    assert s[0..] == s;
    ColonAt(s, 0, 1);
    forall i, j' | 0 <= i <= j' <= |s| ensures Anchored(JavaCompilerLog, s, i, j').None? {
      if Anchored(JavaCompilerLog, s, i, j').Some? {
        JavaCompilerColons(s, i, j');
        if j' >= 2 {
          ColonsSuffix(s, 2, j');
        }
      }
    }
    ExecNone(JavaCompilerLog, s);
  }

  /** The text `Note: <path> <rest>`. */
  function NoticeText(path: string, rest: string): string
  {
    "Note: " + path + " " + rest
  }

  /** A note line whose path ends in `.java`, with no colon in the path or
      in the text after it, and no further `.java ` in that text: neither
      compiler pattern matches it, and the note pattern matches from the
      first character with exactly that path. */
  lemma JavaNoticeLine(path: string, rest: string)
    requires WellFormed(JavaNotice, Groups(path, None, None, None, None))
    requires ':' !in path && ':' !in rest && !Occurs(rest, ".java ")
    requires SingleLine(NoticeText(path, rest))
    ensures Exec(JavaCompilerLog, NoticeText(path, rest)).None?
    ensures Exec(KotlinCompilerLog, NoticeText(path, rest)).None?
    ensures Exec(JavaNotice, NoticeText(path, rest)) == Some(Hit(0, 6 + |path|, Groups(path, None, None, None, None)))
  {
    var s := NoticeText(path, rest);
    var g := Groups(path, None, None, None, None);
    NoticeNoCompiler(path, rest);
    NoticeAnchored(path, rest);
    NoticeLongest(path, rest);
    ExecAtStart(JavaNotice, s, 6 + |path|, g);
  }

  lemma NoticeNoCompiler(path: string, rest: string)
    requires ':' !in path && ':' !in rest && SingleLine(NoticeText(path, rest))
    ensures Exec(JavaCompilerLog, NoticeText(path, rest)).None?
    ensures Exec(KotlinCompilerLog, NoticeText(path, rest)).None?
  {
    NoticeColons(path, rest);
    FewColonsNoCompiler(NoticeText(path, rest));
  }

  lemma NoticeAnchored(path: string, rest: string)
    requires WellFormed(JavaNotice, Groups(path, None, None, None, None))
    ensures 6 + |path| <= |NoticeText(path, rest)|
    ensures Anchored(JavaNotice, NoticeText(path, rest), 0, 6 + |path|) == Some(Groups(path, None, None, None, None))
  {
    NoticeRendered(path, rest);
    AnchoredComplete(JavaNotice, NoticeText(path, rest), 0, Groups(path, None, None, None, None));
  }

  lemma NoticeRendered(path: string, rest: string)
    requires WellFormed(JavaNotice, Groups(path, None, None, None, None))
    ensures RenderedAt(JavaNotice, NoticeText(path, rest), 0, Groups(path, None, None, None, None))
  {
    var s := NoticeText(path, rest);
    var r := Render(JavaNotice, Groups(path, None, None, None, None));
    assert s == r + rest;
    assert s[0..|r|] == r;
  }

  /** No path end after the first `.java ` gives a note match from the first character. */
  lemma NoticeLongest(path: string, rest: string)
    requires |path| >= 5 && path[|path| - 5..] == ".java" && !Occurs(rest, ".java ")
    ensures forall j :: 6 + |path| < j <= |NoticeText(path, rest)| ==> Anchored(JavaNotice, NoticeText(path, rest), 0, j).None?
  {
    forall j | 6 + |path| < j <= |NoticeText(path, rest)|
      ensures Anchored(JavaNotice, NoticeText(path, rest), 0, j).None?
    {
      NoticeNoLaterPath(path, rest, j);
    }
  }

  /** A note line with no colon in its path or its rest has exactly one. */
  lemma NoticeColons(path: string, rest: string)
    requires ':' !in path && ':' !in rest
    ensures Colons(NoticeText(path, rest)) == 1
  {
    assert Colons("Note: ") == 1 && Colons(" ") == 0;
    ColonsConcat("Note: ", path);
    ColonsConcat("Note: " + path, " ");
    ColonsConcat("Note: " + path + " ", rest);
  }

  /** Neither compiler pattern matches a line with fewer than three colons. */
  lemma FewColonsNoCompiler(s: string)
    requires SingleLine(s) && Colons(s) < 3
    ensures Exec(JavaCompilerLog, s).None? && Exec(KotlinCompilerLog, s).None?
  {
    forall i, j' | 0 <= i <= j' <= |s|
      ensures Anchored(JavaCompilerLog, s, i, j').None? && Anchored(KotlinCompilerLog, s, i, j').None?
    {
      if Anchored(JavaCompilerLog, s, i, j').Some? {
        JavaCompilerNeedsThreeColons(s, i, j');
      }
      if Anchored(KotlinCompilerLog, s, i, j').Some? {
        KotlinCompilerNeedsThreeColons(s, i, j');
      }
    }
    ExecNone(JavaCompilerLog, s);
    ExecNone(KotlinCompilerLog, s);
  }

  /** No `.java ` starts in a note line after the one that ends its path. */
  lemma NoticeNoLaterPath(path: string, rest: string, j: nat)
    requires |path| >= 5 && path[|path| - 5..] == ".java" && !Occurs(rest, ".java ")
    requires 6 + |path| < j <= |NoticeText(path, rest)|
    ensures Anchored(JavaNotice, NoticeText(path, rest), 0, j).None?
  {
    var s := NoticeText(path, rest);
    var q := j - 5;
    if q < 7 + |path| {
      NoticeNoDotAfterPathStart(path, rest, q);
      assert !StartsWithAt(s, q, ".java ") by {
        if q + 6 <= |s| {
          assert s[q..q + 6][0] == s[q];
        }
      }
    } else if StartsWithAt(s, q, ".java ") {
      NoticeRestOccurs(path, rest, q);
    }
  }

  /** Between the last dot of the path and the rest there is no dot. */
  lemma NoticeNoDotAfterPathStart(path: string, rest: string, q: nat)
    requires |path| >= 5 && path[|path| - 5..] == ".java"
    requires |path| + 2 <= q < 7 + |path|
    ensures q < |NoticeText(path, rest)| && NoticeText(path, rest)[q] != '.'
  {
    var s := NoticeText(path, rest);
    assert s == "Note: " + path + " " + rest;
    if q < 6 + |path| {
      var d := q - 6 - (|path| - 5);
      assert 1 <= d < 5;
      assert s[q] == path[q - 6];
      assert path[q - 6] == path[|path| - 5..][d];
      assert ".java"[d] != '.';
    } else {
      assert s[q] == ' ';
    }
  }

  /** A `.java ` in a note line after the space that ends its path lies in the rest. */
  lemma NoticeRestOccurs(path: string, rest: string, q: nat)
    requires 7 + |path| <= q && StartsWithAt(NoticeText(path, rest), q, ".java ")
    ensures Occurs(rest, ".java ")
  {
    var s := NoticeText(path, rest);
    var m := 7 + |path|;
    assert s[m..] == rest;
    assert rest[q - m..q - m + 6] == s[q..q + 6];
    assert StartsWithAt(rest, q - m, ".java ");
  }
}
