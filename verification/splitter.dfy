/** `chunk.split(/[\s,]+/)`: the cutting of a chunk of process output into
    the pieces that the build step classifies one by one. */
module Splitter {

  import opened Chars

  /** Every character of `s` is one of `[\s,]`. */
  predicate AllSeparators(s: string)
  {
    forall k :: 0 <= k < |s| ==> IsSeparator(s[k])
  }

  /** The pieces of `s` between maximal runs of separators, read from the
      front: a separator run at the very start or end leaves an empty piece
      there, and the empty string is one empty piece. */
  function Split(s: string): (r: seq<string>)
    ensures |r| >= 1
    ensures r[0] == "" <==> (|s| == 0 || IsSeparator(s[0]))
    ensures |s| > 0 && IsSeparator(s[0]) ==> |r| >= 2
  {
    if |s| == 0 then [""]
    else
      var t := Split(s[1..]);
      if !IsSeparator(s[0]) then [[s[0]] + t[0]] + t[1..]
      else if |s| > 1 && IsSeparator(s[1]) then t
      else [""] + t
  }

  /** The maximal separator runs of `s` that `Split` cuts at, in order. */
  function Runs(s: string): (r: seq<string>)
    ensures |r| + 1 == |Split(s)|
  {
    if |s| == 0 then []
    else
      var u := Runs(s[1..]);
      if !IsSeparator(s[0]) then u
      else if |s| > 1 && IsSeparator(s[1]) then [[s[0]] + u[0]] + u[1..]
      else [[s[0]]] + u
  }

  /** The pieces put back together with the runs between them. */
  function Join(ts: seq<string>, rs: seq<string>): string
    requires |ts| == |rs| + 1
  {
    if |rs| == 0 then ts[0] else ts[0] + rs[0] + Join(ts[1..], rs[1..])
  }

  /** Pieces and runs as a regular-expression split leaves them: no piece
      holds a separator, every run is a non-empty stretch of separators,
      and only the first and the last piece may be empty. */
  predicate Separated(ts: seq<string>, rs: seq<string>)
  {
    && |ts| == |rs| + 1
    && (forall k :: 0 <= k < |ts| ==> NoSeparator(ts[k]))
    && (forall k :: 0 <= k < |rs| ==> |rs[k]| > 0 && AllSeparators(rs[k]))
    && (forall k :: 0 < k < |rs| ==> |ts[k]| > 0)
  }

  /** The split pieces and the runs between them rebuild the chunk, and
      have the shape of a split. */
  lemma {:induction false} SplitDecomposes(s: string)
    ensures Separated(Split(s), Runs(s))
    ensures Join(Split(s), Runs(s)) == s
    decreases |s|
  {
    if |s| > 0 {
      var t, u := Split(s[1..]), Runs(s[1..]);
      SplitDecomposes(s[1..]);
      var c := s[0];
      assert s == [c] + s[1..];
      if !IsSeparator(c) {
        ConsTokenSeparated(t, u, c);
        JoinConsToken(t, u, c);
      } else if |s| > 1 && IsSeparator(s[1]) {
        ConsRunSeparated(t, u, c);
        JoinConsRun(t, u, c);
      } else {
        NewRunSeparated(t, u, c);
        JoinNewRun(t, u, c);
      }
    }
  }

  lemma ConsTokenSeparated(ts: seq<string>, rs: seq<string>, c: char)
    requires Separated(ts, rs) && !IsSeparator(c)
    ensures Separated([[c] + ts[0]] + ts[1..], rs)
  {
    var ts' := [[c] + ts[0]] + ts[1..];
    assert forall k :: 0 < k < |ts'| ==> ts'[k] == ts[k];
    assert NoSeparator(ts'[0]) by {
      forall k | 0 < k < |ts'[0]| ensures !IsSeparator(ts'[0][k]) {
        assert ts'[0][k] == ts[0][k - 1];
      }
    }
  }

  lemma ConsRunSeparated(ts: seq<string>, rs: seq<string>, c: char)
    requires Separated(ts, rs) && |rs| > 0 && IsSeparator(c)
    ensures Separated(ts, [[c] + rs[0]] + rs[1..])
  {
    var rs' := [[c] + rs[0]] + rs[1..];
    assert forall k :: 0 < k < |rs'| ==> rs'[k] == rs[k];
    assert AllSeparators(rs'[0]) by {
      forall k | 0 < k < |rs'[0]| ensures IsSeparator(rs'[0][k]) {
        assert rs'[0][k] == rs[0][k - 1];
      }
    }
  }

  lemma NewRunSeparated(ts: seq<string>, rs: seq<string>, c: char)
    requires Separated(ts, rs) && IsSeparator(c) && (|rs| > 0 ==> |ts[0]| > 0)
    ensures Separated([""] + ts, [[c]] + rs)
  {
    var ts', rs' := [""] + ts, [[c]] + rs;
    assert forall k :: 0 < k < |ts'| ==> ts'[k] == ts[k - 1];
    assert forall k :: 0 < k < |rs'| ==> rs'[k] == rs[k - 1];
  }

  lemma JoinNewRun(ts: seq<string>, rs: seq<string>, c: char)
    requires |ts| == |rs| + 1
    ensures Join([""] + ts, [[c]] + rs) == [c] + Join(ts, rs)
  {
    assert ([""] + ts)[1..] == ts && ([[c]] + rs)[1..] == rs;
  }

  /** A character in front of the first piece. */
  lemma JoinConsToken(ts: seq<string>, rs: seq<string>, c: char)
    requires |ts| == |rs| + 1
    ensures Join([[c] + ts[0]] + ts[1..], rs) == [c] + Join(ts, rs)
  {
    var ts' := [[c] + ts[0]] + ts[1..];
    if |rs| > 0 {
      assert ts'[1..] == ts[1..];
    }
  }

  /** A character in front of the first run, when the first piece is empty. */
  lemma JoinConsRun(ts: seq<string>, rs: seq<string>, c: char)
    requires |ts| == |rs| + 1 && |rs| > 0 && ts[0] == ""
    ensures Join(ts, [[c] + rs[0]] + rs[1..]) == [c] + Join(ts, rs)
  {
    var rs' := [[c] + rs[0]] + rs[1..];
    assert rs'[1..] == rs[1..];
  }

  /** A split is the only way to cut a chunk into separated pieces and runs:
      the recursive reading above is the split. */
  lemma {:induction false} SplitUnique(s: string, ts: seq<string>, rs: seq<string>)
    requires Separated(ts, rs) && Join(ts, rs) == s
    ensures ts == Split(s) && rs == Runs(s)
    decreases |s|
  {
    if |ts[0]| > 0 {
      var c := ts[0][0];
      var ts' := [ts[0][1..]] + ts[1..];
      UnconsTokenSeparated(ts, rs);
      JoinConsToken(ts', rs, c);
      SplitUnique(s[1..], ts', rs);
    } else if |rs| > 0 {
      var c := rs[0][0];
      if |rs[0]| > 1 {
        var rs' := [rs[0][1..]] + rs[1..];
        UnconsRunSeparated(ts, rs);
        JoinConsRun(ts, rs', c);
        assert IsSeparator(s[1]) by { assert s[1] == rs[0][1]; }
        SplitUnique(s[1..], ts, rs');
      } else {
        DropFirstSeparated(ts, rs);
        SplitUnique(s[1..], ts[1..], rs[1..]);
        if |s| > 1 {
          FirstPieceAfterRun(ts, rs);
        }
        assert rs[0] == [c];
        assert ts == [""] + ts[1..] && rs == [[c]] + rs[1..];
      }
    }
  }

  /** Two separator-free pieces around one run of separators split into
      exactly those two pieces, the first or the last possibly empty. */
  lemma SplitAroundRun(x: string, run: string, y: string)
    requires NoSeparator(x) && NoSeparator(y) && |run| > 0 && AllSeparators(run)
    ensures Split(x + run + y) == [x, y]
  {
    var ts, rs := [x, y], [run];
    assert ts[1..] == [y] && rs[1..] == [];
    assert Join(ts, rs) == x + run + y;
    SplitUnique(x + run + y, ts, rs);
  }

  /** The first character of a non-empty first piece taken off. */
  lemma UnconsTokenSeparated(ts: seq<string>, rs: seq<string>)
    requires Separated(ts, rs) && |ts[0]| > 0
    ensures var ts' := [ts[0][1..]] + ts[1..];
            && !IsSeparator(ts[0][0]) && [[ts[0][0]] + ts'[0]] + ts'[1..] == ts
            && Separated(ts', rs)
  {
    var c := ts[0][0];
    var ts' := [ts[0][1..]] + ts[1..];
    assert [c] + ts'[0] == ts[0];
    assert forall k :: 0 < k < |ts'| ==> ts'[k] == ts[k];
    assert NoSeparator(ts'[0]) by {
      forall k | 0 <= k < |ts'[0]| ensures !IsSeparator(ts'[0][k]) {
        assert ts'[0][k] == ts[0][k + 1];
      }
    }
  }

  /** The first character of a longer-than-one first run taken off. */
  lemma UnconsRunSeparated(ts: seq<string>, rs: seq<string>)
    requires Separated(ts, rs) && |rs| > 0 && |rs[0]| > 1
    ensures var rs' := [rs[0][1..]] + rs[1..];
            && IsSeparator(rs[0][0]) && IsSeparator(rs[0][1]) && [[rs[0][0]] + rs'[0]] + rs'[1..] == rs
            && Separated(ts, rs')
  {
    var c := rs[0][0];
    var rs' := [rs[0][1..]] + rs[1..];
    assert [c] + rs'[0] == rs[0];
    assert forall k :: 0 < k < |rs'| ==> rs'[k] == rs[k];
    assert AllSeparators(rs'[0]) by {
      forall k | 0 <= k < |rs'[0]| ensures IsSeparator(rs'[0][k]) {
        assert rs'[0][k] == rs[0][k + 1];
      }
    }
  }

  /** An empty first piece and a one-character first run dropped. */
  lemma DropFirstSeparated(ts: seq<string>, rs: seq<string>)
    requires Separated(ts, rs) && |rs| > 0 && |rs[0]| == 1 && ts[0] == ""
    ensures IsSeparator(rs[0][0]) && Join(ts, rs) == rs[0] + Join(ts[1..], rs[1..])
    ensures Separated(ts[1..], rs[1..])
  {
    assert forall k :: 0 <= k < |ts| - 1 ==> ts[1..][k] == ts[k + 1];
    assert forall k :: 0 <= k < |rs| - 1 ==> rs[1..][k] == rs[k + 1];
  }

  /** After a one-character first run comes a non-separator, or nothing. */
  lemma FirstPieceAfterRun(ts: seq<string>, rs: seq<string>)
    requires Separated(ts, rs) && |rs| > 0 && |rs[0]| == 1 && |Join(ts[1..], rs[1..])| > 0
    ensures !IsSeparator(Join(ts[1..], rs[1..])[0])
  {
    if |rs| == 1 {
      assert Join(ts[1..], rs[1..]) == ts[1];
    }
    assert Join(ts[1..], rs[1..])[0] == ts[1][0];
  }

  /** A line without separators is a single piece. */
  lemma {:induction false} SplitNoSeparator(s: string)
    requires NoSeparator(s)
    ensures Split(s) == [s]
    decreases |s|
  {
    if |s| > 0 {
      SplitNoSeparator(s[1..]);
      assert [s[0]] + s[1..] == s;
    }
  }

  /** The last piece is empty exactly when the chunk is empty or ends in a
      separator. */
  lemma LastPiece(s: string)
    ensures Split(s)[|Split(s)| - 1] == "" <==> (|s| == 0 || IsSeparator(s[|s| - 1]))
  {
    var ts, rs := Split(s), Runs(s);
    SplitDecomposes(s);
    if |rs| == 0 {
      assert s == ts[0];
      if |s| > 0 {
        assert !IsSeparator(s[|s| - 1]) by { assert NoSeparator(ts[0]); }
      }
    } else {
      JoinLast(ts, rs);
    }
  }

  /** The chunk ends with its last piece, after the last run. */
  lemma {:induction false} JoinLast(ts: seq<string>, rs: seq<string>)
    requires Separated(ts, rs) && |rs| > 0
    ensures var s, last, run := Join(ts, rs), ts[|ts| - 1], rs[|rs| - 1];
            |s| >= |last| + |run| && s[|s| - |last|..] == last
            && s[|s| - |last| - |run|..|s| - |last|] == run
    decreases |rs|
  {
    if |rs| == 1 {
      assert Join(ts[1..], rs[1..]) == ts[1];
    } else {
      assert Separated(ts[1..], rs[1..]) by {
        assert forall k :: 0 <= k < |ts| - 1 ==> ts[1..][k] == ts[k + 1];
        assert forall k :: 0 <= k < |rs| - 1 ==> rs[1..][k] == rs[k + 1];
      }
      JoinLast(ts[1..], rs[1..]);
    }
  }
}
