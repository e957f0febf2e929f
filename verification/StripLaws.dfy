/** Stripping a block of lines is stripping its text, and what it leaves of each line. */
module StripLaws {
  import opened Text
  import opened Changelog

  // ---- on the text ----

  /** The text whose lines these are. */
  function Unlines(ls: Lines): string {
    if ls == [] then "" else if |ls| == 1 then ls[0] else ls[0] + "\n" + Unlines(ls[1..])
  }

  lemma {:induction false} UnlinesSnoc(ls: Lines, line: string)
    requires ls != []
    ensures Unlines(ls + [line]) == Unlines(ls) + ("\n" + line)
  {
    var longer := ls + [line];
    assert longer[1..] == ls[1..] + [line];
    if |ls| == 1 {
      assert longer[1..] == [line];
    } else {
      UnlinesSnoc(ls[1..], line);
      assert ls[0] + "\n" + (Unlines(ls[1..]) + ("\n" + line)) == ls[0] + "\n" + Unlines(ls[1..]) + ("\n" + line);
    }
  }

  lemma {:induction false} LStripConcat(a: string, b: string)
    ensures LStrip(a + b) == if LStrip(a) == "" then LStrip(b) else LStrip(a) + b
  {
    if a == "" {
      assert a + b == b;
    } else {
      assert (a + b)[0] == a[0] && (a + b)[1..] == a[1..] + b;
      if IsSpace(a[0]) {
        LStripConcat(a[1..], b);
      }
    }
  }

  lemma {:induction false} RStripConcat(a: string, b: string)
    ensures RStrip(a + b) == if RStrip(b) == "" then RStrip(a) else a + RStrip(b)
    decreases |b|
  {
    if b == "" {
      assert a + b == a;
    } else {
      var init := b[..|b| - 1];
      assert (a + b)[|a + b| - 1] == b[|b| - 1] && (a + b)[..|a + b| - 1] == a + init;
      if IsSpace(b[|b| - 1]) {
        RStripConcat(a, init);
      }
    }
  }

  lemma NewlineIsBlank()
    ensures LStrip("\n") == "" && RStrip("\n") == ""
  {
    assert "\n"[1..] == "" && "\n"[..0] == "";
  }

  lemma {:induction false} FrontOfText(ls: Lines)
    ensures Unlines(StripFront(ls)) == LStrip(Unlines(ls))
  {
    if |ls| == 1 {
      assert StripFront(ls[1..]) == [] && [LStrip(ls[0])] + ls[1..] == [LStrip(ls[0])];
    } else if |ls| > 1 {
      FrontOfText(ls[1..]);
      NewlineIsBlank();
      LStripConcat(ls[0] + "\n", Unlines(ls[1..]));
      LStripConcat(ls[0], "\n");
      assert ([LStrip(ls[0])] + ls[1..])[1..] == ls[1..];
    }
  }

  lemma {:induction false} BackOfText(ls: Lines)
    ensures Unlines(StripBack(ls)) == RStrip(Unlines(ls))
    decreases |ls|
  {
    if ls != [] {
      var init, last := ls[..|ls| - 1], ls[|ls| - 1];
      BackOfText(init);
      if init == [] {
        assert init + [RStrip(last)] == [RStrip(last)];
      } else {
        assert ls == init + [last];
        UnlinesSnoc(init, last);
        UnlinesSnoc(init, RStrip(last));
        NewlineIsBlank();
        RStripConcat(Unlines(init), "\n" + last);
        RStripConcat("\n", last);
      }
    }
  }

  /** Stripping the lines of a text is stripping the text. */
  lemma StripBlockIsStrip(ls: Lines)
    ensures Unlines(StripBlock(ls)) == Strip(Unlines(ls))
  {
    FrontOfText(ls);
    BackOfText(StripFront(ls));
  }

  // ---- on the lines ----

  /** `b` is the lines of `ls` from `a` on, less the blanks before its first line. */
  predicate FrontAt(ls: Lines, b: Lines, a: int) {
    && 0 <= a && a + |b| == |ls|
    && (forall i :: 0 <= i < a ==> AllSpace(ls[i]))
    && (b != [] ==> b[0] != "" && Dedented(ls[a], b[0]))
    && forall i :: 1 <= i < |b| ==> b[i] == ls[a + i]
  }

  /** `b` is the first lines of `ls`, less the blanks after its last line. */
  predicate BackAt(ls: Lines, b: Lines) {
    && |b| <= |ls|
    && (forall i :: |b| <= i < |ls| ==> AllSpace(ls[i]))
    && (b != [] ==> b[|b| - 1] != "" && Trimmed(ls[|b| - 1], b[|b| - 1]))
    && forall i :: 0 <= i < |b| - 1 ==> b[i] == ls[i]
  }

  lemma FrontAtCons(ls: Lines, b: Lines, a: int)
    requires ls != [] && AllSpace(ls[0]) && FrontAt(ls[1..], b, a)
    ensures FrontAt(ls, b, a + 1)
  {
    assert forall i :: 0 < i < |ls| ==> ls[i] == ls[1..][i - 1];
  }

  lemma FrontAtHere(ls: Lines, t: string)
    requires ls != [] && t != "" && Dedented(ls[0], t)
    ensures FrontAt(ls, [t] + ls[1..], 0)
  {
  }

  lemma {:induction false} StripFrontSpec(ls: Lines)
    ensures FrontAt(ls, StripFront(ls), |ls| - |StripFront(ls)|)
  {
    hide FrontAt, LStrip;
    if ls == [] {
      NoFront();
    } else if LStrip(ls[0]) == "" {
      BlankIff(ls[0]);
      StripFrontSpec(ls[1..]);
      FrontAtCons(ls, StripFront(ls), |ls[1..]| - |StripFront(ls)|);
    } else {
      LStripSpec(ls[0]);
      FrontAtHere(ls, LStrip(ls[0]));
    }
  }

  lemma NoFront()
    ensures FrontAt([], [], 0)
  {
  }

  lemma RBlank(s: string)
    ensures RStrip(s) == "" ==> AllSpace(s)
  {
    RStripSpec(s);
  }

  lemma {:induction false} StripBackSpec(ls: Lines)
    ensures BackAt(ls, StripBack(ls))
    decreases |ls|
  {
    if ls != [] {
      RBlank(ls[|ls| - 1]);
      RStripSpec(ls[|ls| - 1]);
      if RStrip(ls[|ls| - 1]) == "" {
        StripBackSpec(ls[..|ls| - 1]);
      }
    }
  }

  /** `b` is `ls` stripped, and its first line is line `a`: what is left out is blank from end to end;
      the first line loses its leading blanks, the last its trailing ones, a single one both, and the
      lines between lose nothing. */
  ghost predicate StrippedAt(ls: Lines, b: Lines, a: int) {
    && 0 <= a && a + |b| <= |ls|
    && (forall i :: 0 <= i < |ls| && (i < a || a + |b| <= i) ==> AllSpace(ls[i]))
    && (b != [] ==> !AllSpace(ls[a]) && !AllSpace(ls[a + |b| - 1]))
    && Stripped(b)
    && (|b| == 1 ==> exists k :: Around(ls[a], b[0], k))
    && (|b| > 1 ==> Dedented(ls[a], b[0]) && Trimmed(ls[a + |b| - 1], b[|b| - 1]))
    && forall i :: 0 < i < |b| - 1 ==> b[i] == ls[a + i]
  }

  lemma NotAllSpace(line: string, t: string)
    requires t != "" && !IsSpace(t[0]) && Dedented(line, t)
    ensures !AllSpace(line)
  {
    assert line[|line| - |t|] == t[0];
  }

  lemma BothSides(ls: Lines, front: Lines, b: Lines)
    requires FrontAt(ls, front, |ls| - |front|) && BackAt(front, b) && (front != [] ==> b != [])
    ensures StrippedAt(ls, b, |ls| - |front|)
  {
    var a := |ls| - |front|;
    forall i | a + |b| <= i < |ls|
      ensures AllSpace(ls[i])
    {
      assert front != [] && front[i - a] == ls[i];
    }
    if b != [] {
      NotAllSpace(ls[a], front[0]);
      var z := |b| - 1;
      assert b[z] == front[z][..|b[z]|];
      if z == 0 {
        BothEnds(ls[a], front[0], b[0]);
      } else {
        assert front[z] == ls[a + z] && front[z][|b[z]| - 1] == b[z][|b[z]| - 1];
      }
    }
  }

  lemma {:induction false} KeepsFirst(ls: Lines)
    requires ls != [] && !AllSpace(ls[0])
    ensures StripBack(ls) != []
    decreases |ls|
  {
    RBlank(ls[|ls| - 1]);
    if RStrip(ls[|ls| - 1]) == "" {
      KeepsFirst(ls[..|ls| - 1]);
    }
  }

  /** How many lines stripping takes off the front. */
  function Skipped(ls: Lines): int {
    |ls| - |StripFront(ls)|
  }

  /** A stripped block is its file's lines without exactly the blank ones at its ends. */
  lemma StripBlockSpec(ls: Lines)
    ensures StrippedAt(ls, StripBlock(ls), Skipped(ls))
  {
    var front := StripFront(ls);
    StripFrontSpec(ls);
    StripBackSpec(front);
    if front != [] {
      assert !IsSpace(front[0][0]);
      KeepsFirst(front);
    }
    BothSides(ls, front, StripBlock(ls));
  }

  lemma AroundOnce(s: string, t: string, u: string, k: int, m: int)
    requires Around(s, t, k) && Around(s, u, m) && t != "" && u != ""
    requires !IsSpace(t[0]) && !IsSpace(t[|t| - 1]) && !IsSpace(u[0]) && !IsSpace(u[|u| - 1])
    ensures t == u
  {
    assert s[k] == t[0] && s[k + |t| - 1] == t[|t| - 1];
    assert s[m] == u[0] && s[m + |u| - 1] == u[|u| - 1];
  }

  lemma DedentedOnce(s: string, t: string, u: string)
    requires Dedented(s, t) && Dedented(s, u) && t != "" && u != ""
    ensures t == u
  {
    assert s[|s| - |t|] == t[0] && s[|s| - |u|] == u[0];
  }

  lemma TrimmedOnce(s: string, t: string, u: string)
    requires Trimmed(s, t) && Trimmed(s, u) && t != "" && u != ""
    ensures t == u
  {
    assert s[|t| - 1] == t[|t| - 1] && s[|u| - 1] == u[|u| - 1];
  }

  /** There is nothing else that is `ls` stripped. */
  lemma StrippedOnce(ls: Lines, b: Lines, a: int, c: Lines, d: int)
    requires StrippedAt(ls, b, a) && StrippedAt(ls, c, d)
    ensures b == c
  {
    if b != [] && c != [] {
      assert a == d && |b| == |c|;
      var z := |b| - 1;
      if z == 0 {
        var k :| Around(ls[a], b[0], k);
        var m :| Around(ls[a], c[0], m);
        AroundOnce(ls[a], b[0], c[0], k, m);
      } else {
        DedentedOnce(ls[a], b[0], c[0]);
        TrimmedOnce(ls[a + z], b[z], c[z]);
      }
    }
  }

  /** So the account says everything: a block is `ls` stripped exactly when it meets it. */
  lemma IsStripBlockIff(ls: Lines, b: Lines)
    ensures b == StripBlock(ls) <==> exists a :: StrippedAt(ls, b, a)
  {
    StripBlockSpec(ls);
    if a :| StrippedAt(ls, b, a) {
      StrippedOnce(ls, b, a, StripBlock(ls), Skipped(ls));
    }
  }

  /** What is left of a line: all of it but blanks at its ends. */
  ghost predicate Keeps(line: string, kept: string) {
    exists k :: Around(line, kept, k)
  }

  lemma AroundItself(line: string)
    ensures Around(line, line, 0)
  {
  }

  /** Every line that is not blank has its place in the stripped block; only the first and the last of
      these lose blanks. */
  lemma LinesAreKept(ls: Lines, b: Lines, a: int, i: int)
    requires StrippedAt(ls, b, a) && 0 <= i < |ls| && !AllSpace(ls[i])
    ensures a <= i < a + |b| && Keeps(ls[i], b[i - a])
    ensures a < i < a + |b| - 1 ==> b[i - a] == ls[i]
  {
    if a < i < a + |b| - 1 {
      AroundItself(ls[i]);
    } else if |b| > 1 {
      var kept := b[i - a];
      assert if i == a then Around(ls[i], kept, |ls[i]| - |kept|) else Around(ls[i], kept, 0);
    }
  }
}
