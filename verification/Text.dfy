/** Python's `str.strip` and its one-sided forms. */
module Text {

  /** `str.isspace`, for one character. */
  predicate IsSpace(c: char) {
    || c == ' ' || '\t' <= c <= '\r' || '\U{1c}' <= c <= '\U{1f}' || c == '\U{85}' || c == '\U{a0}'
    || c == '\U{1680}' || '\U{2000}' <= c <= '\U{200a}' || c == '\U{2028}' || c == '\U{2029}'
    || c == '\U{202f}' || c == '\U{205f}' || c == '\U{3000}'
  }

  function LStrip(s: string): string {
    if s == "" || !IsSpace(s[0]) then s else LStrip(s[1..])
  }

  function RStrip(s: string): string {
    if s == "" || !IsSpace(s[|s| - 1]) then s else RStrip(s[..|s| - 1])
  }

  function Strip(s: string): string {
    RStrip(LStrip(s))
  }

  predicate IsBlank(s: string) {
    LStrip(s) == ""
  }

  predicate AllSpace(s: string) {
    forall i :: 0 <= i < |s| ==> IsSpace(s[i])
  }

  /** `t` is `s` without its leading blanks. */
  predicate Dedented(s: string, t: string) {
    && |t| <= |s| && t == s[|s| - |t|..]
    && (forall i :: 0 <= i < |s| - |t| ==> IsSpace(s[i]))
    && (t != "" ==> !IsSpace(t[0]))
  }

  /** `t` is `s` without its trailing blanks. */
  predicate Trimmed(s: string, t: string) {
    && t <= s
    && (forall i :: |t| <= i < |s| ==> IsSpace(s[i]))
    && (t != "" ==> !IsSpace(t[|t| - 1]))
  }

  lemma DedentedCons(s: string, t: string)
    requires s != "" && IsSpace(s[0]) && Dedented(s[1..], t)
    ensures Dedented(s, t)
  {
    var k := |s| - |t|;
    assert s[1..][k - 1..] == s[k..];
    forall i | 0 <= i < k
      ensures IsSpace(s[i])
    {
      assert i > 0 ==> s[i] == s[1..][i - 1];
    }
  }

  lemma {:induction false} LStripSpec(s: string)
    ensures Dedented(s, LStrip(s))
  {
    if s != "" && IsSpace(s[0]) {
      LStripSpec(s[1..]);
      DedentedCons(s, LStrip(s));
    }
  }

  lemma {:induction false} RStripSpec(s: string)
    ensures Trimmed(s, RStrip(s))
    decreases |s|
  {
    if s != "" && IsSpace(s[|s| - 1]) {
      RStripSpec(s[..|s| - 1]);
    }
  }

  /** `t` is the stretch of `s` from `k` on, with nothing but blanks around it. */
  predicate Around(s: string, t: string, k: int) {
    && 0 <= k && k + |t| <= |s| && t == s[k..k + |t|]
    && forall i :: 0 <= i < |s| && (i < k || k + |t| <= i) ==> IsSpace(s[i])
  }

  lemma BothEnds(s: string, front: string, t: string)
    requires Dedented(s, front) && Trimmed(front, t)
    ensures Around(s, t, |s| - |front|)
    ensures t != "" ==> !IsSpace(t[0]) && !IsSpace(t[|t| - 1])
  {
    var k := |s| - |front|;
    assert t == front[..|t|] == s[k..k + |t|];
    forall i | k + |t| <= i < |s|
      ensures IsSpace(s[i])
    {
      assert s[i] == front[i - k];
    }
    assert t != "" ==> t[0] == front[0];
  }

  /** A stripped string is all there but for the blanks at its ends, and has none of these. */
  lemma StripSpec(s: string)
    ensures Around(s, Strip(s), |s| - |LStrip(s)|)
    ensures Strip(s) != "" ==> !IsSpace(Strip(s)[0]) && !IsSpace(Strip(s)[|Strip(s)| - 1])
  {
    LStripSpec(s);
    RStripSpec(LStrip(s));
    BothEnds(s, LStrip(s), Strip(s));
  }

  lemma BlankIff(s: string)
    ensures IsBlank(s) <==> AllSpace(s)
    ensures Strip(s) == "" <==> AllSpace(s)
  {
    hide LStrip, RStrip;
    LStripSpec(s);
    RStripSpec(LStrip(s));
    if LStrip(s) != "" {
      assert s[|s| - |LStrip(s)|] == LStrip(s)[0];
    }
  }
}
