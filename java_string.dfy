/**
 * The two operations of java.lang.String that the feed reader relies on:
 * `trim()` and the literal, left-to-right `replace(CharSequence, CharSequence)`.
 */
module JavaString {

  /** `w` is a prefix of `s`. */
  predicate StartsWith(s: string, w: string) {
    |w| <= |s| && s[..|w|] == w
  }

  /** `w` occurs somewhere in `s`. */
  predicate Occurs(s: string, w: string)
    decreases |s|
  {
    StartsWith(s, w) || (s != [] && Occurs(s[1..], w))
  }

  /** Every character of an occurrence of `w` is a character of `s`. */
  lemma {:induction false} OccursUsesChars(s: string, w: string, j: nat)
    requires Occurs(s, w) && j < |w|
    ensures w[j] in s
    decreases |s|
  {
    if StartsWith(s, w) {
      assert s[j] == w[j];
    } else {
      OccursUsesChars(s[1..], w, j);
    }
  }

  /** The characters `String.trim` strips: every code unit up to and including U+0020. */
  predicate Trimmable(c: char) {
    c <= ' '
  }

  /** Drops the leading trimmable characters; what is left is a suffix of `s` that does not start with one. */
  function TrimStart(s: string): (r: string)
    ensures |r| <= |s| && r == s[|s| - |r|..]
    ensures r == [] || !Trimmable(r[0])
    decreases |s|
  {
    if s != [] && Trimmable(s[0]) then TrimStart(s[1..]) else s
  }

  /** Drops the trailing trimmable characters; what is left is a prefix of `s` that does not end with one. */
  function TrimEnd(s: string): (r: string)
    ensures |r| <= |s| && r == s[..|r|]
    ensures r == [] || !Trimmable(r[|r| - 1])
    decreases |s|
  {
    if s != [] && Trimmable(s[|s| - 1]) then TrimEnd(s[..|s| - 1]) else s
  }

  /**
   * `String.trim`: cuts the trimmable characters off both ends. What is left
   * is no longer than `s` and neither starts nor ends with a trimmable character.
   */
  function Trim(s: string): (r: string)
    ensures |r| <= |s|
    ensures r == [] || (!Trimmable(r[0]) && !Trimmable(r[|r| - 1]))
    decreases |s|
  {
    if s != [] && Trimmable(s[0]) then Trim(s[1..])
    else
      var r := TrimEnd(s);
      assert r != [] ==> r[0] == s[0];
      r
  }

  /** Trimming is cutting the front, then the back. */
  lemma {:induction false} TrimIsBothEnds(s: string)
    ensures Trim(s) == TrimEnd(TrimStart(s))
    decreases |s|
  {
    if s != [] && Trimmable(s[0]) {
      TrimIsBothEnds(s[1..]);
    }
  }

  /** `TrimStart` drops only trimmable characters. */
  lemma {:induction false} TrimStartDropsTrimmable(s: string)
    ensures forall k :: 0 <= k < |s| - |TrimStart(s)| ==> Trimmable(s[k])
    decreases |s|
  {
    if s != [] && Trimmable(s[0]) {
      TrimStartDropsTrimmable(s[1..]);
      assert forall k :: 1 <= k < |s| ==> s[k] == s[1..][k - 1];
    }
  }

  /** `TrimEnd` drops only trimmable characters. */
  lemma {:induction false} TrimEndDropsTrimmable(s: string)
    ensures forall k :: |TrimEnd(s)| <= k < |s| ==> Trimmable(s[k])
    decreases |s|
  {
    if s != [] && Trimmable(s[|s| - 1]) {
      TrimEndDropsTrimmable(s[..|s| - 1]);
    }
  }

  /**
   * Cutting the front of `s` gives `t`, then cutting the back of `t` gives
   * `r` (which is `Trim(s)`, by `TrimIsBothEnds`): `r` is the infix of `s`
   * that starts where the front cut stopped, and every character before it
   * and after it is trimmable.
   */
  lemma {:induction false} BothEndsIsInfix(s: string, t: string, r: string)
    requires t == TrimStart(s) && r == TrimEnd(t)
    ensures |s| - |t| + |r| <= |s| && r == s[|s| - |t|..|s| - |t| + |r|]
    ensures forall k :: 0 <= k < |s| - |t| ==> Trimmable(s[k])
    ensures forall k :: |s| - |t| + |r| <= k < |s| ==> Trimmable(s[k])
  {
    TrimStartDropsTrimmable(s);
    TrimEndDropsTrimmable(t);
    SuffixPrefixIsInfix(s, t, r);
  }

  /** A prefix `r` of a suffix `t` of `s` is the infix of `s` at `|s| - |t|`, with the characters around it those of `s` outside `t`, and of `t` outside `r`. */
  lemma {:induction false} SuffixPrefixIsInfix(s: string, t: string, r: string)
    requires |t| <= |s| && t == s[|s| - |t|..]
    requires |r| <= |t| && r == t[..|r|]
    requires forall k :: |r| <= k < |t| ==> Trimmable(t[k])
    ensures var i := |s| - |t|; i + |r| <= |s| && r == s[i..i + |r|]
    ensures forall k :: |s| - |t| + |r| <= k < |s| ==> Trimmable(s[k])
  {
    var i := |s| - |t|;
    forall k | i + |r| <= k < |s|
      ensures Trimmable(s[k])
    {
      assert s[k] == t[k - i];
    }
  }

  /** A string made only of trimmable characters trims to the empty string. */
  lemma {:induction false} TrimOfBlank(s: string)
    requires forall k :: 0 <= k < |s| ==> Trimmable(s[k])
    ensures Trim(s) == []
    decreases |s|
  {
    if s != [] {
      assert Trimmable(s[0]);
      assert forall k :: 0 <= k < |s| - 1 ==> s[1..][k] == s[k + 1];
      TrimOfBlank(s[1..]);
    }
  }

  /** A string that neither starts nor ends with a trimmable character is its own trim. */
  lemma {:induction false} TrimOfUnpadded(s: string)
    requires s == [] || (!Trimmable(s[0]) && !Trimmable(s[|s| - 1]))
    ensures Trim(s) == s
  {
  }

  /**
   * `String.replace(pat, rep)` for a non-empty literal `pat`: scans from the
   * left and replaces each non-overlapping occurrence ("aaa" with "aa" -> "b"
   * gives "ba").
   */
  function ReplaceAll(s: string, pat: string, rep: string): (r: string)
    requires pat != []
    ensures rep == pat ==> r == s
    ensures |rep| == |pat| ==> |r| == |s|
    decreases |s|
  {
    if |s| < |pat| then s
    else if s[..|pat|] == pat then rep + ReplaceAll(s[|pat|..], pat, rep)
    else [s[0]] + ReplaceAll(s[1..], pat, rep)
  }

  /** A text in which the pattern does not occur is returned unchanged. */
  lemma {:induction false} ReplaceAllWithoutMatch(s: string, pat: string, rep: string)
    requires pat != [] && !Occurs(s, pat)
    ensures ReplaceAll(s, pat, rep) == s
    decreases |s|
  {
    if |s| >= |pat| {
      assert !StartsWith(s, pat);
      ReplaceAllWithoutMatch(s[1..], pat, rep);
      assert s == [s[0]] + s[1..];
    }
  }

  /** Replacing a pattern by something no longer never makes the string longer. */
  lemma {:induction false} ReplaceAllNotLonger(s: string, pat: string, rep: string)
    requires pat != [] && |rep| <= |pat|
    ensures |ReplaceAll(s, pat, rep)| <= |s|
    decreases |s|
  {
    if |s| < |pat| {
    } else if s[..|pat|] == pat {
      ReplaceAllNotLonger(s[|pat|..], pat, rep);
    } else {
      ReplaceAllNotLonger(s[1..], pat, rep);
    }
  }

  /** A string in which the pattern's first character never appears comes back unchanged. */
  lemma {:induction false} ReplaceAllWithoutLead(s: string, pat: string, rep: string)
    requires pat != [] && pat[0] !in s
    ensures ReplaceAll(s, pat, rep) == s
    decreases |s|
  {
    if |s| >= |pat| {
      assert s[0] in s;
      ReplaceAllWithoutLead(s[1..], pat, rep);
    }
  }

  /** Unfolding of `ReplaceAll` at a leading occurrence: it is replaced, and the scan resumes right after it. */
  lemma {:induction false} ReplaceAllAtMatch(pat: string, rep: string, y: string)
    requires pat != []
    ensures ReplaceAll(pat + y, pat, rep) == rep + ReplaceAll(y, pat, rep)
  {
    assert (pat + y)[..|pat|] == pat;
    assert (pat + y)[|pat|..] == y;
  }

  /** A prefix free of the pattern's first character is copied unchanged. */
  lemma {:induction false} ReplaceAllSkipsFree(t: string, y: string, pat: string, rep: string)
    requires pat != [] && pat[0] !in t
    ensures ReplaceAll(t + y, pat, rep) == t + ReplaceAll(y, pat, rep)
    decreases |t|
  {
    if t != [] {
      var s := t + y;
      assert s[0] == t[0] && s[1..] == t[1..] + y;
      if |s| < |pat| {
        assert ReplaceAll(y, pat, rep) == y;
      } else {
        assert s[..|pat|][0] == t[0];
        assert t[0] in t;
        assert s[..|pat|] != pat;
        ReplaceAllSkipsFree(t[1..], y, pat, rep);
        assert [t[0]] + t[1..] == t;
      }
    } else {
      assert t + y == y;
    }
  }

  /** Unfolding of `ReplaceAll` when no match starts at the front: the first character is copied and the scan moves on. */
  lemma {:induction false} ReplaceAllNoMatchAtFront(s: string, pat: string, rep: string)
    requires pat != [] && s != [] && !StartsWith(s, pat)
    ensures ReplaceAll(s, pat, rep) == [s[0]] + ReplaceAll(s[1..], pat, rep)
  {
    if |s| < |pat| {
      assert ReplaceAll(s[1..], pat, rep) == s[1..];
      assert [s[0]] + s[1..] == s;
    }
  }

  /**
   * A leading token that the text does not start a match with, and that holds
   * the pattern's first character at most in its first position, is copied unchanged.
   */
  lemma {:induction false} ReplaceAllSkipsToken(t: string, y: string, pat: string, rep: string)
    requires pat != [] && t != [] && pat[0] !in t[1..]
    requires !StartsWith(t + y, pat)
    ensures ReplaceAll(t + y, pat, rep) == t + ReplaceAll(y, pat, rep)
  {
    var s := t + y;
    var u := t[1..];
    assert s[0] == t[0] && s[1..] == u + y;
    calc {
      ReplaceAll(s, pat, rep);
      { ReplaceAllNoMatchAtFront(s, pat, rep); }
      [t[0]] + ReplaceAll(u + y, pat, rep);
      { ReplaceAllSkipsFree(u, y, pat, rep); }
      [t[0]] + (u + ReplaceAll(y, pat, rep));
      { assert [t[0]] + u == t; }
      t + ReplaceAll(y, pat, rep);
    }
  }
}
