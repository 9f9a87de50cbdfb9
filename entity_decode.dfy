/**
 * The summary decoder of the feed reader: five chained literal replacements,
 * `&lt;`, `&gt;`, `&amp;`, `&quot;`, `&apos;`, applied in that order to the
 * whole string one after the other.
 */
module EntityDecode {
  import opened JavaString

  /** The five entity references, in the order the decoder replaces them. */
  const Entities: seq<string> := ["&lt;", "&gt;", "&amp;", "&quot;", "&apos;"]

  /** The character each entity of `Entities` stands for, at the same index. */
  const Restored: seq<char> := ['<', '>', '&', '"', '\'']

  /**
   * The decoder. Each pass is a full left-to-right replacement over the output
   * of the previous pass, so text produced by the `&amp;` pass is seen again by
   * the `&quot;` and `&apos;` passes, but never by the `&lt;` and `&gt;` ones.
   * A string without '&' is left alone, and no pass makes the text longer.
   */
  function Decode(s: string): (r: string)
    ensures |r| <= |s|
    ensures '&' !in s ==> r == s
  {
    var a := ReplaceAll(s, "&lt;", "<");
    var b := ReplaceAll(a, "&gt;", ">");
    var c := ReplaceAll(b, "&amp;", "&");
    var d := ReplaceAll(c, "&quot;", "\"");
    var e := ReplaceAll(d, "&apos;", "'");
    assert |e| <= |s| by {
      ReplaceAllNotLonger(s, "&lt;", "<");
      ReplaceAllNotLonger(a, "&gt;", ">");
      ReplaceAllNotLonger(b, "&amp;", "&");
      ReplaceAllNotLonger(c, "&quot;", "\"");
      ReplaceAllNotLonger(d, "&apos;", "'");
    }
    assert '&' !in s ==> e == s by {
      if '&' !in s {
        ReplaceAllWithoutLead(s, "&lt;", "<");
        ReplaceAllWithoutLead(a, "&gt;", ">");
        ReplaceAllWithoutLead(b, "&amp;", "&");
        ReplaceAllWithoutLead(c, "&quot;", "\"");
        ReplaceAllWithoutLead(d, "&apos;", "'");
      }
    }
    e
  }

  /** The five passes of `Decode`, as one function of the pass number. */
  function Pass(k: nat, s: string): string
    requires k < 5
  {
    ReplaceAll(s, Entities[k], [Restored[k]])
  }

  /** The index of the pass that restores `c`, or 5 for a character no pass produces. */
  function PassOf(c: char): (k: nat)
    ensures k <= 5
    ensures k < 5 <==> c in Restored
    ensures k < 5 ==> Restored[k] == c
  {
    if c == '<' then 0
    else if c == '>' then 1
    else if c == '&' then 2
    else if c == '"' then 3
    else if c == '\'' then 4
    else 5
  }

  /** XML escaping of one character: the five special characters become their entity. */
  function EscapeChar(c: char): (r: string)
    ensures PassOf(c) < 5 ==> r == Entities[PassOf(c)]
    ensures PassOf(c) == 5 ==> r == [c]
  {
    if c == '<' then "&lt;"
    else if c == '>' then "&gt;"
    else if c == '&' then "&amp;"
    else if c == '"' then "&quot;"
    else if c == '\'' then "&apos;"
    else [c]
  }

  /** XML escaping of a string, character by character: the encoding `Decode` is meant to undo. */
  function Escape(s: string): string
    decreases |s|
  {
    if s == [] then [] else EscapeChar(s[0]) + Escape(s[1..])
  }

  /**
   * `s` escaped, except that the characters the first `k` passes restore are
   * written plainly: what `Decode` holds after `k` passes over `Escape(s)`.
   */
  function Staged(s: string, k: nat): string
    decreases |s|
  {
    if s == [] then []
    else (if PassOf(s[0]) < k then [s[0]] else EscapeChar(s[0])) + Staged(s[1..], k)
  }

  lemma {:induction false} EscapeIsStaged(s: string)
    ensures Escape(s) == Staged(s, 0)
    decreases |s|
  {
    if s != [] {
      EscapeIsStaged(s[1..]);
    }
  }

  lemma {:induction false} StagedFullyIsPlain(s: string)
    ensures Staged(s, 5) == s
    decreases |s|
  {
    if s != [] {
      StagedFullyIsPlain(s[1..]);
      assert [s[0]] + s[1..] == s;
    }
  }

  /** A character of an entity that comes after its '&' is an ordinary one. */
  lemma {:induction false} EntityTail(k: nat, j: nat)
    requires k < 5 && 0 < j < |Entities[k]|
    ensures PassOf(Entities[k][j]) == 5
  {
  }

  /** An entity never begins a text that begins with a different entity. */
  lemma {:induction false} EntityTokenNoMatch(i: nat, k: nat, y: string)
    requires i < 5 && k < 5 && i != k
    ensures !StartsWith(Entities[i] + y, Entities[k])
  {
    var t, e := Entities[i], Entities[k];
    assert |t| >= 3 && |e| >= 3;
    assert t[1] != e[1] || t[2] != e[2];
    assert (t + y)[1] == t[1] && (t + y)[2] == t[2];
  }

  /**
   * Staged text starts with a word of ordinary characters only if the plain
   * text does: escaping never manufactures such a word at the front.
   */
  lemma {:induction false} StagedPrefix(s: string, k: nat, w: string)
    requires forall j :: 0 <= j < |w| ==> PassOf(w[j]) == 5
    requires StartsWith(Staged(s, k), w)
    ensures StartsWith(s, w)
    decreases |w|
  {
    if w != [] {
      assert s != [];
      var t := if PassOf(s[0]) < k then [s[0]] else EscapeChar(s[0]);
      var y := Staged(s[1..], k);
      assert Staged(s, k) == t + y;
      assert t[0] == w[0] by {
        assert (t + y)[0] == w[0];
      }
      assert t == [s[0]];
      assert StartsWith(y, w[1..]) by {
        assert (t + y)[..|w|] == w;
        assert y[..|w| - 1] == (t + y)[1..|w|];
      }
      StagedPrefix(s[1..], k, w[1..]);
      assert s[..|w|] == [s[0]] + s[1..][..|w| - 1];
    }
  }

  /**
   * After the `&amp;` pass a plain '&' stands in the text; it starts a match
   * of a later pass only if the plain text already held that entity there.
   */
  lemma {:induction false} AmpersandNoMatch(rest: string, k: nat)
    requires k == 3 || k == 4
    requires !StartsWith(['&'] + rest, Entities[k])
    ensures !StartsWith(['&'] + Staged(rest, k), Entities[k])
  {
    var e := Entities[k];
    var w := e[1..];
    if StartsWith(['&'] + Staged(rest, k), e) {
      forall j | 0 <= j < |w| ensures PassOf(w[j]) == 5 {
        EntityTail(k, j + 1);
      }
      assert StartsWith(Staged(rest, k), w) by {
        assert Staged(rest, k)[..|w|] == (['&'] + Staged(rest, k))[1..|e|];
      }
      StagedPrefix(rest, k, w);
    }
  }

  /** One character of stage `k` that pass `k` leaves alone is copied through it. */
  lemma {:induction false} TokenSkipped(c: char, rest: string, k: nat)
    requires k < 5 && PassOf(c) != k
    requires k >= 3 ==> !StartsWith([c] + rest, Entities[k])
    ensures var t := if PassOf(c) < k then [c] else EscapeChar(c);
      Pass(k, t + Staged(rest, k)) == t + Pass(k, Staged(rest, k))
  {
    var t := if PassOf(c) < k then [c] else EscapeChar(c);
    var y := Staged(rest, k);
    var e := Entities[k];
    assert e[0] == '&';
    if PassOf(c) < 5 && PassOf(c) > k {
      EntityTokenNoMatch(PassOf(c), k, y);
      forall j | 0 < j < |t| ensures t[j] != '&' {
        EntityTail(PassOf(c), j);
      }
    } else if c == '&' {
      AmpersandNoMatch(rest, k);
    } else {
      assert (t + y)[0] == c;
    }
    ReplaceAllSkipsToken(t, y, e, [Restored[k]]);
  }

  /**
   * Pass `k` of `Decode` turns stage `k` into stage `k + 1`, provided that for
   * the `&quot;` and `&apos;` passes the plain text does not itself contain that
   * entity (which escaping would have turned into `&amp;quot;` or `&amp;apos;`).
   */
  lemma {:induction false} PassAdvancesStage(s: string, k: nat)
    requires k < 5
    requires k >= 3 ==> !Occurs(s, Entities[k])
    ensures Pass(k, Staged(s, k)) == Staged(s, k + 1)
    decreases |s|
  {
    if s != [] {
      var c := s[0];
      var t := if PassOf(c) < k then [c] else EscapeChar(c);
      var y := Staged(s[1..], k);
      assert Staged(s, k) == t + y;
      PassAdvancesStage(s[1..], k);
      if PassOf(c) == k {
        ReplaceAllAtMatch(Entities[k], [Restored[k]], y);
      } else {
        assert s == [c] + s[1..];
        TokenSkipped(c, s[1..], k);
      }
    }
  }

  /**
   * Decoding undoes XML escaping, for every text that does not itself contain
   * `&quot;` or `&apos;`.
   */
  lemma {:induction false} DecodeUndoesEscape(s: string)
    requires !Occurs(s, "&quot;") && !Occurs(s, "&apos;")
    ensures Decode(Escape(s)) == s
  {
    EscapeIsStaged(s);
    PassAdvancesStage(s, 0);
    PassAdvancesStage(s, 1);
    PassAdvancesStage(s, 2);
    PassAdvancesStage(s, 3);
    PassAdvancesStage(s, 4);
    StagedFullyIsPlain(s);
  }

  /** `Decode` is the five passes, in order. */
  lemma {:induction false} DecodeAsPasses(s: string)
    ensures Decode(s) == Pass(4, Pass(3, Pass(2, Pass(1, Pass(0, s)))))
  {
  }

  /** Escaping distributes over concatenation. */
  lemma {:induction false} EscapeConcat(a: string, b: string)
    ensures Escape(a + b) == Escape(a) + Escape(b)
    decreases |a|
  {
    if a == [] {
      assert a + b == b;
    } else {
      assert (a + b)[1..] == a[1..] + b;
      EscapeConcat(a[1..], b);
    }
  }

  /** Text without any of the five special characters is its own escape. */
  lemma {:induction false} EscapeOrdinary(w: string)
    requires forall j :: 0 <= j < |w| ==> PassOf(w[j]) == 5
    ensures Escape(w) == w
    decreases |w|
  {
    if w != [] {
      EscapeOrdinary(w[1..]);
      assert [w[0]] + w[1..] == w;
    }
  }

  lemma {:induction false} EscapeOfMarkedUpText(a: string, c: string, e: string)
    requires Escape(a) == a && Escape(c) == c && Escape(e) == e
    ensures Escape(a + ("&" + (c + ("<" + (e + ">"))))) == a + ("&amp;" + (c + ("&lt;" + (e + "&gt;"))))
  {
    assert Escape("&") == "&amp;" && Escape("<") == "&lt;" && Escape(">") == "&gt;";
    var x1 := e + ">";
    EscapeConcat(e, ">");
    var x2 := "<" + x1;
    EscapeConcat("<", x1);
    var x3 := c + x2;
    EscapeConcat(c, x2);
    var x4 := "&" + x3;
    EscapeConcat("&", x3);
    EscapeConcat(a, x4);
  }

  lemma {:induction false} RiskTextSplits()
    ensures "Risk " + ("&" + (" Reward " + ("<" + ("test" + ">")))) == "Risk & Reward <test>"
    ensures "Risk " + ("&amp;" + (" Reward " + ("&lt;" + ("test" + "&gt;")))) == "Risk &amp; Reward &lt;test&gt;"
  {
  }

  // The three plain words of the example text, one lemma each to keep every proof small.
  lemma {:induction false} EscapeOfRiskWord()
    ensures Escape("Risk ") == "Risk "
  {
    var w := "Risk ";
    forall j | 0 <= j < |w| ensures PassOf(w[j]) == 5 {
    }
    EscapeOrdinary(w);
  }

  lemma {:induction false} EscapeOfRewardWord()
    ensures Escape(" Reward ") == " Reward "
  {
    var w := " Reward ";
    forall j | 0 <= j < |w| ensures PassOf(w[j]) == 5 {
    }
    EscapeOrdinary(w);
  }

  lemma {:induction false} EscapeOfTestWord()
    ensures Escape("test") == "test"
  {
    var w := "test";
    forall j | 0 <= j < |w| ensures PassOf(w[j]) == 5 {
    }
    EscapeOrdinary(w);
  }

  lemma {:induction false} EscapeOfRiskText()
    ensures Escape("Risk & Reward <test>") == "Risk &amp; Reward &lt;test&gt;"
  {
    EscapeOfRiskWord();
    EscapeOfRewardWord();
    EscapeOfTestWord();
    EscapeOfMarkedUpText("Risk ", " Reward ", "test");
    RiskTextSplits();
  }

  lemma {:induction false} RiskTextHasNoQuotOrApos()
    ensures !Occurs("Risk & Reward <test>", "&quot;") && !Occurs("Risk & Reward <test>", "&apos;")
  {
    var s := "Risk & Reward <test>";
    assert "&quot;"[1] == 'q' && "&apos;"[2] == 'p';
    assert 'q' !in s && 'p' !in s;
    if Occurs(s, "&quot;") {
      OccursUsesChars(s, "&quot;", 1);
    }
    if Occurs(s, "&apos;") {
      OccursUsesChars(s, "&apos;", 2);
    }
  }

  /** The summary "Risk &amp; Reward &lt;test&gt;" decodes to "Risk & Reward <test>". */
  lemma {:induction false} DecodeRiskText()
    ensures Decode("Risk &amp; Reward &lt;test&gt;") == "Risk & Reward <test>"
  {
    EscapeOfRiskText();
    RiskTextHasNoQuotOrApos();
    DecodeUndoesEscape("Risk & Reward <test>");
  }

  lemma {:induction false} EscapeOfLtEntity()
    ensures Escape("&lt;") == "&amp;lt;"
    ensures !Occurs("&lt;", "&quot;") && !Occurs("&lt;", "&apos;")
  {
  }

  /**
   * "&amp;lt;" decodes to "&lt;", not to "<": the `&lt;` pass has already run
   * when the `&amp;` pass produces the new "&lt;".
   */
  lemma {:induction false} DecodeEscapedLt()
    ensures Decode("&amp;lt;") == "&lt;"
  {
    EscapeOfLtEntity();
    DecodeUndoesEscape("&lt;");
  }

  /** Text without any of the five special characters is left as it is at every stage. */
  lemma {:induction false} StagedOrdinary(w: string, k: nat)
    requires forall j :: 0 <= j < |w| ==> PassOf(w[j]) == 5
    ensures Staged(w, k) == w
    decreases |w|
  {
    if w != [] {
      StagedOrdinary(w[1..], k);
      assert [w[0]] + w[1..] == w;
    }
  }

  /** An '&' followed by ordinary text escapes to "&amp;" and that text, and stands unchanged at stage 3. */
  lemma {:induction false} AmpersandWord(w: string)
    requires forall j :: 0 <= j < |w| ==> PassOf(w[j]) == 5
    ensures Escape(['&'] + w) == "&amp;" + w
    ensures Staged(['&'] + w, 3) == ['&'] + w
  {
    EscapeOrdinary(w);
    StagedOrdinary(w, 3);
    assert (['&'] + w)[1..] == w;
  }

  lemma {:induction false} EscapeOfQuotEntity()
    ensures Escape("&quot;") == "&amp;quot;"
    ensures Staged("&quot;", 3) == "&quot;"
  {
    assert "&quot;" == ['&'] + "quot;" && "&amp;quot;" == "&amp;" + "quot;";
    forall j | 0 <= j < |"quot;"| ensures PassOf("quot;"[j]) == 5 {
    }
    AmpersandWord("quot;");
  }

  /** The passes before the `&quot;` pass take any escaped text to stage 3. */
  lemma {:induction false} FirstThreePassesOverEscape(s: string)
    ensures Pass(2, Pass(1, Pass(0, Escape(s)))) == Staged(s, 3)
  {
    EscapeIsStaged(s);
    PassAdvancesStage(s, 0);
    PassAdvancesStage(s, 1);
    PassAdvancesStage(s, 2);
  }

  /**
   * "&amp;quot;" decodes to '"' and not to "&quot;": the `&quot;` pass runs
   * after the `&amp;` pass and decodes what that pass produced. So the escape
   * of the text "&quot;" does not decode back to it, and the requirement of
   * `DecodeUndoesEscape` cannot be dropped.
   */
  lemma {:induction false} DecodeEscapedQuotTwice()
    ensures Escape("&quot;") == "&amp;quot;"
    ensures Decode("&amp;quot;") == "\""
  {
    EscapeOfQuotEntity();
    FirstThreePassesOverEscape("&quot;");
    ReplaceAllAtMatch("&quot;", "\"", "");
    assert "&quot;" + "" == "&quot;";
    ReplaceAllWithoutLead("\"", "&apos;", "'");
    DecodeAsPasses("&amp;quot;");
  }
}
