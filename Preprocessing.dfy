/** preprocess: the literal rewrites applied to the raw expression before tokenizing. */
module Preprocessing {

  /** Kotlin's String.replace(old, new): scanning left to right, every occurrence of `pat`
      that does not overlap an earlier replaced one is replaced by `rep`. */
  function ReplaceAll(s: string, pat: string, rep: string): string
    requires |pat| > 0
    decreases |s|
  {
    if |s| < |pat| then s
    else if s[..|pat|] == pat then rep + ReplaceAll(s[|pat|..], pat, rep)
    else [s[0]] + ReplaceAll(s[1..], pat, rep)
  }

  const Times := "\U{00D7}"   // the multiplication sign the keypad inserts
  const Divide := "\U{00F7}"  // the division sign the keypad inserts
  const Pi := "\U{03C0}"      // the circle-constant glyph
  /** Math.PI.toString(): the shortest decimal that reads back as the double nearest to pi. */
  const PiDecimal := "3.141592653589793"

  /** The eight replacements, in the order the source chains them. */
  function Preprocess(expression: string): string
  {
    RewriteMarkers(RewriteGlyphs(expression))
  }

  /** The first three: keypad glyphs to ASCII operators and the decimal of pi. */
  function RewriteGlyphs(s: string): string
  {
    ReplaceAll(ReplaceAll(ReplaceAll(s, Times, "*"), Divide, "/"), Pi, PiDecimal)
  }

  /** The last five: inverse-function markers, then the deleted key labels. */
  function RewriteMarkers(s: string): string
  {
    var s4 := ReplaceAll(s, "inv(sin(", "asin(");
    var s5 := ReplaceAll(s4, "inv(cos(", "acos(");
    var s6 := ReplaceAll(s5, "inv(tan(", "atan(");
    ReplaceAll(ReplaceAll(s6, "DEL", ""), "AC", "")
  }

  /** A one-character pattern leaves no occurrence behind, unless the replacement brings one. */
  lemma {:induction false} ReplaceRemovesChar(s: string, c: char, rep: string)
    requires c !in rep
    ensures c !in ReplaceAll(s, [c], rep)
  {
    if |s| >= 1 {
      ReplaceRemovesChar(s[1..], c, rep);
      if s[..1] != [c] {
        assert s[0] != c;
      }
    }
  }

  /** A character in neither the text nor the replacement does not appear in the result. */
  lemma {:induction false} ReplaceKeepsAbsent(s: string, pat: string, rep: string, c: char)
    requires |pat| > 0
    requires c !in s && c !in rep
    ensures c !in ReplaceAll(s, pat, rep)
  {
    if |s| >= |pat| {
      if s[..|pat|] == pat {
        assert forall k :: 0 <= k < |s[|pat|..]| ==> s[|pat|..][k] == s[k + |pat|];
        ReplaceKeepsAbsent(s[|pat|..], pat, rep, c);
      } else {
        assert forall k :: 0 <= k < |s[1..]| ==> s[1..][k] == s[k + 1];
        ReplaceKeepsAbsent(s[1..], pat, rep, c);
      }
    }
  }

  /** A text that lacks one of the pattern's characters is left unchanged. */
  lemma {:induction false} ReplaceIdentity(s: string, pat: string, rep: string, j: nat)
    requires j < |pat|
    requires pat[j] !in s
    ensures ReplaceAll(s, pat, rep) == s
  {
    if |s| >= |pat| {
      assert s[..|pat|] != pat by { assert s[..|pat|][j] == s[j]; }
      ReplaceIdentity(s[1..], pat, rep, j);
      assert [s[0]] + s[1..] == s;
    }
  }

  /** After preprocessing no multiplication sign, division sign or pi glyph is left. */
  lemma PreprocessRemovesGlyphs(expression: string)
    ensures Times[0] !in Preprocess(expression)
    ensures Divide[0] !in Preprocess(expression)
    ensures Pi[0] !in Preprocess(expression)
  {
    var t, d, p := Times[0], Divide[0], Pi[0];
    var s1 := ReplaceAll(expression, Times, "*");
    ReplaceRemovesChar(expression, t, "*");
    var s2 := ReplaceAll(s1, Divide, "/");
    ReplaceRemovesChar(s1, d, "/");
    ReplaceKeepsAbsent(s1, Divide, "/", t);
    ReplaceRemovesChar(s2, p, PiDecimal);
    ReplaceKeepsAbsent(s2, Pi, PiDecimal, t);
    ReplaceKeepsAbsent(s2, Pi, PiDecimal, d);
    forall c | c in {t, d, p}
      ensures c !in Preprocess(expression)
    {
      MarkersKeepAbsent(RewriteGlyphs(expression), c);
    }
  }

  /** The marker rewrites bring in only ASCII letters and "(". */
  lemma MarkersKeepAbsent(s: string, c: char)
    requires c !in s && c !in "asincotan("
    ensures c !in RewriteMarkers(s)
  {
    var s4 := ReplaceAll(s, "inv(sin(", "asin(");
    var s5 := ReplaceAll(s4, "inv(cos(", "acos(");
    var s6 := ReplaceAll(s5, "inv(tan(", "atan(");
    ReplaceKeepsAbsent(s, "inv(sin(", "asin(", c);
    ReplaceKeepsAbsent(s4, "inv(cos(", "acos(", c);
    ReplaceKeepsAbsent(s5, "inv(tan(", "atan(", c);
    ReplaceKeepsAbsent(s6, "DEL", "", c);
    ReplaceKeepsAbsent(ReplaceAll(s6, "DEL", ""), "AC", "", c);
  }

  /** Text without the three glyphs passes the first three replacements unchanged. */
  lemma GlyphsIdentity(s: string)
    requires Times[0] !in s && Divide[0] !in s && Pi[0] !in s
    ensures RewriteGlyphs(s) == s
  {
    ReplaceIdentity(s, Times, "*", 0);
    ReplaceIdentity(s, Divide, "/", 0);
    ReplaceIdentity(s, Pi, PiDecimal, 0);
  }

  /** Text that holds none of the first characters of the eight patterns passes through. */
  lemma PreprocessIdentity(expression: string)
    requires forall c :: c in expression ==> c !in [Times[0], Divide[0], Pi[0], 'i', 'D', 'A']
    ensures Preprocess(expression) == expression
  {
    GlyphsIdentity(expression);
    ReplaceIdentity(expression, "inv(sin(", "asin(", 0);
    ReplaceIdentity(expression, "inv(cos(", "acos(", 0);
    ReplaceIdentity(expression, "inv(tan(", "atan(", 0);
    ReplaceIdentity(expression, "DEL", "", 0);
    ReplaceIdentity(expression, "AC", "", 0);
  }

  /** A text whose first position does not start the pattern, and whose remainder lacks one
      of the pattern's characters, is left unchanged. */
  lemma ReplaceSkipFirst(s: string, pat: string, rep: string, j: nat)
    requires j < |pat| && |s| > 0
    requires |s| >= |pat| ==> s[..|pat|] != pat
    requires pat[j] !in s[1..]
    ensures ReplaceAll(s, pat, rep) == s
  {
    ReplaceIdentity(s[1..], pat, rep, j);
    assert [s[0]] + s[1..] == s;
  }

  /** The characters of a plain arithmetic argument: digits, the point, operators, parentheses. */
  predicate IsPlainText(a: string)
  {
    forall c :: c in a ==> '0' <= c <= '9' || c in ".+-*/^()!%"
  }

  /** "inv(" typed before a trigonometric function's "f(" becomes the inverse function "af(";
      the text after the marker is untouched, including the ")" that closed the "inv(". */
  lemma InverseRewrite(f: string, a: string)
    requires f == "sin" || f == "cos" || f == "tan"
    requires IsPlainText(a)
    ensures Preprocess("inv(" + f + "(" + a) == "a" + f + "(" + a
  {
    var m := "inv(" + f + "(";
    var r := "a" + f + "(";
    if f == "sin" {
      assert m == "inv(sin(" && r == "asin(";
      PlainGlyphsIdentity("inv(sin(", a);
      InverseSin(a);
    } else if f == "cos" {
      assert m == "inv(cos(" && r == "acos(";
      PlainGlyphsIdentity("inv(cos(", a);
      InverseCos(a);
    } else {
      assert m == "inv(tan(" && r == "atan(";
      PlainGlyphsIdentity("inv(tan(", a);
      InverseTan(a);
    }
  }

  /** A glyph-free prefix followed by a plain argument passes the glyph rewrites unchanged. */
  lemma PlainGlyphsIdentity(m: string, a: string)
    requires IsPlainText(a)
    requires Times[0] !in m && Divide[0] !in m && Pi[0] !in m
    ensures RewriteGlyphs(m + a) == m + a
  {
    AbsentFromConcat(m, a, Times[0]);
    AbsentFromConcat(m, a, Divide[0]);
    AbsentFromConcat(m, a, Pi[0]);
    GlyphsIdentity(m + a);
  }

  /** The deleted key labels and the remaining markers do not occur after a rewrite. */
  lemma MarkerTail(r: string, a: string)
    requires 'D' !in r && 'A' !in r
    requires IsPlainText(a)
    ensures ReplaceAll(ReplaceAll(r + a, "DEL", ""), "AC", "") == r + a
  {
    ReplaceIdentity(r + a, "DEL", "", 0);
    ReplaceIdentity(r + a, "AC", "", 0);
  }

  /** An occurrence at the very start is replaced and the scan resumes after it. */
  lemma ReplaceAtStart(pat: string, rep: string, a: string)
    requires |pat| > 0
    ensures ReplaceAll(pat + a, pat, rep) == rep + ReplaceAll(a, pat, rep)
  {
    assert (pat + a)[..|pat|] == pat && (pat + a)[|pat|..] == a;
  }

  /** A plain argument holds no letter. */
  lemma PlainHasNoLetter(a: string, c: char)
    requires IsPlainText(a) && 'a' <= c <= 'z'
    ensures c !in a
  {
  }

  /** A character missing from both parts is missing from their concatenation. */
  lemma AbsentFromConcat(x: string, y: string, c: char)
    requires c !in x && c !in y
    ensures c !in x + y
  {
  }

  lemma InverseSin(a: string)
    requires IsPlainText(a)
    ensures RewriteMarkers("inv(sin(" + a) == "asin(" + a
  {
    PlainHasNoLetter(a, 'i');
    PlainHasNoLetter(a, 'v');
    ReplaceAtStart("inv(sin(", "asin(", a);
    ReplaceIdentity(a, "inv(sin(", "asin(", 0);
    var r := "asin(" + a;
    AbsentFromConcat("asin(", a, 'v');
    ReplaceIdentity(r, "inv(cos(", "acos(", 2);
    ReplaceIdentity(r, "inv(tan(", "atan(", 2);
    MarkerTail("asin(", a);
  }

  lemma InverseCos(a: string)
    requires IsPlainText(a)
    ensures RewriteMarkers("inv(cos(" + a) == "acos(" + a
  {
    PlainHasNoLetter(a, 'i');
    PlainHasNoLetter(a, 'v');
    var s := "inv(cos(" + a;
    assert s[..8] != "inv(sin(" by { assert s[..8][4] == 'c'; }
    assert s[1..] == "nv(cos(" + a;
    AbsentFromConcat("nv(cos(", a, 'i');
    ReplaceSkipFirst(s, "inv(sin(", "asin(", 0);
    ReplaceAtStart("inv(cos(", "acos(", a);
    ReplaceIdentity(a, "inv(cos(", "acos(", 0);
    var r := "acos(" + a;
    AbsentFromConcat("acos(", a, 'v');
    ReplaceIdentity(r, "inv(tan(", "atan(", 2);
    MarkerTail("acos(", a);
  }

  lemma InverseTan(a: string)
    requires IsPlainText(a)
    ensures RewriteMarkers("inv(tan(" + a) == "atan(" + a
  {
    PlainHasNoLetter(a, 'i');
    var s := "inv(tan(" + a;
    assert s[..8] != "inv(sin(" && s[..8] != "inv(cos(" by { assert s[..8][4] == 't'; }
    assert s[1..] == "nv(tan(" + a;
    AbsentFromConcat("nv(tan(", a, 'i');
    ReplaceSkipFirst(s, "inv(sin(", "asin(", 0);
    ReplaceSkipFirst(s, "inv(cos(", "acos(", 0);
    ReplaceAtStart("inv(tan(", "atan(", a);
    ReplaceIdentity(a, "inv(tan(", "atan(", 0);
    MarkerTail("atan(", a);
  }

  /** "DEL" is deleted in one left-to-right pass: the occurrence inside "DDELEL" goes, and the
      "D" before it and the "EL" after it close up to a new "DEL" that stays. */
  lemma DeleteOnce()
    ensures ReplaceAll("DDELEL", "DEL", "") == "DEL"
  {
    var s, t, u := "DDELEL", "DELEL", "EL";
    assert ReplaceAll(u, "DEL", "") == u;
    assert ReplaceAll(t, "DEL", "") == ReplaceAll(u, "DEL", "") by {
      assert t[..3] == "DEL" && t[3..] == u;
    }
    assert ReplaceAll(s, "DEL", "") == [s[0]] + ReplaceAll(t, "DEL", "") by {
      assert s[..3][1] != "DEL"[1];
      assert s[1..] == t;
    }
  }

  /** Without an "i", the inverse-function rewrites do nothing. */
  lemma MarkersWithoutInverse(s: string)
    requires 'i' !in s
    ensures RewriteMarkers(s) == ReplaceAll(ReplaceAll(s, "DEL", ""), "AC", "")
  {
    ReplaceIdentity(s, "inv(sin(", "asin(", 0);
    ReplaceIdentity(s, "inv(cos(", "acos(", 0);
    ReplaceIdentity(s, "inv(tan(", "atan(", 0);
  }

  /** Deletions are done in one pass each, so a deletion can join a new occurrence. */
  lemma DeletionJoinsPattern(s: string)
    requires s == "DDELEL"
    ensures Preprocess(s) == "DEL"
  {
    GlyphsIdentity(s);
    MarkersWithoutInverse(s);
    DeleteOnce();
    ReplaceIdentity("DEL", "AC", "", 0);
  }
}
