/**
 * Worked examples: the two code formats named in the comment of
 * `extract_code_from_qr` (app.py line 120) and in the help text, and edge
 * cases around them, worked through the general lemmas of CodeProperties.
 */
module CodeExamples {
  import opened Wrappers
  import opened Text
  import opened CodePattern
  import opened CodeProperties

  /** Positions `[a, b)` where the matcher fails hold no match at all. */
  lemma NoMatchWhereMatcherFails(s: string, a: nat, b: nat)
    requires forall j: nat :: a <= j < b ==> MatchAt(s, j) == None
    ensures NoMatchIn(s, a, b)
  {
    forall j: nat, t | a <= j < b && MatchesAt(s, j, t) ensures MatchAt(s, j) == Some(t) {
      MatchAtComplete(s, j, t);
    }
  }

  /** The compact spelling is rebuilt with hyphens. */
  lemma CompactNormalised()
    ensures ExtractCode(Some("GA1234567")) == Some("GA-123-4567")
  {
    var t := Token("GA", false, "123", false, "4567");
    assert Spell(t) == "GA1234567";
    assert Canonical(UpperToken(t)) == "GA-123-4567" by { UpperFixed("GA"); }
    ExtractSpelledAgreeing(t);
  }

  /** The hyphenated spelling is kept. */
  lemma HyphenatedNormalised()
    ensures ExtractCode(Some("GA-123-4567")) == Some("GA-123-4567")
  {
    var t := Token("GA", true, "123", true, "4567");
    assert Spell(t) == "GA-123-4567";
    assert Canonical(UpperToken(t)) == "GA-123-4567" by { UpperFixed("GA"); }
    ExtractSpelledAgreeing(t);
  }

  /** Lower-case letters are capitalised. */
  lemma LowerCaseNormalised()
    ensures ExtractCode(Some("ga-123-4567")) == Some("GA-123-4567")
  {
    var t := Token("ga", true, "123", true, "4567");
    assert Spell(t) == "ga-123-4567";
    assert Canonical(UpperToken(t)) == "GA-123-4567" by {
      assert Upper("ga") == "GA";
    }
    ExtractSpelledAgreeing(t);
  }

  /** A hyphen after the letters only is rejected by the search, accepted by the strict check. */
  lemma FirstHyphenOnly()
    ensures ExtractCode(Some("GA-1234567")) == None
    ensures IsStrictCode("GA-1234567")
  {
    var t := Token("GA", true, "123", false, "4567");
    assert Spell(t) == "GA-1234567";
    StrictAcceptsMixedSeparators(t);
  }

  /** A hyphen before the last group only is rejected by the search, accepted by the strict check. */
  lemma SecondHyphenOnly()
    ensures ExtractCode(Some("GA123-4567")) == None
    ensures IsStrictCode("GA123-4567")
  {
    var t := Token("GA", false, "123", true, "4567");
    assert Spell(t) == "GA123-4567";
    StrictAcceptsMixedSeparators(t);
  }

  /** Every match has a digit two or three places after its start. */
  lemma MatchHasEarlyDigit(s: string)
    ensures forall j: nat, t :: MatchesAt(s, j, t) ==> IsDigit(s[j + HeadAt(t)])
  {
    forall j: nat, t | MatchesAt(s, j, t) ensures IsDigit(s[j + HeadAt(t)]) {
      SpellLayout(t);
      SubSlice(s, j, j + |Spell(t)|, HeadAt(t), HeadAt(t) + 3);
      assert s[j + HeadAt(t)] == t.head[0];
    }
  }

  /** A text whose first `m` characters hold no digit has no match starting
      before `m - 3`. */
  lemma NoDigitNoMatch(s: string, m: nat)
    requires 3 <= m <= |s| && forall k :: 0 <= k < m ==> !IsDigit(s[k])
    ensures NoMatchIn(s, 0, m - 3)
  {
    MatchHasEarlyDigit(s);
  }

  /** A search token with a non-word character (or nothing) on each side is
      matched where it stands. */
  lemma CodeBetween(pre: string, t: Token, post: string)
    requires SearchShaped(t)
    requires pre != [] ==> !IsWordChar(pre[|pre| - 1])
    requires post != [] ==> !IsWordChar(post[0])
    ensures MatchesAt(pre + Spell(t) + post, |pre|, t)
  {
    var w := Spell(t);
    SpellLayout(t);
    assert IsWordChar(w[0]) && IsWordChar(w[|w| - 1]);
    Between(pre, w, post);
  }

  /** A word `w` standing between two non-word characters (or the ends of the
      text) has a word boundary on each side. */
  lemma Between(pre: string, w: string, post: string)
    requires w != [] && IsWordChar(w[0]) && IsWordChar(w[|w| - 1])
    requires pre != [] ==> !IsWordChar(pre[|pre| - 1])
    requires post != [] ==> !IsWordChar(post[0])
    ensures var s := pre + w + post;
            && |pre| + |w| <= |s| && s[|pre|..|pre| + |w|] == w
            && AtBoundary(s, |pre|) && AtBoundary(s, |pre| + |w|)
  {
    var s := pre + w + post;
    var n := |w|;
    assert s[|pre|..|pre| + n] == w;
    assert s[|pre|] == w[0];
    assert pre != [] ==> s[|pre| - 1] == pre[|pre| - 1];
    assert s[|pre| + n - 1] == w[n - 1];
    assert post != [] ==> s[|pre| + n] == post[0];
  }

  lemma NoisyTrimmed()
    ensures Trim("random noise AK-325-9995 more noise") == "random noise AK-325-9995 more noise"
  {
    TrimFixed("random noise AK-325-9995 more noise");
  }

  /** The noisy text and its capitalisation, cut around the code. */
  lemma NoisyPieces()
    ensures "random noise " + "AK-325-9995" + " more noise" == "random noise AK-325-9995 more noise"
    ensures "RANDOM NOISE " + "AK-325-9995" + " MORE NOISE" == "RANDOM NOISE AK-325-9995 MORE NOISE"
  {
  }

  /** Upper-casing the noise around the code, piece by piece. */
  lemma UpperNoisePieces(a: string, b: string, c: string, ua: string, uc: string)
    requires a == "random noise " && b == "AK-325-9995" && c == " more noise"
    requires ua == "RANDOM NOISE " && uc == " MORE NOISE"
    ensures Upper(a + b + c) == ua + b + uc
  {
    UpperAppend(a + b, c);
    UpperAppend(a, b);
    UpperFixed(b);
    assert Upper(a) == ua;
    assert Upper(c) == uc;
  }

  lemma NoisyCapitalised()
    ensures Upper("random noise AK-325-9995 more noise") == "RANDOM NOISE AK-325-9995 MORE NOISE"
  {
    NoisyPieces();
    UpperNoisePieces("random noise ", "AK-325-9995", " more noise", "RANDOM NOISE ", " MORE NOISE");
  }

  lemma NoisyCleaned()
    ensures Clean("random noise AK-325-9995 more noise") == "RANDOM NOISE AK-325-9995 MORE NOISE"
  {
    NoisyTrimmed();
    NoisyCapitalised();
  }

  /** The cleaned noisy text has no digit before the code's first group. */
  lemma NoisyPrefixDigitFree(s: string)
    requires s == "RANDOM NOISE AK-325-9995 MORE NOISE"
    ensures 16 <= |s| && forall k :: 0 <= k < 16 ==> !IsDigit(s[k])
  {
  }

  /** In the cleaned noisy text the code is the leftmost match. */
  lemma NoisyLeftmost()
    ensures IsLeftmostMatch("RANDOM NOISE AK-325-9995 MORE NOISE", 13, Token("AK", true, "325", true, "9995"))
  {
    var t := Token("AK", true, "325", true, "9995");
    var s := "RANDOM NOISE " + Spell(t) + " MORE NOISE";
    assert s == "RANDOM NOISE AK-325-9995 MORE NOISE";
    CodeBetween("RANDOM NOISE ", t, " MORE NOISE");
    NoisyPrefixDigitFree(s);
    NoDigitNoMatch(s, 16);
  }

  /** A code surrounded by noise is found. */
  lemma CodeInNoise()
    ensures ExtractCode(Some("random noise AK-325-9995 more noise")) == Some("AK-325-9995")
  {
    var t := Token("AK", true, "325", true, "9995");
    assert Canonical(t) == "AK-325-9995";
    NoisyCleaned();
    NoisyLeftmost();
    ExtractComplete("random noise AK-325-9995 more noise", 13, t);
  }

  /** A candidate with a letter glued in front is not matched. */
  lemma LetterGluedInFront()
    ensures ExtractCode(Some("XGA1234567")) == None
  {
    var a := "XGA1234567";
    TrimFixed(a);
    UpperFixed(a);
    NoMatchWhereMatcherFails(a, 0, |a|);
    ExtractNone(a);
  }

  /** A candidate with a digit glued behind is not matched. */
  lemma DigitGluedBehind()
    ensures ExtractCode(Some("GA12345678")) == None
  {
    var b := "GA12345678";
    TrimFixed(b);
    UpperFixed(b);
    NoMatchWhereMatcherFails(b, 0, |b|);
    ExtractNone(b);
  }
}
