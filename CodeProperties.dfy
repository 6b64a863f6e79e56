/**
 * What the two postal-code grammars of CodePattern guarantee: the search is
 * the leftmost match of its pattern and nothing else, its result is always
 * canonical and is found again unchanged, separator agreement decides
 * acceptance, and the strict check accepts exactly the strings its grammar
 * spells.
 */
module CodeProperties {
  import opened Wrappers
  import opened Text
  import opened CodePattern

  /** Where the three-digit group of a spelled token starts. */
  function HeadAt(t: Token): nat { 2 + |Dash(t.dash1)| }

  /** Where the final digit group of a spelled token starts. */
  function TailAt(t: Token): nat { HeadAt(t) + 3 + |Dash(t.dash2)| }

  /** The layout of a spelled token, character by character. */
  lemma SpellLayout(t: Token)
    requires Shaped(t)
    ensures |Spell(t)| == TailAt(t) + |t.tail|
    ensures Spell(t)[..2] == t.letters
    ensures Spell(t)[HeadAt(t)..HeadAt(t) + 3] == t.head
    ensures Spell(t)[TailAt(t)..] == t.tail
    ensures Spell(t)[2] == (if t.dash1 then '-' else t.head[0])
    ensures Spell(t)[HeadAt(t) + 3] == (if t.dash2 then '-' else t.tail[0])
    ensures forall k :: 2 <= k < |Spell(t)| ==> IsDigit(Spell(t)[k]) || Spell(t)[k] == '-'
    ensures IsLetter(Spell(t)[0]) && IsDigit(Spell(t)[|Spell(t)| - 1])
  {
    var s := Spell(t);
    var a := t.letters + Dash(t.dash1);
    var b := a + t.head + Dash(t.dash2);
    assert s == b + t.tail;
    assert s[..2] == a[..2];
    assert s[HeadAt(t)..HeadAt(t) + 3] == t.head;
    forall k | 2 <= k < |s|
      ensures IsDigit(s[k]) || s[k] == '-'
    {
      if k >= |b| {
        assert s[k] == t.tail[k - |b|];
      } else if k >= |a| + 3 {
        assert s[k] == '-';
      } else if k >= |a| {
        assert s[k] == t.head[k - |a|];
      } else {
        assert s[k] == '-';
      }
    }
  }

  /** A piece of a piece of `s` is a piece of `s`. */
  lemma SubSlice(s: string, i: nat, j: nat, a: nat, b: nat)
    requires i <= j <= |s| && a <= b <= j - i
    ensures s[i..j][a..b] == s[i + a..i + b]
  {
    assert |s[i..j][a..b]| == b - a;
    forall k | 0 <= k < b - a ensures s[i..j][a..b][k] == s[i + a..i + b][k] {
      assert s[i..j][a..b][k] == s[i..j][a + k] == s[i + a + k];
    }
  }

  /** One non-digit is enough to spoil a digit group. */
  lemma NotAllDigits(w: string, k: nat)
    requires k < |w| && !IsDigit(w[k])
    ensures !AllDigits(w)
  {
  }

  /** Final digit groups that end at a word boundary are measured exactly. */
  lemma TailLengthExact(s: string, g: nat, m: nat)
    requires m == 3 || m == 4
    requires g + m <= |s| && AllDigits(s[g..g + m]) && AtBoundary(s, g + m)
    ensures TailLength(s, g) == m
  {
    if m == 3 {
      assert WordAt(s, g + 2) by {
        assert IsDigit(s[g..g + 3][2]);
      }
      if g + 4 <= |s| {
        assert !IsDigit(s[g + 3]);
        NotAllDigits(s[g..g + 4], 3);
      }
    }
  }

  /** A match at a position is the one `MatchAt` reports: the matcher is
      complete, and a position has at most one match. */
  lemma MatchAtComplete(s: string, i: nat, t: Token)
    requires MatchesAt(s, i, t)
    ensures MatchAt(s, i) == Some(t)
  {
    MatchPieces(s, i, t);
    var h := HeadAt(t);
    assert DashAt(s, i + 2) == t.dash1;
    assert AllDigits(s[i + h..i + h + 3]);
    TailLengthExact(s, i + TailAt(t), |t.tail|);
  }

  /** Where a match's pieces sit in the text. */
  lemma MatchPieces(s: string, i: nat, t: Token)
    requires MatchesAt(s, i, t)
    ensures |Spell(t)| == TailAt(t) + |t.tail|
    ensures LettersAt(s, i) && s[i..i + 2] == t.letters
    ensures DashAt(s, i + 2) == t.dash1
    ensures s[i + HeadAt(t)..i + HeadAt(t) + 3] == t.head
    ensures DashAt(s, i + HeadAt(t) + 3) == t.dash2
    ensures s[i + TailAt(t)..i + |Spell(t)|] == t.tail
    ensures AtBoundary(s, i + |Spell(t)|)
  {
    SpellLayout(t);
    var n := |Spell(t)|;
    var h := HeadAt(t);
    var k := TailAt(t);
    SubSlice(s, i, i + n, 0, 2);
    SubSlice(s, i, i + n, h, h + 3);
    SubSlice(s, i, i + n, k, n);
    assert s[i..i + 2] == t.letters;
    assert s[i + h..i + h + 3] == t.head;
    assert s[i + k..i + n] == t.tail;
    assert s[i + 2] == Spell(t)[2];
    assert s[i + h + 3] == Spell(t)[h + 3];
    assert LettersAt(s, i) by {
      assert IsUpper(t.letters[0]) && IsUpper(t.letters[1]);
    }
    assert DashAt(s, i + 2) == t.dash1 by {
      assert IsDigit(t.head[0]);
    }
    assert DashAt(s, i + h + 3) == t.dash2 by {
      assert IsDigit(t.tail[0]);
    }
  }

  /** No match starts in `[a, b)`. */
  ghost predicate NoMatchIn(s: string, a: nat, b: nat) {
    forall j: nat, t :: a <= j < b && MatchesAt(s, j, t) ==> false
  }

  /** `SearchFrom` finds the leftmost match from `i` on, and reports none
      only when there is none. */
  lemma {:induction false} SearchFromLeftmost(s: string, i: nat)
    requires i <= |s|
    ensures SearchFrom(s, i).Some? ==> NoMatchIn(s, i, SearchFrom(s, i).value.start)
    ensures SearchFrom(s, i).None? ==> NoMatchFrom(s, i)
    decreases |s| - i
  {
    if i == |s| {
      forall j: nat, t | i <= j && MatchesAt(s, j, t) ensures false {
        SpellLayout(t);
      }
    } else {
      forall t | MatchesAt(s, i, t) ensures MatchAt(s, i) == Some(t) {
        MatchAtComplete(s, i, t);
      }
      if MatchAt(s, i).None? {
        SearchFromLeftmost(s, i + 1);
      }
    }
  }

  /** Every code `extract_code_from_qr` returns is the canonical form of the
      leftmost match of the search pattern in the cleaned text. */
  lemma ExtractSound(text: string, c: string)
    requires ExtractCode(Some(text)) == Some(c)
    ensures exists i: nat, t :: IsLeftmostMatch(Clean(text), i, t) && c == Canonical(t)
  {
    var s := Clean(text);
    SearchFromLeftmost(s, 0);
    var f := SearchFrom(s, 0).value;
    assert IsLeftmostMatch(s, f.start, f.token);
  }

  /** The leftmost match of the search pattern in the cleaned text is what
      `extract_code_from_qr` returns, in canonical form. */
  lemma ExtractComplete(text: string, i: nat, t: Token)
    requires IsLeftmostMatch(Clean(text), i, t)
    ensures ExtractCode(Some(text)) == Some(Canonical(t))
  {
    var s := Clean(text);
    SearchFromLeftmost(s, 0);
    assert text != [] by {
      SpellLayout(t);
    }
    var f := SearchFrom(s, 0).value;
    assert f.start == i;
    MatchAtComplete(s, i, t);
    MatchAtComplete(s, i, f.token);
  }

  /** `extract_code_from_qr` gives `None` exactly when the pattern occurs
      nowhere in the cleaned text. */
  lemma ExtractNone(text: string)
    ensures ExtractCode(Some(text)) == None <==> NoMatchFrom(Clean(text), 0)
  {
    var s := Clean(text);
    SearchFromLeftmost(s, 0);
    if text == [] {
      assert Trim(text) == [] && s == [];
      forall j: nat, t | MatchesAt(s, j, t) ensures false {
        SpellLayout(t);
      }
    }
  }

  /** `s` holds `w` starting at `i`. */
  ghost predicate OccursAt(s: string, i: nat, w: string) {
    i + |w| <= |s| && s[i..i + |w|] == w
  }

  /** The code without its two hyphens. */
  function Compact(c: string): (r: string)
    requires IsCanonicalCode(c)
    ensures |r| == |c| - 2
  {
    c[..2] + c[3..6] + c[7..]
  }

  /** A search token spells its canonical form, without hyphens when it has none. */
  lemma SpellSearchToken(t: Token)
    requires SearchShaped(t)
    ensures IsCanonicalCode(Canonical(t))
    ensures Spell(t) == if t.dash1 then Canonical(t) else Compact(Canonical(t))
  {
    var c := Canonical(t);
    assert c[..2] == t.letters && c[3..6] == t.head && c[7..] == t.tail;
  }

  /** The letters and digits of a returned code stand together in the cleaned
      text: either as the code itself or as the code without hyphens. */
  lemma ExtractOccurs(text: string, c: string)
    requires ExtractCode(Some(text)) == Some(c)
    ensures exists i: nat :: OccursAt(Clean(text), i, c) || OccursAt(Clean(text), i, Compact(c))
  {
    var s := Clean(text);
    assert SearchFrom(s, 0).Some?;
    var f := SearchFrom(s, 0).value;
    var t := f.token;
    assert c == Canonical(t) && MatchesAt(s, f.start, t);
    SpellSearchToken(t);
    assert OccursAt(s, f.start, Spell(t));
    assert OccursAt(s, f.start, c) || OccursAt(s, f.start, Compact(c));
  }

  /** A canonical code is found in itself, unchanged. */
  lemma CanonicalFixed(c: string)
    requires IsCanonicalCode(c)
    ensures ExtractCode(Some(c)) == Some(c)
  {
    var t := TokenOf(c);
    SpellLayout(t);
    CleanFixed(c);
    assert MatchesAt(c, 0, t);
    NoMatchBeforeZero(c);
    ExtractComplete(c, 0, t);
  }

  lemma NoMatchBeforeZero(s: string)
    ensures NoMatchBefore(s, 0)
  {
  }

  /** `extract_code_from_qr` applied to its own result returns it again. */
  lemma ExtractIdempotent(qrText: Option<string>)
    ensures ExtractCode(ExtractCode(qrText)) == ExtractCode(qrText)
  {
    if ExtractCode(qrText).Some? {
      CanonicalFixed(ExtractCode(qrText).value);
    }
  }

  /** Cleaning a spelled token capitalises its letters and changes nothing else. */
  lemma CleanSpell(t: Token)
    requires Shaped(t)
    ensures Clean(Spell(t)) == Spell(UpperToken(t))
  {
    var s := Spell(t);
    assert s[0] == t.letters[0];
    assert s[|s| - 1] == t.tail[|t.tail| - 1];
    TrimFixed(s);
    UpperSpell(t);
  }

  /** Upper-casing a spelled token capitalises its two letters only. */
  lemma UpperSpell(t: Token)
    requires Shaped(t)
    ensures Upper(Spell(t)) == Spell(UpperToken(t))
  {
    var d1, d2 := Dash(t.dash1), Dash(t.dash2);
    UpperAppend(t.letters + d1 + t.head + d2, t.tail);
    UpperAppend(t.letters + d1 + t.head, d2);
    UpperAppend(t.letters + d1, t.head);
    UpperAppend(t.letters, d1);
    UpperFixed(d1);
    UpperFixed(t.head);
    UpperFixed(d2);
    UpperFixed(t.tail);
  }

  /** A search token, spelled on its own, matches at the start. */
  lemma WholeMatch(u: Token)
    requires SearchShaped(u)
    ensures MatchesAt(Spell(u), 0, u)
  {
    var s := Spell(u);
    SpellLayout(u);
    assert s[0..|s|] == s;
    assert !WordAt(s, -1) && WordAt(s, 0);
    assert WordAt(s, |s| - 1) && !WordAt(s, |s|);
  }

  /** A text that is exactly one spelled code with agreeing separators, in
      either letter case, is found and rebuilt with capitals and two hyphens. */
  lemma ExtractSpelledAgreeing(t: Token)
    requires Shaped(t) && t.dash1 == t.dash2
    ensures ExtractCode(Some(Spell(t))) == Some(Canonical(UpperToken(t)))
  {
    var u := UpperToken(t);
    CleanSpell(t);
    WholeMatch(u);
    NoMatchBeforeZero(Spell(u));
    ExtractComplete(Spell(t), 0, u);
  }

  /** The search pattern does not match anywhere in a spelled token whose
      separators disagree. */
  lemma NoMatchInMixed(u: Token)
    requires Shaped(u) && AllUpper(u.letters) && u.dash1 != u.dash2
    ensures NoMatchFrom(Spell(u), 0)
  {
    var s := Spell(u);
    SpellLayout(u);
    forall j: nat, t' | MatchesAt(s, j, t') ensures MatchAt(s, j) == Some(t') {
      MatchAtComplete(s, j, t');
    }
    forall j: nat ensures MatchAt(s, j) == None {
      if j == 0 {
        if u.dash1 {
          assert s[6] == u.tail[0];
        } else {
          assert s[5] == '-';
        }
      } else if j == 1 {
        assert WordAt(s, 0) && WordAt(s, 1);
      } else if j < |s| {
        assert !IsUpper(s[j]);
      }
    }
  }

  /** A text that is exactly one spelled code whose separators disagree (one
      hyphen only) is rejected: the back-reference demands the same choice twice. */
  lemma ExtractSpelledMixed(t: Token)
    requires Shaped(t) && t.dash1 != t.dash2
    ensures ExtractCode(Some(Spell(t))) == None
  {
    CleanSpell(t);
    NoMatchInMixed(UpperToken(t));
    ExtractNone(Spell(t));
  }

  /** The strict check reads back every token it can spell: no information
      is lost between the grammar and the parser. */
  lemma StrictRoundTrip(t: Token)
    requires Shaped(t)
    ensures ParseStrict(Spell(t)) == Some(t)
  {
    SpellLayout(t);
    var s := Spell(t);
    assert s[2] == '-' <==> t.dash1;
    assert s[HeadAt(t) + 3] == '-' <==> t.dash2;
  }

  /** The strict check accepts exactly the strings its grammar spells. */
  lemma StrictGrammar(s: string)
    ensures IsStrictCode(s) <==> exists t :: Shaped(t) && Spell(t) == s
  {
    if t :| Shaped(t) && Spell(t) == s {
      StrictRoundTrip(t);
    }
  }

  /** Strict mode is sloppier than search mode: a code whose separators
      disagree passes the strict check but is not found by the search. */
  lemma StrictAcceptsMixedSeparators(t: Token)
    requires Shaped(t) && t.dash1 != t.dash2
    ensures IsStrictCode(Spell(t))
    ensures ExtractCode(Some(Spell(t))) == None
  {
    StrictRoundTrip(t);
    ExtractSpelledMixed(t);
  }
}
