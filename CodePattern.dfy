/**
 * The two postal-code grammars of the bot (app.py).
 *
 * Search mode, used on decoded QR text: the leftmost match of
 *   \b([A-Z]{2})(-?)(\d{3})\2(\d{3,4})\b
 * in the cleaned text, rebuilt as `LL-DDD-DDD(D)`. The back-reference `\2`
 * makes the two separators agree.
 *
 * Strict mode, used on the chat body: the whole cleaned body must match
 *   ^[A-Za-z]{2}[-]?\d{3}[-]?\d{3,4}$
 * whose two optional hyphens are independent of each other.
 *
 * Both are written directly over characters; no regular-expression engine is
 * modelled. At any one position the search pattern can match in at most one
 * way (an optional hyphen that is present can never be skipped, because a
 * digit must follow, and three final digits can end at a word boundary only
 * when no fourth digit follows), so "leftmost match" is "match at the least
 * start position".
 */
module CodePattern {
  import opened Wrappers
  import opened Text

  /** A code as it is spelled: two letters, whether a hyphen follows them, the
      three-digit group, whether a hyphen follows it, and the final group. */
  datatype Token = Token(letters: string, dash1: bool, head: string, dash2: bool, tail: string)

  /** Where a search-mode match starts, and what it matched. */
  datatype Found = Found(start: nat, token: Token)

  predicate AllDigits(s: string) { forall i :: 0 <= i < |s| ==> IsDigit(s[i]) }

  predicate AllLetters(s: string) { forall i :: 0 <= i < |s| ==> IsLetter(s[i]) }

  predicate AllUpper(s: string) { forall i :: 0 <= i < |s| ==> IsUpper(s[i]) }

  /** The strict grammar's pieces: `[A-Za-z]{2}`, `\d{3}`, `\d{3,4}`. */
  predicate Shaped(t: Token) {
    && |t.letters| == 2 && AllLetters(t.letters)
    && |t.head| == 3 && AllDigits(t.head)
    && (|t.tail| == 3 || |t.tail| == 4) && AllDigits(t.tail)
  }

  /** The search grammar's pieces: `[A-Z]{2}`, and one separator choice used twice. */
  predicate SearchShaped(t: Token) {
    Shaped(t) && AllUpper(t.letters) && t.dash1 == t.dash2
  }

  function Dash(present: bool): string { if present then "-" else "" }

  /** The characters a token stands for. */
  function Spell(t: Token): string {
    t.letters + Dash(t.dash1) + t.head + Dash(t.dash2) + t.tail
  }

  /** The reconstruction `f"{group1}-{group3}-{group4}"`. */
  function Canonical(t: Token): string {
    t.letters + "-" + t.head + "-" + t.tail
  }

  /** The canonical shape `LL-DDD-DDD(D)` with upper-case letters. */
  predicate IsCanonicalCode(c: string) {
    && (|c| == 10 || |c| == 11)
    && IsUpper(c[0]) && IsUpper(c[1]) && c[2] == '-'
    && AllDigits(c[3..6]) && c[6] == '-' && AllDigits(c[7..])
  }

  /** The token a canonical code spells: both separators present. */
  function TokenOf(c: string): (t: Token)
    requires IsCanonicalCode(c)
    ensures SearchShaped(t) && t.dash1
    ensures Spell(t) == c && Canonical(t) == c
  {
    var t := Token(c[..2], true, c[3..6], true, c[7..]);
    assert Spell(t) == c[..2] + c[2..3] + c[3..6] + c[6..7] + c[7..];
    t
  }

  /** The token with its letters capitalised. */
  function UpperToken(t: Token): (u: Token)
    requires Shaped(t)
    ensures SearchShaped(u) || u.dash1 != u.dash2
    ensures Shaped(u) && AllUpper(u.letters)
    ensures u.dash1 == t.dash1 && u.dash2 == t.dash2 && u.head == t.head && u.tail == t.tail
    ensures Upper(t.letters) == u.letters
  {
    Token(Upper(t.letters), t.dash1, t.head, t.dash2, t.tail)
  }

  /** Is position `k` inside `s` and a word character? */
  predicate WordAt(s: string, k: int) { 0 <= k < |s| && IsWordChar(s[k]) }

  /** `\b` at position `j`: a word character on exactly one side. */
  predicate AtBoundary(s: string, j: int) { WordAt(s, j - 1) != WordAt(s, j) }

  /** The search pattern matches `s` at `i`, matching token `t`. */
  predicate MatchesAt(s: string, i: nat, t: Token) {
    && SearchShaped(t)
    && i + |Spell(t)| <= |s|
    && s[i..i + |Spell(t)|] == Spell(t)
    && AtBoundary(s, i)
    && AtBoundary(s, i + |Spell(t)|)
  }

  /** No match of the search pattern starts at any position from `a` on. */
  ghost predicate NoMatchFrom(s: string, a: nat) {
    forall j: nat, t :: a <= j && MatchesAt(s, j, t) ==> false
  }

  /** No match of the search pattern starts before `b`. */
  ghost predicate NoMatchBefore(s: string, b: nat) {
    forall j: nat, t :: j < b && MatchesAt(s, j, t) ==> false
  }

  /** `t` at `i` is what `re.search` reports: a match, and none further left. */
  ghost predicate IsLeftmostMatch(s: string, i: nat, t: Token) {
    MatchesAt(s, i, t) && NoMatchBefore(s, i)
  }

  /** `(\d{3,4})\b` at `g`: four digits if they end at a word boundary,
      otherwise three if they do, otherwise no match (0). */
  function TailLength(s: string, g: nat): (n: nat)
    ensures n == 0 || n == 3 || n == 4
    ensures n != 0 ==> g + n <= |s| && AllDigits(s[g..g + n]) && AtBoundary(s, g + n)
  {
    if g + 4 <= |s| && AllDigits(s[g..g + 4]) && AtBoundary(s, g + 4) then 4
    else if g + 3 <= |s| && AllDigits(s[g..g + 3]) && AtBoundary(s, g + 3) then 3
    else 0
  }

  /** `\b[A-Z]{2}` at `i`. */
  predicate LettersAt(s: string, i: nat) {
    i + 2 <= |s| && AtBoundary(s, i) && IsUpper(s[i]) && IsUpper(s[i + 1])
  }

  /** `(-?)`: the matcher takes the hyphen whenever one is there. */
  predicate DashAt(s: string, k: nat) { k < |s| && s[k] == '-' }

  /** The pattern tried at one position, as the backtracking matcher does it:
      `-?` first takes a hyphen if there is one, `\d{3,4}` first tries four digits. */
  function MatchAt(s: string, i: nat): (r: Option<Token>)
    ensures r.Some? ==> MatchesAt(s, i, r.value)
  {
    if !LettersAt(s, i) then None
    else
      var dash := DashAt(s, i + 2);
      var g1 := if dash then i + 3 else i + 2;
      if !(g1 + 3 <= |s| && AllDigits(s[g1..g1 + 3])) then None
      else if dash && !DashAt(s, g1 + 3) then None
      else
        var g2 := if dash then g1 + 4 else g1 + 3;
        var n := TailLength(s, g2);
        if n == 0 then None
        else
          TokenAt(s, i, dash, g1, g2, n);
          Some(Token(s[i..i + 2], dash, s[g1..g1 + 3], dash, s[g2..g2 + n]))
  }

  /** The pieces `MatchAt` found make a match. */
  lemma TokenAt(s: string, i: nat, dash: bool, g1: nat, g2: nat, n: nat)
    requires LettersAt(s, i)
    requires g1 == i + 2 + |Dash(dash)| && g2 == g1 + 3 + |Dash(dash)|
    requires dash ==> DashAt(s, i + 2) && DashAt(s, g1 + 3)
    requires g1 + 3 <= |s| && AllDigits(s[g1..g1 + 3])
    requires (n == 3 || n == 4) && g2 + n <= |s| && AllDigits(s[g2..g2 + n]) && AtBoundary(s, g2 + n)
    ensures MatchesAt(s, i, Token(s[i..i + 2], dash, s[g1..g1 + 3], dash, s[g2..g2 + n]))
  {
    var t := Token(s[i..i + 2], dash, s[g1..g1 + 3], dash, s[g2..g2 + n]);
    SpellPieces(s, i, g1, g2, g2 + n, t);
    assert AllUpper(t.letters);
  }

  /** A text cut into a token's pieces spells that token. */
  lemma SpellPieces(s: string, i: nat, g1: nat, g2: nat, e: nat, t: Token)
    requires i + 2 <= g1 && g1 + 3 <= g2 <= e <= |s|
    requires t.letters == s[i..i + 2] && t.head == s[g1..g1 + 3] && t.tail == s[g2..e]
    requires Dash(t.dash1) == s[i + 2..g1] && Dash(t.dash2) == s[g1 + 3..g2]
    ensures Spell(t) == s[i..e]
  {
    var p1 := s[i..g1];
    assert p1 == t.letters + Dash(t.dash1) by { SliceSplit(s, i, i + 2, g1); }
    var p2 := s[i..g1 + 3];
    assert p2 == p1 + t.head by { SliceSplit(s, i, g1, g1 + 3); }
    var p3 := s[i..g2];
    assert p3 == p2 + Dash(t.dash2) by { SliceSplit(s, i, g1 + 3, g2); }
    assert s[i..e] == p3 + t.tail by { SliceSplit(s, i, g2, e); }
  }

  /** `re.search`: try every start position from `i` rightwards. */
  function SearchFrom(s: string, i: nat): (r: Option<Found>)
    requires i <= |s|
    ensures r.Some? ==> i <= r.value.start < |s| && MatchesAt(s, r.value.start, r.value.token)
    decreases |s| - i
  {
    if i == |s| then None
    else
      match MatchAt(s, i)
      case Some(t) => Some(Found(i, t))
      case None => SearchFrom(s, i + 1)
  }

  /** `extract_code_from_qr`: `None` for no text or empty text, otherwise the
      leftmost code found in the cleaned text, in canonical form. */
  function ExtractCode(qrText: Option<string>): (r: Option<string>)
    ensures r.Some? ==> IsCanonicalCode(r.value)
    ensures qrText == None || qrText == Some("") ==> r == None
  {
    match qrText
    case None => None
    case Some(text) =>
      if text == [] then None
      else
        match SearchFrom(Clean(text), 0)
        case None => None
        case Some(f) =>
          CanonicalShape(f.token);
          Some(Canonical(f.token))
  }

  /** The reconstruction of a search-mode token has the canonical shape. */
  lemma CanonicalShape(t: Token)
    requires SearchShaped(t)
    ensures IsCanonicalCode(Canonical(t))
  {
    var c := Canonical(t);
    assert c[..2] == t.letters && c[3..6] == t.head && c[7..] == t.tail;
  }

  lemma SliceSplit(s: string, a: nat, b: nat, c: nat)
    requires a <= b <= c <= |s|
    ensures s[a..c] == s[a..b] + s[b..c]
  {
  }

  /** The strict whole-string check of the chat body: the token it parses as,
      if any. (`$` would also accept one final line feed; the body is always
      stripped first, so that case never reaches it.) */
  function ParseStrict(s: string): (r: Option<Token>)
    ensures r.Some? ==> Shaped(r.value) && Spell(r.value) == s
  {
    if !(|s| >= 2 && IsLetter(s[0]) && IsLetter(s[1])) then None
    else
      var dash1 := 2 < |s| && s[2] == '-';
      var g1 := if dash1 then 3 else 2;
      if !(g1 + 3 <= |s| && AllDigits(s[g1..g1 + 3])) then None
      else
        var dash2 := g1 + 3 < |s| && s[g1 + 3] == '-';
        var g2 := if dash2 then g1 + 4 else g1 + 3;
        if !((|s| - g2 == 3 || |s| - g2 == 4) && AllDigits(s[g2..])) then None
        else
          var t := Token(s[..2], dash1, s[g1..g1 + 3], dash2, s[g2..]);
          assert Dash(dash1) == s[2..g1] && Dash(dash2) == s[g1 + 3..g2];
          SpellPieces(s, 0, g1, g2, |s|, t);
          assert s[0..|s|] == s;
          Some(t)
  }

  predicate IsStrictCode(s: string) {
    ParseStrict(s).Some?
  }
}
