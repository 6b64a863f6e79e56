/**
 * Character classes and the two string clean-ups the bot applies to every
 * incoming text: Python's `str.strip()` followed by `str.upper()`.
 *
 * Only ASCII is modelled: letters are `A`-`Z`/`a`-`z`, digits `0`-`9`, a
 * word character (what the regular-expression `\b` looks at) is a letter, a
 * digit or `_`, and whitespace is the ASCII subset of what `str.isspace()`
 * accepts. Every other character is neither a letter, a digit, a word
 * character nor whitespace, and upper-casing leaves it alone.
 */
module Text {

  predicate IsUpper(c: char) { 'A' <= c <= 'Z' }

  predicate IsLower(c: char) { 'a' <= c <= 'z' }

  predicate IsLetter(c: char) { IsUpper(c) || IsLower(c) }

  predicate IsDigit(c: char) { '0' <= c <= '9' }

  /** What `\w` (and therefore `\b`) treats as part of a word. */
  predicate IsWordChar(c: char) { IsLetter(c) || IsDigit(c) || c == '_' }

  /** Tab, line feed, vertical tab, form feed, carriage return, the four
      information separators and the space. */
  predicate IsSpace(c: char) {
    c == ' ' || '\U{09}' <= c <= '\U{0D}' || '\U{1C}' <= c <= '\U{1F}'
  }

  function ToUpper(c: char): (u: char)
    ensures !IsLower(u)
    ensures IsLower(c) ==> IsUpper(u) && u as int == c as int - 32
    ensures !IsLower(c) ==> u == c
  {
    if IsLower(c) then (c as int - 32) as char else c
  }

  /** `s.upper()`: every lower-case letter becomes its capital, and nothing else changes. */
  function Upper(s: string): (r: string)
    ensures |r| == |s|
    ensures forall i :: 0 <= i < |s| ==> r[i] == ToUpper(s[i])
    ensures forall i :: 0 <= i < |s| ==> !IsLower(r[i])
    ensures forall i :: 0 <= i < |s| && !IsLower(s[i]) ==> r[i] == s[i]
    ensures forall i :: 0 <= i < |s| ==> (IsWordChar(r[i]) <==> IsWordChar(s[i]))
    ensures forall i :: 0 <= i < |s| ==> (IsLetter(r[i]) <==> IsLetter(s[i]))
  {
    seq(|s|, i requires 0 <= i < |s| => ToUpper(s[i]))
  }

  /** Upper-casing works character by character, so it distributes over concatenation. */
  lemma UpperAppend(a: string, b: string)
    ensures Upper(a + b) == Upper(a) + Upper(b)
  {
    assert forall i :: 0 <= i < |a| ==> (a + b)[i] == a[i];
    assert forall i :: |a| <= i < |a| + |b| ==> (a + b)[i] == b[i - |a|];
  }

  /** A text without lower-case letters is its own capitalisation. */
  lemma UpperFixed(s: string)
    requires forall i :: 0 <= i < |s| ==> !IsLower(s[i])
    ensures Upper(s) == s
  {
  }

  /** `s.lstrip()`: the longest suffix of `s` that does not start with whitespace. */
  function TrimStart(s: string): (r: string)
    ensures |r| <= |s| && r == s[|s| - |r|..]
    ensures forall i :: 0 <= i < |s| - |r| ==> IsSpace(s[i])
    ensures r != [] ==> !IsSpace(r[0])
  {
    if s != [] && IsSpace(s[0]) then TrimStart(s[1..]) else s
  }

  /** `s.rstrip()`: the longest prefix of `s` that does not end with whitespace. */
  function TrimEnd(s: string): (r: string)
    ensures |r| <= |s| && r == s[..|r|]
    ensures forall i :: |r| <= i < |s| ==> IsSpace(s[i])
    ensures r != [] ==> !IsSpace(r[|r| - 1])
  {
    if s != [] && IsSpace(s[|s| - 1]) then TrimEnd(s[..|s| - 1]) else s
  }

  /** How many characters `s.lstrip()` removes. */
  function LeadingSpaces(s: string): (n: nat)
    ensures n <= |s|
  {
    |s| - |TrimStart(s)|
  }

  /** `s.strip()`: a contiguous piece of `s` with whitespace on neither end,
      where everything cut away is whitespace. */
  function Trim(s: string): (r: string)
    ensures LeadingSpaces(s) + |r| <= |s|
    ensures r == s[LeadingSpaces(s)..LeadingSpaces(s) + |r|]
    ensures forall i :: 0 <= i < LeadingSpaces(s) ==> IsSpace(s[i])
    ensures forall i :: LeadingSpaces(s) + |r| <= i < |s| ==> IsSpace(s[i])
    ensures r != [] ==> !IsSpace(r[0]) && !IsSpace(r[|r| - 1])
  {
    var t := TrimStart(s);
    var r := TrimEnd(t);
    assert r == s[|s| - |t|..][..|r|];
    r
  }

  /** The normalisation both handlers apply first: `text.strip().upper()`.
      `CleanShape` states what the result looks like. */
  function Clean(s: string): string {
    Upper(Trim(s))
  }

  /** What cleaning leaves: the trimmed text's length, no lower-case letter,
      and no white space at either end. */
  lemma CleanShape(s: string)
    ensures |Clean(s)| == |Trim(s)| <= |s|
    ensures forall i :: 0 <= i < |Clean(s)| ==> !IsLower(Clean(s)[i])
    ensures Clean(s) != [] ==> !IsSpace(Clean(s)[0]) && !IsSpace(Clean(s)[|Clean(s)| - 1])
  {
    var t := Trim(s);
    assert Clean(s) != [] ==> Clean(s)[0] == ToUpper(t[0]) && Clean(s)[|t| - 1] == ToUpper(t[|t| - 1]);
  }


  /** A text that begins and ends with something other than whitespace is
      left alone by `strip()`. */
  lemma {:induction false} TrimFixed(s: string)
    requires s != [] ==> !IsSpace(s[0]) && !IsSpace(s[|s| - 1])
    ensures Trim(s) == s
  {
    assert TrimStart(s) == s;
    assert TrimEnd(s) == s;
  }

  /** A text that already begins and ends with something other than
      whitespace and holds no lower-case letter comes out of `Clean` unchanged. */
  lemma {:induction false} CleanFixed(s: string)
    requires s != [] ==> !IsSpace(s[0]) && !IsSpace(s[|s| - 1])
    requires forall i :: 0 <= i < |s| ==> !IsLower(s[i])
    ensures Clean(s) == s
  {
    TrimFixed(s);
  }
}
