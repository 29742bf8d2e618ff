/** Text operations the services rely on: ASCII case folding (ILIKE, `toLowerCase`),
    prefix/suffix/substring tests, JavaScript `trim` and `split(',')`, and the
    `::numeric` cast of PostgreSQL restricted to signed decimals. */
module Text {
  import opened Errors

  function Lower(c: char): char {
    if 'A' <= c <= 'Z' then (c as int + 32) as char else c
  }

  /** Lower-cases every ASCII letter and keeps every other character. */
  function Fold(s: string): string {
    seq(|s|, i requires 0 <= i < |s| => Lower(s[i]))
  }

  lemma FoldConcat(a: string, b: string)
    ensures Fold(a + b) == Fold(a) + Fold(b)
  {
    assert forall i :: 0 <= i < |a + b| ==> Fold(a + b)[i] == (Fold(a) + Fold(b))[i];
  }

  predicate IsSuffix(p: string, s: string) {
    |p| <= |s| && s[|s| - |p|..] == p
  }

  /** `p` occurs in `s` starting at index `i`. */
  predicate OccursAt(p: string, s: string, i: int) {
    0 <= i <= |s| - |p| && s[i..i + |p|] == p
  }

  predicate IsSubstring(p: string, s: string) {
    exists i :: 0 <= i <= |s| - |p| && OccursAt(p, s, i)
  }

  /** A suffix of `s` is `s` itself or a suffix of its tail. */
  lemma SuffixStep(p: string, s: string)
    requires s != []
    ensures IsSuffix(p, s) <==> p == s || IsSuffix(p, s[1..])
  {
    if IsSuffix(p, s) && p != s {
      assert |p| < |s|;
      assert s[1..][|s| - 1 - |p|..] == s[|s| - |p|..];
    }
    if IsSuffix(p, s[1..]) {
      assert s[|s| - |p|..] == s[1..][|s| - 1 - |p|..];
    }
  }

  /** A substring of `s` is a prefix of `s` or a substring of its tail. */
  lemma SubstringStep(p: string, s: string)
    requires s != []
    ensures IsSubstring(p, s) <==> p <= s || IsSubstring(p, s[1..])
  {
    if IsSubstring(p, s) {
      var i :| OccursAt(p, s, i);
      assert OccursAt(p, s, i);
      if i == 0 {
        assert p == s[..|p|];
      } else {
        assert s[1..][i - 1..i - 1 + |p|] == p;
        assert OccursAt(p, s[1..], i - 1);
      }
    }
    if p <= s {
      assert OccursAt(p, s, 0);
    }
    if IsSubstring(p, s[1..]) {
      var i :| OccursAt(p, s[1..], i);
      assert OccursAt(p, s[1..], i);
      assert s[i + 1..i + 1 + |p|] == s[1..][i..i + |p|];
      assert OccursAt(p, s, i + 1);
    }
  }

  lemma EmptyIsSubstring(s: string)
    ensures IsSubstring([], s)
  {
    assert OccursAt([], s, 0);
  }

  // ----- JavaScript String.prototype.trim -----

  /** WhiteSpace and LineTerminator characters of ECMAScript (section 12.2 and 12.3 of ECMA-262). */
  predicate IsSpace(c: char) {
    c == '\t' || c == '\n' || c == '\U{B}' || c == '\U{C}' || c == '\r' || c == ' '
    || c == '\U{A0}' || c == '\U{1680}' || ('\U{2000}' <= c <= '\U{200A}')
    || c == '\U{2028}' || c == '\U{2029}' || c == '\U{202F}' || c == '\U{205F}'
    || c == '\U{3000}' || c == '\U{FEFF}'
  }

  function TrimStart(s: string): (r: string)
    ensures |r| <= |s| && r == s[|s| - |r|..]
    ensures forall i :: 0 <= i < |s| - |r| ==> IsSpace(s[i])
    ensures r == [] || !IsSpace(r[0])
  {
    if s != [] && IsSpace(s[0]) then
      var r := TrimStart(s[1..]);
      assert s[1..][|s| - 1 - |r|..] == s[|s| - |r|..];
      r
    else
      s
  }

  function TrimEnd(s: string): (r: string)
    ensures |r| <= |s| && r == s[..|r|]
    ensures forall i :: |r| <= i < |s| ==> IsSpace(s[i])
    ensures r == [] || !IsSpace(r[|r| - 1])
  {
    if s != [] && IsSpace(s[|s| - 1]) then
      var r := TrimEnd(s[..|s| - 1]);
      assert s[..|s| - 1][..|r|] == s[..|r|];
      r
    else
      s
  }

  /** `r` is `s` with white space only cut off before index `i` and after `r`. */
  predicate CutAt(s: string, r: string, i: int) {
    && 0 <= i <= |s| - |r| && r == s[i..i + |r|]
    && (forall k :: 0 <= k < i ==> IsSpace(s[k]))
    && (forall k :: i + |r| <= k < |s| ==> IsSpace(s[k]))
  }

  /** `s.trim()`: the longest middle part of `s` that neither starts nor ends with white space;
      only white space is cut off. */
  function Trim(s: string): (r: string)
    ensures exists i :: CutAt(s, r, i)
    ensures r == [] || (!IsSpace(r[0]) && !IsSpace(r[|r| - 1]))
  {
    var t := TrimStart(s);
    var r := TrimEnd(t);
    CutBetween(s, t, r);
    assert r != [] ==> r[0] == t[0];
    r
  }

  /** White space cut from the front of `s`, then from the back of what is left. */
  lemma CutBetween(s: string, t: string, r: string)
    requires |t| <= |s| && t == s[|s| - |t|..] && (forall k :: 0 <= k < |s| - |t| ==> IsSpace(s[k]))
    requires |r| <= |t| && r == t[..|r|] && (forall k :: |r| <= k < |t| ==> IsSpace(t[k]))
    ensures CutAt(s, r, |s| - |t|)
  {
    var i := |s| - |t|;
    assert r == s[i..i + |r|];
    forall k | i + |r| <= k < |s|
      ensures IsSpace(s[k])
    {
      assert s[k] == t[k - i];
    }
  }

  lemma TrimIdempotent(s: string)
    ensures Trim(Trim(s)) == Trim(s)
  {
    var r := Trim(s);
    if r != [] {
      assert TrimStart(r) == r;
      assert TrimEnd(r) == r;
    }
  }

  // ----- JavaScript String.prototype.split with a one-character separator -----

  function IndexOf(s: string, c: char): (k: nat)
    ensures k <= |s|
    ensures k < |s| ==> s[k] == c
    ensures forall i :: 0 <= i < k ==> s[i] != c
  {
    if s == [] then 0 else if s[0] == c then 0 else 1 + IndexOf(s[1..], c)
  }

  function Join(parts: seq<string>, sep: char): string {
    if parts == [] then []
    else if |parts| == 1 then parts[0]
    else parts[0] + [sep] + Join(parts[1..], sep)
  }

  /** `s.split(sep)`: the pieces between the separators, in order; at least one piece,
      none containing the separator, and joining them back gives `s`. */
  function Split(s: string, sep: char): (parts: seq<string>)
    ensures |parts| >= 1
    ensures forall i :: 0 <= i < |parts| ==> sep !in parts[i]
    ensures Join(parts, sep) == s
    decreases |s|
  {
    var k := IndexOf(s, sep);
    if k == |s| then
      [s]
    else
      var rest := Split(s[k + 1..], sep);
      assert s == s[..k] + [sep] + s[k + 1..];
      [s[..k]] + rest
  }

  // ----- the `::numeric` cast -----

  predicate IsDigit(c: char) { '0' <= c <= '9' }

  predicate AllDigits(s: string) { forall i :: 0 <= i < |s| ==> IsDigit(s[i]) }

  function DigitsValue(s: string): nat
    requires AllDigits(s)
  {
    if s == [] then 0 else 10 * DigitsValue(s[..|s| - 1]) + (s[|s| - 1] as int - '0' as int)
  }

  function Pow10(n: nat): (r: nat)
    ensures r >= 1
  {
    if n == 0 then 1 else 10 * Pow10(n - 1)
  }

  /** Digits with an optional fraction: `12`, `12.5`, `.5`, `12.`. */
  function ParseUnsigned(s: string): Option<real> {
    var k := IndexOf(s, '.');
    var whole := s[..k];
    var frac := if k < |s| then s[k + 1..] else [];
    if AllDigits(whole) && AllDigits(frac) && |whole| + |frac| > 0 then
      Some(DigitsValue(whole) as real + DigitsValue(frac) as real / Pow10(|frac|) as real)
    else
      None
  }

  /** The value PostgreSQL gives `s::numeric` for an optionally signed decimal, or None
      where the cast raises an error. */
  function ParseNumeric(s: string): Option<real> {
    if |s| > 0 && (s[0] == '-' || s[0] == '+') then
      match ParseUnsigned(s[1..])
      case None => None
      case Some(v) => Some(if s[0] == '-' then -v else v)
    else
      ParseUnsigned(s)
  }

  function DigitChar(d: nat): char
    requires d < 10
  {
    ('0' as int + d) as char
  }

  /** The decimal text of a natural number. */
  function NatText(n: nat): string
    decreases n
  {
    if n < 10 then [DigitChar(n)] else NatText(n / 10) + [DigitChar(n % 10)]
  }

  /** The decimal text of an integer, with a leading '-' when negative. */
  function IntText(n: int): string {
    if n < 0 then "-" + NatText(-n) else NatText(n)
  }

  lemma {:induction false} NatTextDigits(n: nat)
    ensures NatText(n) != [] && AllDigits(NatText(n)) && DigitsValue(NatText(n)) == n
    decreases n
  {
    if n >= 10 {
      NatTextDigits(n / 10);
      var t := NatText(n);
      assert t[..|t| - 1] == NatText(n / 10);
    }
  }

  lemma AllDigitsNoDot(s: string)
    requires AllDigits(s)
    ensures IndexOf(s, '.') == |s|
  {
    assert forall i :: 0 <= i < |s| ==> s[i] != '.';
  }

  /** The unsigned reading of a natural number's text is that number. */
  lemma ParseNatText(m: nat)
    ensures ParseUnsigned(NatText(m)) == Some(m as real)
    ensures IsDigit(NatText(m)[0])
  {
    NatTextDigits(m);
    AllDigitsNoDot(NatText(m));
    var t := NatText(m);
    assert t[..|t|] == t;
  }

  lemma ParseNegative(s: string, v: real)
    requires |s| > 0 && s[0] == '-' && ParseUnsigned(s[1..]) == Some(v)
    ensures ParseNumeric(s) == Some(-v)
  {
  }

  lemma ParseUnsignedText(s: string)
    requires |s| > 0 && IsDigit(s[0])
    ensures ParseNumeric(s) == ParseUnsigned(s)
  {
  }

  /** The cast reads back exactly the integer whose text it is given. */
  lemma ParseIntText(n: int)
    ensures ParseNumeric(IntText(n)) == Some(n as real)
  {
    var m := if n < 0 then -n else n;
    ParseNatText(m);
    var t := IntText(n);
    if n < 0 {
      assert t[0] == '-' && t[1..] == NatText(m);
      ParseNegative(t, m as real);
    } else {
      assert t == NatText(m);
      ParseUnsignedText(t);
    }
  }
}
