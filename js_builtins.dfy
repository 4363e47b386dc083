/**
 * The JavaScript built-ins the application's rules are written with:
 * String.prototype.trim, toLowerCase, includes, padStart, the relational
 * comparison of two strings, parseInt on a run of decimal digits, the
 * decimal text of a non-negative integer and Number.isInteger.
 */
module JsBuiltins {

  // ---------------------------------------------------------------------
  // Whitespace and trim
  // ---------------------------------------------------------------------

  /** The characters that trim() removes and that the regular-expression
      class \s matches: ECMAScript's WhiteSpace and LineTerminator. */
  predicate IsWhitespace(c: char) {
    || c == ' ' || c == '\t' || c == '\n' || c == '\U{B}' || c == '\U{C}' || c == '\r'
    || c == '\U{A0}' || c == '\U{1680}' || ('\U{2000}' <= c <= '\U{200A}')
    || c == '\U{2028}' || c == '\U{2029}' || c == '\U{202F}' || c == '\U{205F}'
    || c == '\U{3000}' || c == '\U{FEFF}'
  }

  predicate AllWhitespace(s: string) {
    forall i :: 0 <= i < |s| ==> IsWhitespace(s[i])
  }

  /** Drops the leading whitespace: the result is the suffix of `s` that
      starts at its first non-whitespace character. */
  function TrimStart(s: string): (r: string)
    ensures |r| <= |s| && r == s[|s| - |r|..]
    ensures AllWhitespace(s[..|s| - |r|])
    ensures r == [] || !IsWhitespace(r[0])
  {
    if |s| > 0 && IsWhitespace(s[0]) then
      var r := TrimStart(s[1..]);
      assert s[1..][..|s| - 1 - |r|] == s[1..|s| - |r|];
      r
    else
      s
  }

  /** Drops the trailing whitespace: the result is the prefix of `s` that
      ends at its last non-whitespace character. */
  function TrimEnd(s: string): (r: string)
    ensures |r| <= |s| && r == s[..|r|]
    ensures AllWhitespace(s[|r|..])
    ensures r == [] || !IsWhitespace(r[|r| - 1])
  {
    if |s| > 0 && IsWhitespace(s[|s| - 1]) then
      var r := TrimEnd(s[..|s| - 1]);
      assert s[..|s| - 1][|r|..] + [s[|s| - 1]] == s[|r|..];
      r
    else
      s
  }

  /** String.prototype.trim. */
  function Trim(s: string): (r: string)
    ensures r == [] <==> AllWhitespace(s)
    ensures r == [] || (!IsWhitespace(r[0]) && !IsWhitespace(r[|r| - 1]))
  {
    var t := TrimStart(s);
    var r := TrimEnd(t);
    assert r != [] ==> r[0] == t[0];
    assert r == [] ==> s == s[..|s| - |t|] + t[|r|..];
    assert t != [] ==> t[0] == s[|s| - |t|];
    r
  }

  lemma {:induction false} TrimStartAround(pre: string, s: string)
    requires AllWhitespace(pre)
    requires s == [] || !IsWhitespace(s[0])
    ensures TrimStart(pre + s) == s
  {
    if pre != [] {
      assert (pre + s)[1..] == pre[1..] + s;
      TrimStartAround(pre[1..], s);
    }
  }

  lemma {:induction false} TrimEndAround(s: string, post: string)
    requires AllWhitespace(post)
    requires s == [] || !IsWhitespace(s[|s| - 1])
    ensures TrimEnd(s + post) == s
  {
    if post != [] {
      assert (s + post)[..|s + post| - 1] == s + post[..|post| - 1];
      TrimEndAround(s, post[..|post| - 1]);
    }
  }

  /** trim() removes exactly the surrounding whitespace: whatever whitespace
      surrounds a text that neither starts nor ends with whitespace, trim
      gives that text back. */
  lemma TrimAround(pre: string, s: string, post: string)
    requires AllWhitespace(pre) && AllWhitespace(post)
    requires s == [] || (!IsWhitespace(s[0]) && !IsWhitespace(s[|s| - 1]))
    ensures Trim(pre + s + post) == s
  {
    if s == [] {
      assert AllWhitespace(pre + s + post);
    } else {
      assert pre + s + post == pre + (s + post);
      TrimStartAround(pre, s + post);
      TrimEndAround(s, post);
    }
  }

  /** A text with no whitespace at either end is its own trim. */
  lemma TrimUnchanged(s: string)
    requires s == [] || (!IsWhitespace(s[0]) && !IsWhitespace(s[|s| - 1]))
    ensures Trim(s) == s
  {
    assert TrimStart(s) == s;
    assert TrimEnd(s) == s;
  }

  // ---------------------------------------------------------------------
  // Lower case
  // ---------------------------------------------------------------------

  /** The Basic Latin and Latin-1 capitals: A-Z and the accented capitals
      U+00C0..U+00DE except the sign U+00D7. */
  predicate IsCapital(c: char) {
    'A' <= c <= 'Z' || ('\U{C0}' <= c <= '\U{DE}' && c != '\U{D7}')
  }

  /** toLowerCase on one character: the result is never a capital, and a
      character that is not a capital is kept. */
  function LowerChar(c: char): (r: char)
    ensures !IsCapital(r)
    ensures !IsCapital(c) ==> r == c
  {
    if IsCapital(c) then
      (c as int + 32) as char
    else
      c
  }

  /** String.prototype.toLowerCase, character by character. */
  function ToLower(s: string): (r: string)
    ensures |r| == |s| && forall i :: 0 <= i < |s| ==> r[i] == LowerChar(s[i])
  {
    seq(|s|, i requires 0 <= i < |s| => LowerChar(s[i]))
  }

  predicate IsLower(s: string) {
    forall i :: 0 <= i < |s| ==> LowerChar(s[i]) == s[i]
  }

  lemma LowerUnchanged(s: string)
    requires IsLower(s)
    ensures ToLower(s) == s
  {
  }

  /** Lower-casing twice is lower-casing once. */
  lemma LowerIdempotent(s: string)
    ensures ToLower(ToLower(s)) == ToLower(s) && IsLower(ToLower(s))
  {
  }

  lemma {:induction false} TrimStartLower(s: string)
    ensures TrimStart(ToLower(s)) == ToLower(TrimStart(s))
  {
    if |s| > 0 && IsWhitespace(s[0]) {
      assert ToLower(s)[1..] == ToLower(s[1..]);
      TrimStartLower(s[1..]);
    }
  }

  lemma {:induction false} TrimEndLower(s: string)
    ensures TrimEnd(ToLower(s)) == ToLower(TrimEnd(s))
  {
    if |s| > 0 && IsWhitespace(s[|s| - 1]) {
      assert ToLower(s)[..|s| - 1] == ToLower(s[..|s| - 1]);
      TrimEndLower(s[..|s| - 1]);
    }
  }

  /** Lower-casing neither makes nor unmakes whitespace, so trimming and
      lower-casing can be done in either order. */
  lemma TrimLowerCommute(s: string)
    ensures Trim(ToLower(s)) == ToLower(Trim(s))
  {
    TrimStartLower(s);
    TrimEndLower(TrimStart(s));
  }

  // ---------------------------------------------------------------------
  // includes
  // ---------------------------------------------------------------------

  /** String.prototype.includes: `sub` occurs in `s` at some position. */
  predicate Contains(s: string, sub: string) {
    exists i :: 0 <= i <= |s| && OccursAt(s, sub, i)
  }

  predicate OccursAt(s: string, sub: string, i: nat) {
    i + |sub| <= |s| && s[i..i + |sub|] == sub
  }

  // ---------------------------------------------------------------------
  // The relational comparison a < b of two strings
  // ---------------------------------------------------------------------

  /** a < b on strings: lexicographic on characters, a proper prefix being
      smaller than the longer string. */
  predicate LexLess(a: string, b: string) {
    if a == [] then b != []
    else if b == [] then false
    else if a[0] != b[0] then a[0] < b[0]
    else LexLess(a[1..], b[1..])
  }

  lemma {:induction false} LexLessIrreflexive(a: string)
    ensures !LexLess(a, a)
  {
    if a != [] {
      LexLessIrreflexive(a[1..]);
    }
  }

  lemma {:induction false} LexLessAsymmetric(a: string, b: string)
    ensures !(LexLess(a, b) && LexLess(b, a))
  {
    if a != [] && b != [] && a[0] == b[0] {
      LexLessAsymmetric(a[1..], b[1..]);
    }
  }

  lemma {:induction false} LexLessTransitive(a: string, b: string, c: string)
    requires LexLess(a, b) && LexLess(b, c)
    ensures LexLess(a, c)
  {
    if a != [] && a[0] == b[0] && b[0] == c[0] {
      LexLessTransitive(a[1..], b[1..], c[1..]);
    }
  }

  lemma {:induction false} LexLessTotal(a: string, b: string)
    ensures a == b || LexLess(a, b) || LexLess(b, a)
  {
    if a != [] && b != [] && a[0] == b[0] {
      LexLessTotal(a[1..], b[1..]);
      assert a == [a[0]] + a[1..] && b == [b[0]] + b[1..];
    }
  }

  /** Comparing two strings whose first parts have the same length compares
      the first parts, and the second parts only when the first parts agree. */
  lemma {:induction false} LexLessSplit(p1: string, q1: string, p2: string, q2: string)
    requires |p1| == |p2|
    ensures LexLess(p1 + q1, p2 + q2) <==> LexLess(p1, p2) || (p1 == p2 && LexLess(q1, q2))
  {
    if p1 == [] {
      assert p1 + q1 == q1 && p2 + q2 == q2;
    } else {
      assert (p1 + q1)[0] == p1[0] && (p2 + q2)[0] == p2[0];
      assert (p1 + q1)[1..] == p1[1..] + q1 && (p2 + q2)[1..] == p2[1..] + q2;
      if p1[0] == p2[0] {
        LexLessSplit(p1[1..], q1, p2[1..], q2);
        assert p1 == p2 <==> p1[1..] == p2[1..] by {
          assert p1 == [p1[0]] + p1[1..] && p2 == [p2[0]] + p2[1..];
        }
      }
    }
  }

  // ---------------------------------------------------------------------
  // Decimal digits: parseInt, String(n), padStart
  // ---------------------------------------------------------------------

  /** The class \d of a regular expression: the ASCII digits only. */
  predicate IsAsciiDigit(c: char) {
    '0' <= c <= '9'
  }

  predicate AllDigits(s: string) {
    forall i :: 0 <= i < |s| ==> IsAsciiDigit(s[i])
  }

  function DigitChar(d: nat): (c: char)
    requires d < 10
    ensures IsAsciiDigit(c)
  {
    ('0' as int + d) as char
  }

  function DigitValue(c: char): (d: nat)
    requires IsAsciiDigit(c)
    ensures d < 10 && DigitChar(d) == c
  {
    c as int - '0' as int
  }

  function Pow10(w: nat): (p: nat)
    ensures p >= 1
  {
    if w == 0 then 1 else 10 * Pow10(w - 1)
  }

  /** parseInt(s, 10) on a string of decimal digits. */
  function ParseDigits(s: string): (n: nat)
    requires AllDigits(s)
    ensures n < Pow10(|s|)
  {
    if s == [] then 0 else ParseDigits(s[..|s| - 1]) * 10 + DigitValue(s[|s| - 1])
  }

  /** String(n): the decimal text of a non-negative integer, without leading
      zeros; parseInt reads it back as n. */
  function DecimalText(n: nat): (r: string)
    ensures |r| >= 1 && AllDigits(r)
    ensures ParseDigits(r) == n
    ensures |r| > 1 ==> r[0] != '0'
  {
    if n < 10 then
      [DigitChar(n)]
    else
      var t := DecimalText(n / 10);
      var r := t + [DigitChar(n % 10)];
      assert r[..|r| - 1] == t;
      r
  }

  /** The last `w` decimal digits of n, with leading zeros. */
  function DigitsOf(n: nat, w: nat): (r: string)
    ensures |r| == w && AllDigits(r)
  {
    if w == 0 then [] else DigitsOf(n / 10, w - 1) + [DigitChar(n % 10)]
  }

  /** String.prototype.padStart. */
  function PadStart(s: string, w: nat, fill: char): (r: string)
    ensures |r| == if |s| >= w then |s| else w
    ensures r[|r| - |s|..] == s
    ensures forall i :: 0 <= i < |r| - |s| ==> r[i] == fill
  {
    if |s| >= w then s else seq(w - |s|, _ => fill) + s
  }

  lemma {:induction false} ParseDigitsOf(n: nat, w: nat)
    requires n < Pow10(w)
    ensures ParseDigits(DigitsOf(n, w)) == n
  {
    if w > 0 {
      var r := DigitsOf(n, w);
      assert r[..w - 1] == DigitsOf(n / 10, w - 1);
      ParseDigitsOf(n / 10, w - 1);
    }
  }

  lemma {:induction false} DecimalTextFits(n: nat, w: nat)
    requires 1 <= w && n < Pow10(w)
    ensures |DecimalText(n)| <= w
  {
    if n >= 10 {
      assert Pow10(1) == 10;
      assert w >= 2;
      DecimalTextFits(n / 10, w - 1);
    }
  }

  lemma {:induction false} DigitsOfZero(w: nat)
    ensures DigitsOf(0, w) == seq(w, _ => '0')
  {
    if w > 0 {
      DigitsOfZero(w - 1);
    }
  }

  lemma PadStartAppend(t: string, c: char, w: nat)
    requires 1 <= w && |t| <= w - 1
    ensures PadStart(t + [c], w, '0') == PadStart(t, w - 1, '0') + [c]
  {
    assert seq(w - |t + [c]|, _ => '0') == seq(w - 1 - |t|, _ => '0');
  }

  lemma PadDigit(d: nat, w: nat)
    requires 1 <= w && d < 10
    ensures PadStart([DigitChar(d)], w, '0') == DigitsOf(d, w)
  {
    assert d / 10 == 0 && d % 10 == d;
    assert DigitsOf(d, w) == DigitsOf(0, w - 1) + [DigitChar(d)];
    DigitsOfZero(w - 1);
    if w > 1 {
      assert PadStart([DigitChar(d)], w, '0') == seq(w - 1, _ => '0') + [DigitChar(d)];
    }
  }

  /** Padding String(n) with zeros to the width w (the formats YYYY, MM and
      DD) gives the w-digit rendering of n whenever n has at most w digits. */
  lemma {:induction false} PadDecimal(n: nat, w: nat)
    requires 1 <= w && n < Pow10(w)
    ensures PadStart(DecimalText(n), w, '0') == DigitsOf(n, w)
  {
    if n < 10 {
      PadDigit(n, w);
    } else {
      assert Pow10(1) == 10;
      var t := DecimalText(n / 10);
      DecimalTextFits(n / 10, w - 1);
      PadDecimal(n / 10, w - 1);
      PadStartAppend(t, DigitChar(n % 10), w);
    }
  }

  /** Fixed-width renderings of numbers compare as strings the way the
      numbers compare. */
  lemma {:induction false} DigitsOfOrder(a: nat, b: nat, w: nat)
    requires a < Pow10(w) && b < Pow10(w)
    ensures LexLess(DigitsOf(a, w), DigitsOf(b, w)) <==> a < b
    ensures DigitsOf(a, w) == DigitsOf(b, w) <==> a == b
  {
    if w > 0 {
      DigitsOfOrder(a / 10, b / 10, w - 1);
      var da, db := DigitChar(a % 10), DigitChar(b % 10);
      LexLessSplit(DigitsOf(a / 10, w - 1), [da], DigitsOf(b / 10, w - 1), [db]);
      assert LexLess([da], [db]) <==> a % 10 < b % 10 by {
        if da == db {
          assert [da][1..] == [] && [db][1..] == [];
        }
      }
      assert DigitsOf(a, w) == DigitsOf(b, w) ==> da == db && DigitsOf(a / 10, w - 1) == DigitsOf(b / 10, w - 1) by {
        if DigitsOf(a, w) == DigitsOf(b, w) {
          assert DigitsOf(a, w)[..w - 1] == DigitsOf(a / 10, w - 1);
          assert DigitsOf(b, w)[..w - 1] == DigitsOf(b / 10, w - 1);
          assert DigitsOf(a, w)[w - 1] == da && DigitsOf(b, w)[w - 1] == db;
        }
      }
    }
  }

  // ---------------------------------------------------------------------
  // Numbers
  // ---------------------------------------------------------------------

  /** Number.isInteger, which zod's .int() applies. */
  predicate IsInteger(x: real) {
    x.Floor as real == x
  }
}
