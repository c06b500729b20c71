/**
 * The parts of ECMAScript's String handling the upload form relies on:
 * `trim`, `split` on a one-character separator, `startsWith`, and the
 * unary `+` conversion of a string to a number.
 */
module JsString {

  /**
   * ECMAScript WhiteSpace and LineTerminator code points: what `trim` removes
   * and what the string-to-number conversion ignores around a literal.
   */
  predicate IsWhiteSpace(c: char) {
    var n := c as int;
    || 9 <= n <= 13 || n == 32 || n == 0xA0 || n == 0x1680 || 0x2000 <= n <= 0x200A
    || n == 0x2028 || n == 0x2029 || n == 0x202F || n == 0x205F || n == 0x3000 || n == 0xFEFF
  }

  predicate AllWhiteSpace(s: string) {
    forall i :: 0 <= i < |s| ==> IsWhiteSpace(s[i])
  }

  /** The index of the first character from `i` on that is not white space, or |s|. */
  function SkipSpace(s: string, i: nat): (k: nat)
    requires i <= |s|
    ensures i <= k <= |s|
    ensures forall j :: i <= j < k ==> IsWhiteSpace(s[j])
    ensures k < |s| ==> !IsWhiteSpace(s[k])
    decreases |s| - i
  {
    if i < |s| && IsWhiteSpace(s[i]) then SkipSpace(s, i + 1) else i
  }

  /** The end of `s[lo..hi]` once its trailing white space is dropped. */
  function SkipSpaceBack(s: string, lo: nat, hi: nat): (k: nat)
    requires lo <= hi <= |s|
    ensures lo <= k <= hi
    ensures forall j :: k <= j < hi ==> IsWhiteSpace(s[j])
    ensures lo < k ==> !IsWhiteSpace(s[k - 1])
    decreases hi
  {
    if lo < hi && IsWhiteSpace(s[hi - 1]) then SkipSpaceBack(s, lo, hi - 1) else hi
  }

  /**
   * `s.trim()`: the infix of `s` that starts at the first and ends at the last
   * character that is not white space; empty exactly when `s` is all white space.
   */
  function Trim(s: string): (r: string)
    ensures var a := SkipSpace(s, 0);
            && a + |r| <= |s| && r == s[a..a + |r|]
            && (forall j :: 0 <= j < a ==> IsWhiteSpace(s[j]))
            && (forall j :: a + |r| <= j < |s| ==> IsWhiteSpace(s[j]))
    ensures r == [] || (!IsWhiteSpace(r[0]) && !IsWhiteSpace(r[|r| - 1]))
    ensures r == [] <==> AllWhiteSpace(s)
  {
    var a := SkipSpace(s, 0);
    var b := SkipSpaceBack(s, a, |s|);
    assert a < |s| ==> a < b;
    s[a..b]
  }

  /** A string with no white space at either end is its own trim. */
  lemma TrimOfTrimmed(s: string)
    requires s == [] || (!IsWhiteSpace(s[0]) && !IsWhiteSpace(s[|s| - 1]))
    ensures Trim(s) == s
  {
    if s != [] {
      assert SkipSpace(s, 0) == 0;
      assert SkipSpaceBack(s, 0, |s|) == |s|;
    }
  }

  /** Trimming twice is trimming once. */
  lemma TrimIdempotent(s: string)
    ensures Trim(Trim(s)) == Trim(s)
  {
    TrimOfTrimmed(Trim(s));
  }

  /** `s.startsWith(prefix)`. */
  predicate StartsWith(s: string, prefix: string) {
    |prefix| <= |s| && s[..|prefix|] == prefix
  }

  /** `parts.join(sep)` for a one-character separator. */
  function Join(parts: seq<string>, sep: char): string
    requires |parts| >= 1
  {
    if |parts| == 1 then parts[0] else parts[0] + [sep] + Join(parts[1..], sep)
  }

  /** `s.split(sep)` for a one-character separator: always at least one part. */
  function Split(s: string, sep: char): (parts: seq<string>)
    ensures |parts| >= 1
    ensures forall i :: 0 <= i < |parts| ==> sep !in parts[i]
    ensures Join(parts, sep) == s
  {
    if s == [] then [""]
    else
      var rest := Split(s[1..], sep);
      if s[0] == sep then
        assert ([""] + rest)[1..] == rest;
        [""] + rest
      else
        var parts := [[s[0]] + rest[0]] + rest[1..];
        assert parts[1..] == rest[1..];
        assert |rest| > 1 ==> Join(rest, sep) == rest[0] + [sep] + Join(rest[1..], sep);
        parts
  }

  /** Splitting a join of separator-free parts gives the parts back. */
  lemma {:induction false} SplitJoin(parts: seq<string>, sep: char)
    requires |parts| >= 1
    requires forall i :: 0 <= i < |parts| ==> sep !in parts[i]
    ensures Split(Join(parts, sep), sep) == parts
  {
    if |parts| == 1 {
      SplitNoSeparator(parts[0], sep);
    } else {
      SplitJoin(parts[1..], sep);
      SplitPrefix(parts[0], Join(parts[1..], sep), sep);
    }
  }

  lemma {:induction false} SplitNoSeparator(s: string, sep: char)
    requires sep !in s
    ensures Split(s, sep) == [s]
  {
    if s != [] {
      SplitNoSeparator(s[1..], sep);
      assert [s[0]] + s[1..] == s;
    }
  }

  lemma {:induction false} SplitPrefix(a: string, b: string, sep: char)
    requires sep !in a
    ensures Split(a + [sep] + b, sep) == [a] + Split(b, sep)
  {
    if a == [] {
      assert ([] + [sep] + b)[1..] == b;
    } else {
      assert (a + [sep] + b)[1..] == a[1..] + [sep] + b;
      SplitPrefix(a[1..], b, sep);
      assert [a[0]] + a[1..] == a;
    }
  }

  /** A JavaScript number produced from a string: a finite value or NaN. */
  datatype Num = Finite(value: real) | NaN

  predicate IsDigit(c: char) { '0' <= c <= '9' }

  predicate AllDigits(s: string) { forall i :: 0 <= i < |s| ==> IsDigit(s[i]) }

  /** The value of a string of decimal digits, most significant first. */
  function DigitsValue(s: string): nat
    requires AllDigits(s)
  {
    if s == [] then 0 else 10 * DigitsValue(s[..|s| - 1]) + (s[|s| - 1] - '0') as nat
  }

  function Pow10(n: nat): (p: nat)
    ensures p >= 1
  {
    if n == 0 then 1 else 10 * Pow10(n - 1)
  }

  /** Position of the first '.' in `s`, or |s| when there is none. */
  function DotIndex(s: string): (k: nat)
    ensures k <= |s|
    ensures k < |s| ==> s[k] == '.'
    ensures forall j :: 0 <= j < k ==> s[j] != '.'
  {
    if s == [] then 0 else if s[0] == '.' then 0 else 1 + DotIndex(s[1..])
  }

  /**
   * An unsigned decimal literal without exponent: digits, optionally a '.'
   * followed by digits, with at least one digit in all.
   */
  function UnsignedDecimal(s: string): Num {
    var k := DotIndex(s);
    var whole, frac := s[..k], if k < |s| then s[k + 1..] else [];
    if AllDigits(whole) && AllDigits(frac) && |whole| + |frac| > 0 then
      Finite(DigitsValue(whole) as real + DigitsValue(frac) as real / Pow10(|frac|) as real)
    else NaN
  }

  /** A character that can appear in a decimal literal with a sign. */
  predicate IsNumberChar(c: char) {
    IsDigit(c) || c == '.' || c == '+' || c == '-'
  }

  /** A finite unsigned literal is made of digits and the decimal point. */
  lemma UnsignedDecimalChars(s: string)
    requires UnsignedDecimal(s).Finite?
    ensures forall i :: 0 <= i < |s| ==> IsDigit(s[i]) || s[i] == '.'
  {
    var k := DotIndex(s);
    var whole, frac := s[..k], if k < |s| then s[k + 1..] else [];
    forall i | 0 <= i < |s|
      ensures IsDigit(s[i]) || s[i] == '.'
    {
      if i < k {
        assert s[i] == whole[i];
      } else if k < i {
        assert s[i] == frac[i - k - 1];
      }
    }
  }

  /**
   * Unary `+` on a string (ECMAScript StringToNumber): white space around the
   * literal is ignored, the empty string is 0, a leading sign is allowed, and
   * anything that is not a decimal literal is NaN.
   */
  function ToNumber(s: string): (r: Num)
    ensures AllWhiteSpace(s) ==> r == Finite(0.0)
    ensures r.Finite? ==> forall i :: 0 <= i < |Trim(s)| ==> IsNumberChar(Trim(s)[i])
    ensures |Trim(s)| > 0 && Trim(s)[0] != '-' && Trim(s)[0] != '+' ==> r == UnsignedDecimal(Trim(s))
    ensures |Trim(s)| > 0 && Trim(s)[0] == '+' ==> r == UnsignedDecimal(Trim(s)[1..])
    ensures |Trim(s)| > 0 && Trim(s)[0] == '-' ==>
              r == match UnsignedDecimal(Trim(s)[1..]) case Finite(v) => Finite(-v) case NaN => NaN
  {
    var t := Trim(s);
    if t == [] then Finite(0.0)
    else if t[0] == '-' then
      match UnsignedDecimal(t[1..])
      case Finite(v) =>
        UnsignedDecimalChars(t[1..]);
        assert forall i :: 1 <= i < |t| ==> t[i] == t[1..][i - 1];
        Finite(-v)
      case NaN => NaN
    else if t[0] == '+' then
      var r := UnsignedDecimal(t[1..]);
      if r.Finite? then
        UnsignedDecimalChars(t[1..]);
        assert forall i :: 1 <= i < |t| ==> t[i] == t[1..][i - 1];
        r
      else r
    else
      var r := UnsignedDecimal(t);
      if r.Finite? then UnsignedDecimalChars(t); r else r
  }

  /** White space around a literal does not change the number it denotes. */
  lemma ToNumberIgnoresSpace(s: string)
    ensures ToNumber(Trim(s)) == ToNumber(s)
  {
    TrimIdempotent(s);
  }

  /** Decimal digits of a natural number, as `String(n)` writes them. */
  function NatToDecimal(n: nat): (s: string)
    ensures |s| >= 1 && AllDigits(s)
    decreases n
  {
    if n < 10 then [('0' as int + n) as char]
    else NatToDecimal(n / 10) + [('0' as int + n % 10) as char]
  }

  lemma {:induction false} DecimalDigitsValue(n: nat)
    ensures DigitsValue(NatToDecimal(n)) == n
    decreases n
  {
    var s := NatToDecimal(n);
    if n >= 10 {
      DecimalDigitsValue(n / 10);
      assert s[..|s| - 1] == NatToDecimal(n / 10);
    }
  }

  /** Converting the decimal form of a natural number back with `+` gives the number. */
  lemma NatToDecimalToNumber(n: nat)
    ensures ToNumber(NatToDecimal(n)) == Finite(n as real)
  {
    var s := NatToDecimal(n);
    DecimalIsTrimmed(n);
    assert s[0] != '-' && s[0] != '+' by { assert IsDigit(s[0]); }
    assert ToNumber(s) == UnsignedDecimal(s);
    WholeNumberLiteral(s);
    DecimalDigitsValue(n);
  }

  /** A string of digits alone is a whole-number literal. */
  lemma WholeNumberLiteral(s: string)
    requires |s| >= 1 && AllDigits(s)
    ensures UnsignedDecimal(s) == Finite(DigitsValue(s) as real)
  {
    DotIndexAbsent(s);
    assert s[..|s|] == s;
    var frac: string := [];
    assert DigitsValue(frac) == 0 && Pow10(|frac|) == 1;
    assert DigitsValue(frac) as real / Pow10(|frac|) as real == 0.0;
  }

  /** The decimal form of a number has no white space to trim. */
  lemma DecimalIsTrimmed(n: nat)
    ensures Trim(NatToDecimal(n)) == NatToDecimal(n)
  {
    var s := NatToDecimal(n);
    DigitsAreNotSpace(s);
    TrimOfTrimmed(s);
  }

  lemma DigitsAreNotSpace(s: string)
    requires |s| >= 1 && AllDigits(s)
    ensures !IsWhiteSpace(s[0]) && !IsWhiteSpace(s[|s| - 1])
  {
    assert IsDigit(s[0]) && IsDigit(s[|s| - 1]);
  }

  lemma {:induction false} DotIndexAbsent(s: string)
    requires AllDigits(s)
    ensures DotIndex(s) == |s|
  {
    if s != [] {
      assert IsDigit(s[0]);
      DotIndexAbsent(s[1..]);
    }
  }
}
