/**
 * Character classes and the string library functions the PHP code relies on:
 * lower-casing, PCRE whitespace splitting, `trim`, `empty`, `intval`,
 * `substr`-based truncation and SQL `LIKE '%q%'` matching.
 *
 * Strings are sequences of characters and one character stands for one byte
 * (PHP's `strlen` and `substr` count bytes). Letters, digits and case folding
 * are those of ASCII.
 */
module Text {
  import opened Numeric

  /** A character PCRE's `\s` matches: space, tab, line feed, vertical tab, form feed, carriage return. */
  predicate IsSpace(c: char) {
    c == ' ' || c == '\t' || c == '\n' || c == '\U{0B}' || c == '\U{0C}' || c == '\r'
  }

  /** A character PHP's `trim` strips by default: space, tab, line feed, carriage return, NUL, vertical tab. */
  predicate IsTrimChar(c: char) {
    c == ' ' || c == '\t' || c == '\n' || c == '\r' || c == '\0' || c == '\U{0B}'
  }

  predicate IsLetter(c: char) {
    'a' <= c <= 'z' || 'A' <= c <= 'Z'
  }

  predicate IsDigit(c: char) {
    '0' <= c <= '9'
  }

  predicate IsUpper(c: char) {
    'A' <= c <= 'Z'
  }

  /** Case folding of one character: upper-case letters become lower-case, everything else is kept. */
  function Lower(c: char): (d: char)
    ensures !IsUpper(d)
    ensures IsLetter(d) <==> IsLetter(c)
    ensures !IsUpper(c) ==> d == c
  {
    if IsUpper(c) then (c as int + 32) as char else c
  }

  /** Lower-casing neither makes nor unmakes a trim character or the digit zero. */
  lemma LowerChar(c: char)
    ensures IsTrimChar(Lower(c)) <==> IsTrimChar(c)
    ensures Lower(c) == '0' <==> c == '0'
  {
    if IsUpper(c) {
      assert IsLetter(Lower(c));
    }
  }

  /** `strtolower` / `mb_strtolower`: folds every character. */
  function LowerStr(s: string): (r: string)
    ensures |r| == |s|
    ensures forall k :: 0 <= k < |s| ==> r[k] == Lower(s[k])
  {
    seq(|s|, k requires 0 <= k < |s| => Lower(s[k]))
  }

  predicate IsLowerStr(s: string) {
    forall k :: 0 <= k < |s| ==> !IsUpper(s[k])
  }

  lemma LowerStrFixes(s: string)
    ensures IsLowerStr(LowerStr(s))
    ensures IsLowerStr(s) ==> LowerStr(s) == s
  {
  }

  // ---------------------------------------------------------------------------
  // Splitting on whitespace

  /** A token of a whitespace split: non-empty and free of whitespace. */
  predicate IsWord(w: string) {
    |w| > 0 && forall k :: 0 <= k < |w| ==> !IsSpace(w[k])
  }

  /** The end of the run of non-whitespace characters that starts at `i`. */
  function WordEnd(s: string, i: nat): (j: nat)
    requires i <= |s|
    ensures i <= j <= |s|
    ensures forall k :: i <= k < j ==> !IsSpace(s[k])
    ensures j == |s| || IsSpace(s[j])
    decreases |s| - i
  {
    if i == |s| || IsSpace(s[i]) then i else WordEnd(s, i + 1)
  }

  /** `preg_split('/\s+/', s, -1, PREG_SPLIT_NO_EMPTY)`: the maximal runs of non-whitespace, in order. */
  function Split(s: string): (r: seq<string>)
    ensures forall k :: 0 <= k < |r| ==> IsWord(r[k])
    decreases |s|
  {
    if s == [] then []
    else if IsSpace(s[0]) then Split(s[1..])
    else
      var j := WordEnd(s, 0);
      [s[..j]] + Split(s[j..])
  }

  /** Words separated by single spaces (the inverse of `Split` on words). */
  function Join(ws: seq<string>): string {
    if ws == [] then []
    else if |ws| == 1 then ws[0]
    else ws[0] + " " + Join(ws[1..])
  }

  lemma {:induction false} WordEndAfterWord(w: string, rest: string, i: nat)
    requires IsWord(w) && i <= |w|
    requires rest == [] || IsSpace(rest[0])
    ensures WordEnd(w + rest, i) == |w|
    decreases |w| - i
  {
    var s := w + rest;
    if i < |w| {
      assert s[i] == w[i];
      WordEndAfterWord(w, rest, i + 1);
    } else if rest != [] {
      assert s[i] == rest[0];
    }
  }

  /** Splitting words joined by single spaces gives the words back. */
  lemma {:induction false} SplitJoin(ws: seq<string>)
    requires forall k :: 0 <= k < |ws| ==> IsWord(ws[k])
    ensures Split(Join(ws)) == ws
  {
    if ws != [] {
      var w := ws[0];
      var rest := if |ws| == 1 then [] else " " + Join(ws[1..]);
      assert Join(ws) == w + rest;
      WordEndAfterWord(w, rest, 0);
      var s := w + rest;
      assert s[0] == w[0];
      assert s[..|w|] == w;
      assert s[|w|..] == rest;
      if |ws| > 1 {
        assert rest[1..] == Join(ws[1..]);
        SplitJoin(ws[1..]);
        assert Split(rest) == ws[1..];
        assert ws == [w] + ws[1..];
      }
    }
  }

  // ---------------------------------------------------------------------------
  // trim and empty

  function TrimStart(s: string): (r: string)
    ensures |r| <= |s| && r == s[|s| - |r|..]
    ensures r == [] || !IsTrimChar(r[0])
    decreases |s|
  {
    if s != [] && IsTrimChar(s[0]) then TrimStart(s[1..]) else s
  }

  function TrimEnd(s: string): (r: string)
    ensures |r| <= |s| && r == s[..|r|]
    ensures r == [] || !IsTrimChar(r[|r| - 1])
    decreases |s|
  {
    if s != [] && IsTrimChar(s[|s| - 1]) then TrimEnd(s[..|s| - 1]) else s
  }

  /** PHP `trim`: strips the default trim characters from both ends. */
  function Trim(s: string): (r: string)
    ensures |r| <= |s|
    ensures r == [] || (!IsTrimChar(r[0]) && !IsTrimChar(r[|r| - 1]))
  {
    TrimEnd(TrimStart(s))
  }

  /** Trimming a string that neither starts nor ends with a trim character changes nothing. */
  lemma TrimKeeps(s: string)
    requires s == [] || (!IsTrimChar(s[0]) && !IsTrimChar(s[|s| - 1]))
    ensures Trim(s) == s
  {
  }

  /** PHP `empty()` on a string: true for "" and for "0". */
  predicate IsFalsy(s: string) {
    s == "" || s == "0"
  }

  // ---------------------------------------------------------------------------
  // Truncation for previews

  /** `substr(s, 0, n) . (strlen(s) > n ? '...' : '')`. */
  function Truncate(s: string, n: nat): (r: string)
    ensures |s| <= n ==> r == s
    ensures |s| > n ==> |r| == n + 3 && r[..n] == s[..n] && r[n..] == "..."
  {
    if |s| > n then s[..n] + "..." else s
  }

  /** A preview is never longer than the limit plus the ellipsis, and truncating a preview again changes nothing. */
  lemma TruncateStable(s: string, n: nat)
    ensures |Truncate(s, n)| <= n + 3
    ensures Truncate(Truncate(s, n), n) == Truncate(s, n)
  {
    if |s| > n {
      var r := Truncate(s, n);
      assert r[..n] == s[..n];
    }
  }

  // ---------------------------------------------------------------------------
  // intval and decimal rendering

  /** The whitespace PHP accepts before a numeric string. */
  predicate IsNumericSpace(c: char) {
    c == ' ' || c == '\t' || c == '\n' || c == '\r' || c == '\U{0B}' || c == '\U{0C}'
  }

  function SkipNumericSpace(s: string): (r: string)
    ensures r == [] || !IsNumericSpace(r[0])
    decreases |s|
  {
    if s != [] && IsNumericSpace(s[0]) then SkipNumericSpace(s[1..]) else s
  }

  /** The length of the run of digits at the start of `s`. */
  function DigitRun(s: string): (n: nat)
    ensures n <= |s|
    ensures forall k :: 0 <= k < n ==> IsDigit(s[k])
    ensures n == |s| || !IsDigit(s[n])
  {
    if s != [] && IsDigit(s[0]) then 1 + DigitRun(s[1..]) else 0
  }

  function DigitsValue(d: string): nat
    requires forall k :: 0 <= k < |d| ==> IsDigit(d[k])
  {
    if d == [] then 0
    else
      assert IsDigit(d[|d| - 1]);
      10 * DigitsValue(d[..|d| - 1]) + (d[|d| - 1] as int - '0' as int)
  }

  function LeadingValue(s: string): nat {
    DigitsValue(s[..DigitRun(s)])
  }

  /** PHP_INT_MAX and PHP_INT_MIN of a 64-bit build. */
  const PhpIntMax := 0x7FFF_FFFF_FFFF_FFFF
  const PhpIntMin := -0x8000_0000_0000_0000

  /** A numeric string's value outside the 64-bit range saturates at its nearer end. */
  function Saturate(v: int): int {
    if v > PhpIntMax then PhpIntMax else if v < PhpIntMin then PhpIntMin else v
  }

  /** Saturation lands in the 64-bit range, keeps a value already in it, and sends any other to the nearer end. */
  lemma SaturateRange(v: int)
    ensures PhpIntMin <= Saturate(v) <= PhpIntMax
    ensures PhpIntMin <= v <= PhpIntMax ==> Saturate(v) == v
    ensures v > PhpIntMax ==> Saturate(v) == PhpIntMax
    ensures v < PhpIntMin ==> Saturate(v) == PhpIntMin
  {
  }

  /**
   * The exponent at the start of `s`: "e" or "E", an optional sign and at least
   * one digit. Without the digits the "e" is not part of the number, which
   * reads as an exponent of 0.
   */
  function Exponent(s: string): int {
    if s != [] && (s[0] == 'e' || s[0] == 'E') then
      var u := s[1..];
      var digits := if u != [] && (u[0] == '-' || u[0] == '+') then u[1..] else u;
      if u != [] && u[0] == '-' then 0 - LeadingValue(digits) as int else LeadingValue(digits)
    else 0
  }

  /** A numeric prefix taken apart: the digits before the ".", the digits after it, and what follows them. */
  datatype Mantissa = Mantissa(whole: string, fraction: string, rest: string)

  /** Digits, then optionally "." and more digits; `rest` is what follows. */
  function SplitMantissa(t: string): (m: Mantissa)
    ensures IsDigits(m.whole) && IsDigits(m.fraction)
  {
    var w := DigitRun(t);
    var after := t[w..];
    if after != [] && after[0] == '.' then
      var f := DigitRun(after[1..]);
      Mantissa(t[..w], after[1..][..f], after[1..][f..])
    else Mantissa(t[..w], [], after)
  }

  /**
   * The magnitude, truncated toward zero, of the unsigned numeric prefix of `t`:
   * digits, then optionally "." and more digits, then optionally an exponent.
   * A prefix with no digit before or after the "." has the value 0.
   */
  function Magnitude(t: string): nat {
    MantissaValue(SplitMantissa(t))
  }

  /** The value of whole.fraction scaled by 10 to the exponent in `rest`, truncated toward zero. */
  function MantissaValue(m: Mantissa): nat
    requires IsDigits(m.whole) && IsDigits(m.fraction)
  {
    var n := Times(DigitsValue(m.whole), Pow10(|m.fraction|)) + DigitsValue(m.fraction);
    var shift := Exponent(m.rest) - |m.fraction|;
    if shift >= 0 then Times(n, Pow10(shift)) else Quotient(n, Pow10(0 - shift))
  }

  /** The product a * b, written as repeated addition. */
  function Times(a: nat, b: nat): nat {
    if b == 0 then 0 else Times(a, b - 1) + a
  }

  lemma {:induction false} TimesIsProduct(a: nat, b: nat)
    ensures Times(a, b) == a * b
  {
    if b > 0 {
      TimesIsProduct(a, b - 1);
    }
  }

  /** Division of naturals, which truncates toward zero, written as repeated subtraction. */
  function Quotient(a: nat, b: nat): nat
    requires b > 0
    decreases a
  {
    if a < b then 0 else 1 + Quotient(a - b, b)
  }

  lemma {:induction false} QuotientBounds(a: nat, b: nat)
    requires b > 0
    ensures Quotient(a, b) * b <= a < Quotient(a, b) * b + b
  {
    if a >= b {
      QuotientBounds(a - b, b);
      var q := Quotient(a - b, b);
      assert (q + 1) * b == q * b + b;
    }
  }

  lemma QuotientIsDivision(a: nat, b: nat)
    requires b > 0
    ensures Quotient(a, b) == a / b
  {
    QuotientBounds(a, b);
    DivisionUnique(a, b, Quotient(a, b));
  }

  /**
   * PHP 8 `intval` on a string: leading whitespace, an optional sign, then the
   * longest numeric prefix (digits, fraction, exponent). Its value is truncated
   * toward zero and saturates at PHP_INT_MIN and PHP_INT_MAX; no numeric prefix
   * gives 0.
   */
  function IntVal(s: string): (r: int)
    ensures PhpIntMin <= r <= PhpIntMax
  {
    var t := SkipNumericSpace(s);
    if t != [] && t[0] == '-' then Saturate(0 - Magnitude(t[1..]) as int)
    else if t != [] && t[0] == '+' then Saturate(Magnitude(t[1..]))
    else Saturate(Magnitude(t))
  }

  function DigitChar(d: nat): (c: char)
    requires d < 10
    ensures IsDigit(c) && c as int - '0' as int == d
  {
    ('0' as int + d) as char
  }

  /** The decimal representation of a natural number, without leading zeros. */
  function NatToString(n: nat): (s: string)
    ensures |s| > 0
    ensures forall k :: 0 <= k < |s| ==> IsDigit(s[k])
  {
    if n < 10 then [DigitChar(n)] else NatToString(n / 10) + [DigitChar(n % 10)]
  }

  lemma {:induction false} DigitsValueOfDecimal(n: nat)
    ensures DigitsValue(NatToString(n)) == n
  {
    if n >= 10 {
      var s := NatToString(n);
      assert s[..|s| - 1] == NatToString(n / 10);
      DigitsValueOfDecimal(n / 10);
    }
  }

  lemma {:induction false} DigitRunOfDigits(d: string, rest: string)
    requires forall k :: 0 <= k < |d| ==> IsDigit(d[k])
    requires rest == [] || !IsDigit(rest[0])
    ensures DigitRun(d + rest) == |d|
  {
    if d != [] {
      assert (d + rest)[1..] == d[1..] + rest;
      DigitRunOfDigits(d[1..], rest);
    } else {
      assert d + rest == rest;
    }
  }

  /** A character after which a run of digits is a whole number: not a digit, not a "." and not an exponent's "e". */
  predicate EndsNumber(rest: string) {
    rest == [] || (!IsDigit(rest[0]) && rest[0] != '.' && rest[0] != 'e' && rest[0] != 'E')
  }

  /** Digits followed by anything that does not continue the number read as their value, saturated. */
  lemma IntValOfDigits(d: string, rest: string)
    requires d != [] && IsDigits(d) && EndsNumber(rest)
    ensures IntVal(d + rest) == Saturate(DigitsValue(d))
  {
    var s := d + rest;
    assert s[0] == d[0] && Magnitude(s) == DigitsValue(d) by {
      DigitRunOfDigits(d, rest);
      assert s[..|d|] == d && s[|d|..] == rest;
      assert SplitMantissa(s) == Mantissa(d, [], rest);
      MagnitudeWithoutExponent(s, d, [], rest);
    }
    IntValUnsigned(s);
  }

  /**
   * `intval` reads back a decimal number followed by anything that does not
   * continue it: "12_x" gives 12, and a number beyond PHP_INT_MAX gives PHP_INT_MAX.
   */
  lemma IntValOfDecimal(n: nat, rest: string)
    requires EndsNumber(rest)
    ensures IntVal(NatToString(n) + rest) == if n <= PhpIntMax then n else PhpIntMax
  {
    IntValOfDigits(NatToString(n), rest);
    DigitsValueOfDecimal(n);
  }

  /** The exponent form in an example: "1e3" is 1000, where reading only the leading digits would give 1. */
  lemma IntValExponentExample()
    ensures IntVal("1e3") == 1000
  {
    var d, x := "1", "3";
    assert "1e3" == d + (['e'] + (x + []));
    IntValOfScientific(d, x, []);
    assert DigitsValue(d) == 1 && DigitsValue(x) == 3;
    assert Pow10(3) == 1000;
  }

  /** An unsigned string starting with a digit reads as its magnitude. */
  lemma IntValUnsigned(s: string)
    requires s != [] && IsDigit(s[0])
    ensures IntVal(s) == Saturate(Magnitude(s))
  {
    assert SkipNumericSpace(s) == s;
  }

  predicate IsDigits(d: string) {
    forall k :: 0 <= k < |d| ==> IsDigit(d[k])
  }

  /** "<d>e<x><rest>" taken apart: d's digits with no fraction, and the exponent x. */
  lemma ScientificParts(d: string, x: string, rest: string)
    requires d != [] && IsDigits(d) && x != [] && IsDigits(x)
    requires rest == [] || !IsDigit(rest[0])
    ensures var tail := ['e'] + (x + rest);
            && SplitMantissa(d + tail) == Mantissa(d, [], tail)
            && Exponent(tail) == DigitsValue(x)
  {
    var tail := ['e'] + (x + rest);
    DigitRunOfDigits(d, tail);
    assert (d + tail)[..|d|] == d && (d + tail)[|d|..] == tail;
    assert SplitMantissa(d + tail) == Mantissa(d, [], tail);
    assert tail[1..] == x + rest;
    assert (x + rest)[0] == x[0];
    DigitRunOfDigits(x, rest);
    assert (x + rest)[..|x|] == x;
  }

  /** The exponent form: digits d, "e", digits x and anything that is not a digit read as d * 10^x, so "1e3" is 1000. */
  lemma IntValOfScientific(d: string, x: string, rest: string)
    requires d != [] && IsDigits(d) && x != [] && IsDigits(x)
    requires rest == [] || !IsDigit(rest[0])
    ensures IntVal(d + (['e'] + (x + rest))) == Saturate(DigitsValue(d) * Pow10(DigitsValue(x)))
  {
    var tail := ['e'] + (x + rest);
    var s := d + tail;
    assert s[0] == d[0] && Magnitude(s) == DigitsValue(d) * Pow10(DigitsValue(x)) by {
      ScientificParts(d, x, rest);
      assert Magnitude(s) == MantissaValue(Mantissa(d, [], tail));
      ScientificValue(d, tail, DigitsValue(x));
    }
    IntValUnsigned(s);
  }

  /** Digits with no fraction scaled by an exponent e: their value times 10^e. */
  lemma ScientificValue(d: string, tail: string, e: nat)
    requires IsDigits(d) && Exponent(tail) == e
    ensures MantissaValue(Mantissa(d, [], tail)) == DigitsValue(d) * Pow10(e)
  {
    assert Times(DigitsValue(d), Pow10(0)) == DigitsValue(d);
    TimesIsProduct(DigitsValue(d), Pow10(e));
  }

  /** A fraction's digits are worth less than one unit of the digit before it. */
  lemma {:induction false} DigitsValueBelow(f: string)
    requires forall k :: 0 <= k < |f| ==> IsDigit(f[k])
    ensures DigitsValue(f) < Pow10(|f|)
  {
    if f != [] {
      DigitsValueBelow(f[..|f| - 1]);
    }
  }

  /** Dropping the fraction: (n * p + r) / p is n when r < p. */
  lemma DropFraction(n: nat, p: nat, r: nat)
    requires r < p
    ensures Quotient(Times(n, p) + r, p) == n
  {
    TimesIsProduct(n, p);
    QuotientIsDivision(n * p + r, p);
    DivisionUnique(n * p + r, p, n);
  }

  /** "<d>.<f><rest>" taken apart: the digits before and after the ".", and no exponent. */
  lemma FractionParts(d: string, f: string, rest: string)
    requires d != [] && IsDigits(d) && IsDigits(f) && EndsNumber(rest)
    ensures SplitMantissa(d + (['.'] + (f + rest))) == Mantissa(d, f, rest)
    ensures Exponent(rest) == 0
  {
    var after := ['.'] + (f + rest);
    DigitRunOfDigits(d, after);
    assert (d + after)[..|d|] == d && (d + after)[|d|..] == after;
    assert after[1..] == f + rest;
    DigitRunOfDigits(f, rest);
    assert (f + rest)[..|f|] == f && (f + rest)[|f|..] == rest;
  }

  /** Without an exponent the fraction is dropped: the magnitude is the value of the whole digits. */
  lemma MagnitudeWithoutExponent(t: string, whole: string, fraction: string, rest: string)
    requires SplitMantissa(t) == Mantissa(whole, fraction, rest) && Exponent(rest) == 0
    ensures IsDigits(whole) && Magnitude(t) == DigitsValue(whole)
  {
    assert IsDigits(whole) && IsDigits(fraction);
    assert Magnitude(t) == MantissaValue(Mantissa(whole, fraction, rest));
    DigitsValueBelow(fraction);
    var value := Times(DigitsValue(whole), Pow10(|fraction|)) + DigitsValue(fraction);
    if |fraction| > 0 {
      DropFraction(DigitsValue(whole), Pow10(|fraction|), DigitsValue(fraction));
    } else {
      assert Times(DigitsValue(whole), 1) == DigitsValue(whole);
    }
  }

  /**
   * A fraction is truncated toward zero: digits d, ".", more digits and
   * anything that does not continue the number read as d's value, so "2.7" is 2.
   */
  lemma IntValOfFraction(d: string, f: string, rest: string)
    requires d != [] && IsDigits(d) && IsDigits(f) && EndsNumber(rest)
    ensures IntVal(d + (['.'] + (f + rest))) == Saturate(DigitsValue(d))
  {
    FractionMagnitude(d, f, rest);
    IntValUnsigned(d + (['.'] + (f + rest)));
  }

  /** The magnitude of "<d>.<f><rest>" is the value of d. */
  lemma FractionMagnitude(d: string, f: string, rest: string)
    requires d != [] && IsDigits(d) && IsDigits(f) && EndsNumber(rest)
    ensures var t := d + (['.'] + (f + rest));
            t != [] && IsDigit(t[0]) && Magnitude(t) == DigitsValue(d)
  {
    var t := d + (['.'] + (f + rest));
    assert t[0] == d[0];
    FractionParts(d, f, rest);
    MagnitudeWithoutExponent(t, d, f, rest);
  }

  /**
   * A "-" before a string starting with a digit negates its magnitude, which
   * is already truncated, so a negative fraction is truncated toward zero:
   * "-2.7" is -2, not -3.
   */
  lemma IntValNegative(t: string)
    requires t != [] && IsDigit(t[0])
    ensures IntVal(['-'] + t) == Saturate(0 - Magnitude(t))
  {
    var s := ['-'] + t;
    assert SkipNumericSpace(s) == s;
    assert s[1..] == t;
  }

  // ---------------------------------------------------------------------------
  // SQL LIKE '%q%'

  predicate OccursAt(needle: string, hay: string, i: int) {
    0 <= i <= |hay| - |needle| && hay[i..i + |needle|] == needle
  }

  /** `needle` occurs as a contiguous part of `hay`. */
  predicate Occurs(needle: string, hay: string) {
    exists i | 0 <= i <= |hay| - |needle| :: OccursAt(needle, hay, i)
  }

  /** `hay LIKE '%q%'` under a case-insensitive collation. */
  predicate Like(hay: string, q: string) {
    Occurs(LowerStr(q), LowerStr(hay))
  }
}
