/** JavaScript number behaviour the sources depend on, for integral values:
    the 32-bit wrap of the bitwise operators, `Number.prototype.toString(radix)`
    and `parseInt(s, 10)` (whose NaN is `None`). */
module Numbers {
  import opened Options
  import Text

  const TWO32: int := 0x1_0000_0000
  const TWO31: int := 0x8000_0000

  /** ECMAScript ToInt32: the signed 32-bit integer congruent to `x`. */
  function Int32(x: int): (r: int)
    ensures -TWO31 <= r < TWO31
    ensures (x - r) % TWO32 == 0
  {
    (x + TWO31) % TWO32 - TWO31
  }

  /** Two integers congruent modulo 2^32 wrap to the same 32-bit value. */
  lemma Int32Congruent(a: int, b: int)
    requires (a - b) % TWO32 == 0
    ensures Int32(a) == Int32(b)
  {
    var k := (a - b) / TWO32;
    assert a + TWO31 == (b + TWO31) + k * TWO32;
    ModMultiple(b + TWO31, k);
  }

  lemma {:induction false} ModMultiple(x: int, k: int)
    ensures (x + k * TWO32) % TWO32 == x % TWO32
    decreases if k < 0 then -k else k
  {
    if k > 0 {
      ModMultiple(x, k - 1);
      assert x + k * TWO32 == (x + (k - 1) * TWO32) + TWO32;
    } else if k < 0 {
      ModMultiple(x, k + 1);
      assert x + k * TWO32 == (x + (k + 1) * TWO32) - TWO32;
    }
  }

  /** The digit character of `toString(radix)` for the value `v`: `0`-`9`,
      then the lower-case letters. */
  function DigitChar(v: nat): (c: char)
    requires v < 36
  {
    if v < 10 then ('0' as int + v) as char else ('a' as int + v - 10) as char
  }

  /** The value of one digit character, or -1 for any other character. */
  function DigitValue(c: char): (v: int)
    ensures -1 <= v < 36
    ensures 0 <= v ==> DigitChar(v) == c
  {
    if '0' <= c <= '9' then c as int - '0' as int
    else if 'a' <= c <= 'z' then c as int - 'a' as int + 10
    else -1
  }

  predicate IsDecimalDigit(c: char) {
    '0' <= c <= '9'
  }

  /** The digits of a natural number in base `radix`, most significant first,
      without leading zeros. */
  function NatDigits(n: nat, radix: nat): (r: string)
    requires 2 <= radix <= 36
    ensures r != []
    ensures |r| > 1 ==> r[0] != '0'
    ensures 0 <= DigitValue(r[0]) < radix
    decreases n
  {
    if n < radix then [DigitChar(n)]
    else
      DivModFacts(n, radix);
      NatDigits(n / radix, radix) + [DigitChar(n % radix)]
  }

  /** Every character of `NatDigits(n, radix)` is a digit below `radix`. */
  lemma {:induction false} NatDigitsAreDigits(n: nat, radix: nat)
    requires 2 <= radix <= 36
    ensures forall i :: 0 <= i < |NatDigits(n, radix)| ==> 0 <= DigitValue(NatDigits(n, radix)[i]) < radix
    decreases n
  {
    if n >= radix {
      DivModFacts(n, radix);
      NatDigitsAreDigits(n / radix, radix);
      var r, p := NatDigits(n, radix), NatDigits(n / radix, radix);
      assert r == p + [DigitChar(n % radix)];
      assert forall i :: 0 <= i < |p| ==> r[i] == p[i];
    }
  }

  /** Euclidean division by a radix. */
  lemma DivModFacts(n: nat, radix: nat)
    requires 2 <= radix <= 36 && radix <= n
    ensures 0 <= n % radix < radix
    ensures 0 < n / radix < n
    ensures n == n / radix * radix + n % radix
  {
  }

  /** The number a digit string denotes in base `radix`. */
  function DigitsValue(s: string, radix: nat): int {
    if s == [] then 0 else DigitsValue(s[..|s| - 1], radix) * radix + DigitValue(s[|s| - 1])
  }

  /** Reading the digits back gives the number that was written. */
  lemma {:induction false} NatDigitsRoundTrip(n: nat, radix: nat)
    requires 2 <= radix <= 36
    ensures DigitsValue(NatDigits(n, radix), radix) == n
    decreases n
  {
    var r := NatDigits(n, radix);
    if n >= radix {
      DivModFacts(n, radix);
      NatDigitsRoundTrip(n / radix, radix);
      assert r[..|r| - 1] == NatDigits(n / radix, radix);
    }
  }

  /** `n.toString(radix)` for an integral `n`: a minus sign, then the digits
      of the magnitude. */
  function ToRadix(n: int, radix: nat): (r: string)
    requires 2 <= radix <= 36
    ensures r != [] && (r[0] == '-' <==> n < 0)
  {
    if n < 0 then "-" + NatDigits(-n, radix) else NatDigits(n, radix)
  }

  /** The longest prefix of `s` made of decimal digits. */
  function DecimalPrefix(s: string): (r: string)
    ensures r <= s
    ensures forall i :: 0 <= i < |r| ==> IsDecimalDigit(r[i])
    ensures |r| < |s| ==> !IsDecimalDigit(s[|r|])
  {
    if s != [] && IsDecimalDigit(s[0]) then [s[0]] + DecimalPrefix(s[1..]) else []
  }

  /** `parseInt(s, 10)`: leading white space, an optional sign, then the
      longest run of decimal digits; `None` (NaN) when there are no digits. */
  function ParseDecimal(s: string): (r: Option<int>)
    // NaN exactly when no digit follows the leading white space and the sign
    ensures r.None? <==> var t := Text.TrimStart(s);
                         var u := if t != [] && (t[0] == '-' || t[0] == '+') then t[1..] else t;
                         u == [] || !IsDecimalDigit(u[0])
    // only a leading minus gives a negative value
    ensures r.Some? && r.value < 0 ==> Text.TrimStart(s) != [] && Text.TrimStart(s)[0] == '-'
  {
    var t := Text.TrimStart(s);
    var negative := t != [] && t[0] == '-';
    var body := if t != [] && (t[0] == '-' || t[0] == '+') then t[1..] else t;
    var d := DecimalPrefix(body);
    if d == [] then None
    else
      var m := DigitsValue(d, 10);
      DecimalValueNonNegative(d);
      Some(if negative then -m else m)
  }

  /** Decimal digits denote a number that is not negative. */
  lemma {:induction false} DecimalValueNonNegative(s: string)
    requires forall i :: 0 <= i < |s| ==> IsDecimalDigit(s[i])
    ensures DigitsValue(s, 10) >= 0
  {
    if s != [] {
      DecimalValueNonNegative(s[..|s| - 1]);
    }
  }

  /** A string of decimal digits is its own longest digit prefix. */
  lemma {:induction false} DecimalPrefixOfDigits(s: string)
    requires forall i :: 0 <= i < |s| ==> IsDecimalDigit(s[i])
    ensures DecimalPrefix(s) == s
  {
    if s != [] {
      DecimalPrefixOfDigits(s[1..]);
    }
  }

  /** `parseInt(String(n), 10) == n`: printing an integer in decimal and
      parsing it back gives the integer. */
  lemma ParseDecimalOfToRadix(n: int)
    ensures ParseDecimal(ToRadix(n, 10)) == Some(n)
  {
    var m: nat := if n < 0 then -n else n;
    DecimalDigitsAreDecimal(m);
    NatDigitsRoundTrip(m, 10);
    if n < 0 {
      ParseDecimalOfNegated(NatDigits(m, 10));
    } else {
      ParseDecimalOfDigits(NatDigits(m, 10));
    }
  }

  /** A non-empty digit string parses as its value... */
  lemma ParseDecimalOfDigits(d: string)
    requires d != [] && forall i :: 0 <= i < |d| ==> IsDecimalDigit(d[i])
    ensures ParseDecimal(d) == Some(DigitsValue(d, 10))
  {
    DecimalPrefixOfDigits(d);
    NoLeadingSpace(d);
    ParseDecimalOfUnsigned(d);
  }

  /** A string with nothing to trim, no sign and only digits parses as its value. */
  lemma ParseDecimalOfUnsigned(d: string)
    requires d != [] && IsDecimalDigit(d[0]) && Text.TrimStart(d) == d && DecimalPrefix(d) == d
    ensures ParseDecimal(d) == Some(DigitsValue(d, 10))
  {
  }

  /** ...and so does its negation after a minus sign. */
  lemma ParseDecimalOfNegated(d: string)
    requires d != [] && forall i :: 0 <= i < |d| ==> IsDecimalDigit(d[i])
    ensures ParseDecimal("-" + d) == Some(-DigitsValue(d, 10))
  {
    var s := "-" + d;
    DecimalPrefixOfDigits(d);
    NoLeadingSpace(s);
    assert s[1..] == d;
    ParseDecimalOfSigned(s, d);
  }

  /** A minus sign followed by nothing but digits parses as the negated value. */
  lemma ParseDecimalOfSigned(t: string, d: string)
    requires t != [] && t[0] == '-' && Text.TrimStart(t) == t
    requires t[1..] == d && d != [] && DecimalPrefix(d) == d
    ensures ParseDecimal(t) == Some(-DigitsValue(d, 10))
  {
  }

  /** A string that starts with a digit or a minus sign has nothing to trim. */
  lemma NoLeadingSpace(s: string)
    requires s != [] && (IsDecimalDigit(s[0]) || s[0] == '-')
    ensures Text.TrimStart(s) == s
  {
    assert !Text.IsSpace(s[0]);
  }

  /** The decimal digits of a number are the characters 0 to 9. */
  lemma DecimalDigitsAreDecimal(m: nat)
    ensures forall i :: 0 <= i < |NatDigits(m, 10)| ==> IsDecimalDigit(NatDigits(m, 10)[i])
  {
    var d := NatDigits(m, 10);
    NatDigitsAreDigits(m, 10);
    forall i | 0 <= i < |d| ensures IsDecimalDigit(d[i]) {
      var v := DigitValue(d[i]);
      assert DigitChar(v) == d[i];
    }
  }
}
