/** The two places where the dashboard turns numbers into text or orders
    text: `Number.prototype.toString` on integer years and ids, and the
    default ordering of `Array.prototype.sort()` on strings. */
module Decimal {
  import opened Sorting

  function Digit(d: nat): (c: char)
    requires d < 10
  {
    ('0' as int + d) as char
  }

  predicate IsDigit(c: char) { '0' <= c <= '9' }

  /** Decimal digits of `n`, without leading zeros. */
  function NatToDecimal(n: nat): (s: string)
    ensures |s| >= 1 && s[0] != '-'
    ensures forall i :: 0 <= i < |s| ==> IsDigit(s[i])
    ensures n >= 10 ==> |s| >= 2 && s[0] != '0'
  {
    if n < 10 then [Digit(n)] else NatToDecimal(n / 10) + [Digit(n % 10)]
  }

  /** `i.toString()` for an integer-valued number. */
  function IntToDecimal(i: int): (s: string)
    ensures s != []
    ensures s[0] == '-' <==> i < 0
  {
    if i < 0 then "-" + NatToDecimal(-i) else NatToDecimal(i)
  }

  /** Value of a string of decimal digits. */
  function DigitsValue(s: string): int {
    if s == [] then 0
    else DigitsValue(s[..|s| - 1]) * 10 + (s[|s| - 1] as int - '0' as int)
  }

  /** `Number(s)` for the strings `IntToDecimal` produces (an optional minus
      sign followed by digits): what JavaScript computes when a key string
      is used in `a - b`. */
  function DecimalValue(s: string): int {
    if s != [] && s[0] == '-' then -DigitsValue(s[1..]) else DigitsValue(s)
  }

  lemma {:induction false} NatToDecimalValue(n: nat)
    ensures DigitsValue(NatToDecimal(n)) == n
  {
    if n >= 10 {
      var s := NatToDecimal(n);
      assert s[..|s| - 1] == NatToDecimal(n / 10);
      NatToDecimalValue(n / 10);
    } else {
      assert NatToDecimal(n)[..0] == [];
    }
  }

  /** Reading back the text of a number gives the number. */
  lemma IntToDecimalRoundTrip(i: int)
    ensures DecimalValue(IntToDecimal(i)) == i
  {
    var s := IntToDecimal(i);
    if i < 0 {
      var digits := NatToDecimal(-i);
      assert s == "-" + digits;
      assert s[1..] == digits;
      assert DecimalValue(s) == -DigitsValue(digits);
      NatToDecimalValue(-i);
    } else {
      assert s == NatToDecimal(i) && s[0] != '-';
      NatToDecimalValue(i);
    }
  }

  /** Two different numbers never have the same text. */
  lemma IntToDecimalInjective(a: int, b: int)
    ensures IntToDecimal(a) == IntToDecimal(b) <==> a == b
  {
    IntToDecimalRoundTrip(a);
    IntToDecimalRoundTrip(b);
  }

  /** The comparison behind `sort()` with no comparator: character by
      character, a proper prefix first. */
  function StrCompare(a: string, b: string): (r: int)
    ensures -1 <= r <= 1
    ensures r == 0 <==> a == b
  {
    if a == [] && b == [] then 0
    else if a == [] then -1
    else if b == [] then 1
    else if a[0] < b[0] then -1
    else if a[0] > b[0] then 1
    else
      assert a == [a[0]] + a[1..] && b == [b[0]] + b[1..];
      StrCompare(a[1..], b[1..])
  }

  lemma {:induction false} StrCompareFlip(a: string, b: string)
    ensures StrCompare(a, b) == -StrCompare(b, a)
  {
    if a != [] && b != [] && a[0] == b[0] {
      StrCompareFlip(a[1..], b[1..]);
    }
  }

  lemma {:induction false} StrCompareTrans(a: string, b: string, c: string)
    requires StrCompare(a, b) <= 0 && StrCompare(b, c) <= 0
    ensures StrCompare(a, c) <= 0
  {
    if a != [] && b != [] && c != [] && a[0] == b[0] == c[0] {
      StrCompareTrans(a[1..], b[1..], c[1..]);
    }
  }

  /** String order is a comparator `sort` can use: reversing the arguments
      flips the sign and "not after" is transitive. */
  lemma StrCompareConsistent()
    ensures Consistent(StrCompare)
  {
    forall a, b ensures StrCompare(a, b) < 0 <==> StrCompare(b, a) > 0 {
      StrCompareFlip(a, b);
    }
    forall a, b, c ensures Chain(StrCompare, a, b, c) {
      if StrCompare(a, b) <= 0 && StrCompare(b, c) <= 0 {
        StrCompareTrans(a, b, c);
      }
    }
  }
}
