/**
  The two JavaScript conversions the form relies on: `String(n)` for a
  non-negative integer (the batch year labels and the rating radio values)
  and `Number(s)` for a string (the selected rating).
 */
module JsNumber {
  import opened Wrappers
  import opened JsString

  predicate IsDigit(c: char) {
    '0' <= c <= '9'
  }

  predicate AllDigits(s: string) {
    forall i :: 0 <= i < |s| ==> IsDigit(s[i])
  }

  function DigitChar(d: nat): (c: char)
    requires d < 10
    ensures IsDigit(c)
  {
    (48 + d) as char
  }

  /** `String(n)`: the decimal spelling of `n`, without leading zeros. */
  function StringOfNat(n: nat): (r: string)
    ensures r != [] && AllDigits(r)
    ensures n < 10 <==> |r| == 1
    ensures r[0] != '0' || n == 0
  {
    if n < 10 then [DigitChar(n)] else StringOfNat(n / 10) + [DigitChar(n % 10)]
  }

  /** The value of a string of decimal digits (the empty string is 0). */
  function DigitsValue(s: string): nat
    requires AllDigits(s)
  {
    if s == [] then 0 else 10 * DigitsValue(s[..|s| - 1]) + (s[|s| - 1] as int - 48)
  }

  /** `Number(s)` on a string: surrounding white space is ignored, a blank
      string is 0, an optional sign may precede the decimal digits, and
      anything else is NaN, written `None`. */
  function NumberOfString(s: string): (r: Option<int>)
    ensures AllWhitespace(s) ==> r == Some(0)
    ensures Trim(s) != [] && !IsDigit(Trim(s)[0]) && Trim(s)[0] != '+' && Trim(s)[0] != '-' ==> r == None
  {
    TrimEmptyIff(s);
    var t := Trim(s);
    if t == [] then Some(0)
    else if AllDigits(t) then Some(DigitsValue(t))
    else if |t| > 1 && (t[0] == '+' || t[0] == '-') && AllDigits(t[1..]) then
      var magnitude: int := DigitsValue(t[1..]);
      Some(if t[0] == '-' then -magnitude else magnitude)
    else None
  }

  /** Surrounding white space does not change the number a string denotes. */
  lemma NumberOfStringTrimmed(s: string)
    ensures NumberOfString(Trim(s)) == NumberOfString(s)
  {
    TrimIdempotent(s);
  }

  /** Reading back the decimal spelling of `n` gives `n`. */
  lemma {:induction false} DigitsOfStringOfNat(n: nat)
    ensures DigitsValue(StringOfNat(n)) == n
  {
    if n >= 10 {
      DigitsOfStringOfNat(n / 10);
      var s := StringOfNat(n);
      assert s[..|s| - 1] == StringOfNat(n / 10);
    }
  }

  /** `Number(String(n)) == n` for every non-negative integer `n`. */
  lemma NumberOfStringOfNat(n: nat)
    ensures NumberOfString(StringOfNat(n)) == Some(n)
  {
    var s := StringOfNat(n);
    TrimUnpadded(s);
    DigitsOfStringOfNat(n);
  }

  /** Distinct numbers have distinct spellings. */
  lemma StringOfNatInjective(m: nat, n: nat)
    ensures StringOfNat(m) == StringOfNat(n) <==> m == n
  {
    if StringOfNat(m) == StringOfNat(n) {
      NumberOfStringOfNat(m);
      NumberOfStringOfNat(n);
    }
  }
}
