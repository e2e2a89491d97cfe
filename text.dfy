/**
  Strings compared as JavaScript compares them (character by character, a proper
  prefix first; Dafny characters are code points, which order like JavaScript's
  UTF-16 code units below U+10000) and the value of a run of ASCII decimal digits.
*/
module Text {

  /** What the regular-expression class \d matches without the u flag: '0' .. '9'. */
  predicate IsDigit(c: char) {
    '0' <= c <= '9'
  }

  predicate AllDigits(s: string) {
    forall i :: 0 <= i < |s| ==> IsDigit(s[i])
  }

  function DigitValue(c: char): (v: nat)
    requires IsDigit(c)
    ensures v <= 9
  {
    c as int - '0' as int
  }

  function Pow10(n: nat): (p: nat)
    ensures p >= 1
  {
    if n == 0 then 1 else 10 * Pow10(n - 1)
  }

  /** The number a digit string spells, most significant digit first. */
  function DigitsValue(s: string): nat
    requires AllDigits(s)
  {
    if s == [] then 0 else DigitValue(s[0]) * Pow10(|s| - 1) + DigitsValue(s[1..])
  }

  /** JavaScript's `a <= b` on two strings. */
  predicate StrLe(a: string, b: string) {
    if a == [] then true
    else if b == [] then false
    else if a[0] != b[0] then a[0] < b[0]
    else StrLe(a[1..], b[1..])
  }

  // ---------- lemmas ----------

  lemma MulLe(a: int, b: int, c: int)
    requires a <= b && c >= 0
    ensures a * c <= b * c
  {
  }

  /** n digits spell a number below 10^n. */
  lemma {:induction false} DigitsValueBound(s: string)
    requires AllDigits(s)
    ensures DigitsValue(s) < Pow10(|s|)
  {
    if s != [] {
      DigitsValueBound(s[1..]);
      var d, p, rest := DigitValue(s[0]), Pow10(|s| - 1), DigitsValue(s[1..]);
      assert DigitsValue(s) == d * p + rest;
      MulStep(d, p);
      MulLe(d + 1, 10, p);
      assert Pow10(|s|) == 10 * p;
    }
  }

  lemma MulStep(d: int, p: int)
    ensures (d + 1) * p == d * p + p
  {
  }

  /** On digit strings of one length, string order is numeric order. */
  lemma {:induction false} StrLeIffValueLe(a: string, b: string)
    requires AllDigits(a) && AllDigits(b) && |a| == |b|
    ensures StrLe(a, b) <==> DigitsValue(a) <= DigitsValue(b)
  {
    if a != [] {
      var p := Pow10(|a| - 1);
      var da, db := DigitValue(a[0]), DigitValue(b[0]);
      var ra, rb := DigitsValue(a[1..]), DigitsValue(b[1..]);
      assert DigitsValue(a) == da * p + ra;
      assert DigitsValue(b) == db * p + rb;
      DigitsValueBound(a[1..]);
      DigitsValueBound(b[1..]);
      if a[0] < b[0] {
        MulStep(da, p);
        MulLe(da + 1, db, p);
      } else if a[0] > b[0] {
        MulStep(db, p);
        MulLe(db + 1, da, p);
      } else {
        StrLeIffValueLe(a[1..], b[1..]);
      }
    }
  }

  /** String order is antisymmetric. */
  lemma {:induction false} StrLeAntisymmetric(a: string, b: string)
    requires StrLe(a, b) && StrLe(b, a)
    ensures a == b
  {
    if a != [] && b != [] {
      StrLeAntisymmetric(a[1..], b[1..]);
      assert a == [a[0]] + a[1..] && b == [b[0]] + b[1..];
    }
  }

  /** Digit strings of one length with one value are the same string. */
  lemma DigitsValueInjective(a: string, b: string)
    requires AllDigits(a) && AllDigits(b) && |a| == |b|
    requires DigitsValue(a) == DigitsValue(b)
    ensures a == b
  {
    StrLeIffValueLe(a, b);
    StrLeIffValueLe(b, a);
    StrLeAntisymmetric(a, b);
  }

  /** Comparing two strings whose first parts have one length: the first parts
      decide unless they are equal. */
  lemma {:induction false} StrLeConcat(a1: string, a2: string, b1: string, b2: string)
    requires |a1| == |b1|
    ensures StrLe(a1 + a2, b1 + b2) == if a1 == b1 then StrLe(a2, b2) else StrLe(a1, b1)
  {
    if a1 == [] {
      assert a1 + a2 == a2 && b1 + b2 == b2;
    } else {
      assert (a1 + a2)[0] == a1[0] && (b1 + b2)[0] == b1[0];
      assert (a1 + a2)[1..] == a1[1..] + a2 && (b1 + b2)[1..] == b1[1..] + b2;
      if a1[0] == b1[0] {
        StrLeConcat(a1[1..], a2, b1[1..], b2);
        assert a1 == b1 <==> a1[1..] == b1[1..] by {
          assert a1 == [a1[0]] + a1[1..] && b1 == [b1[0]] + b1[1..];
        }
      }
    }
  }

  lemma DigitsValueOfTwo(s: string)
    requires |s| == 2 && AllDigits(s)
    ensures DigitsValue(s) == 10 * DigitValue(s[0]) + DigitValue(s[1])
  {
    assert s[1..][1..] == [];
    assert DigitsValue(s[1..]) == DigitValue(s[1]) * Pow10(0) + DigitsValue([]);
    assert Pow10(1) == 10;
  }

  lemma DigitsValueOfFour(s: string)
    requires |s| == 4 && AllDigits(s)
    ensures DigitsValue(s) ==
      1000 * DigitValue(s[0]) + 100 * DigitValue(s[1]) + 10 * DigitValue(s[2]) + DigitValue(s[3])
  {
    assert s[1..][1..] == s[2..];
    DigitsValueOfTwo(s[2..]);
  }
}
