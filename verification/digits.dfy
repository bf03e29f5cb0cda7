/**
 Strings of decimal digits: the value they denote, the canonical printer, padding, and the
 removal of redundant zeros at either end.  Everything the amount codec does is built from these.
 */
module Digits {

  predicate IsDigit(c: char) {
    '0' <= c <= '9'
  }

  predicate AllDigits(s: string) {
    forall i :: 0 <= i < |s| ==> IsDigit(s[i])
  }

  function DigitValue(c: char): (d: nat)
    requires IsDigit(c)
    ensures d < 10
  {
    c as int - '0' as int
  }

  function DigitChar(d: nat): (c: char)
    requires d < 10
    ensures IsDigit(c) && DigitValue(c) == d
  {
    ('0' as int + d) as char
  }

  function Pow10(n: nat): (p: nat)
    ensures p > 0
  {
    if n == 0 then 1 else 10 * Pow10(n - 1)
  }

  /** The number a digit string denotes (`BigInt(s)`; the empty string denotes zero). */
  function Value(s: string): nat
    requires AllDigits(s)
  {
    if s == "" then 0 else Value(s[..|s| - 1]) * 10 + DigitValue(s[|s| - 1])
  }

  /** The canonical decimal numeral of a number (`BigInt.prototype.toString`). */
  function Print(n: nat): (s: string)
    ensures |s| > 0 && AllDigits(s)
  {
    if n < 10 then [DigitChar(n)] else Print(n / 10) + [DigitChar(n % 10)]
  }

  function Zeros(n: nat): (s: string)
    ensures |s| == n && AllDigits(s)
    ensures forall i :: 0 <= i < n ==> s[i] == '0'
  {
    seq(n, i => '0')
  }

  function PadStart(s: string, width: nat): string {
    if |s| < width then Zeros(width - |s|) + s else s
  }

  function PadEnd(s: string, width: nat): string {
    if |s| < width then s + Zeros(width - |s|) else s
  }

  /** `s.replace(/^0+(?=\d)/, '')`: leading zeros go, but one digit always stays. */
  function StripStart(s: string): string {
    if |s| > 1 && s[0] == '0' then StripStart(s[1..]) else s
  }

  /** `s.replace(/0+$/, '')`. */
  function StripEnd(s: string): (t: string)
    ensures t <= s
    ensures t != "" ==> t[|t| - 1] != '0'
    ensures s == t + Zeros(|s| - |t|)
  {
    if s != "" && s[|s| - 1] == '0' then
      var t := StripEnd(s[..|s| - 1]);
      assert s == (t + Zeros(|s| - 1 - |t|)) + "0";
      t
    else s
  }

  lemma {:induction false} Pow10Add(a: nat, b: nat)
    ensures Pow10(a + b) == Pow10(a) * Pow10(b)
  {
    if a > 0 {
      Pow10Add(a - 1, b);
      assert Pow10(a + b) == 10 * Pow10(a - 1 + b);
      TimesTen(Pow10(b), Pow10(a - 1));
    }
  }

  lemma TimesTen(a: nat, b: nat)
    ensures a * b * 10 == a * (10 * b)
  {
  }

  lemma {:induction false} ValueConcat(a: string, b: string)
    requires AllDigits(a) && AllDigits(b)
    ensures AllDigits(a + b)
    ensures Value(a + b) == Value(a) * Pow10(|b|) + Value(b)
  {
    if b == "" {
      assert a + b == a;
    } else {
      var b' := b[..|b| - 1];
      ValueConcat(a, b');
      assert (a + b)[..|a + b| - 1] == a + b';
      assert Value(a + b) == Value(a + b') * 10 + DigitValue(b[|b| - 1]);
      assert Pow10(|b|) == 10 * Pow10(|b'|);
      TimesTen(Value(a), Pow10(|b'|));
    }
  }

  lemma {:induction false} ValueZeros(n: nat)
    ensures Value(Zeros(n)) == 0
  {
    if n > 0 {
      ValueZeros(n - 1);
      assert Zeros(n)[..n - 1] == Zeros(n - 1);
    }
  }

  /** Zeros in front never change the value; zeros behind scale it. */
  lemma ValueOfPadded(s: string, n: nat)
    requires AllDigits(s)
    ensures Value(Zeros(n) + s) == Value(s)
    ensures Value(s + Zeros(n)) == Value(s) * Pow10(n)
  {
    ValueZeros(n);
    ValueConcat(Zeros(n), s);
    ValueConcat(s, Zeros(n));
  }

  lemma {:induction false} ValueBound(s: string)
    requires AllDigits(s)
    ensures Value(s) < Pow10(|s|)
  {
    if s != "" {
      ValueBound(s[..|s| - 1]);
    }
  }

  /** Numerals of one width denote different numbers unless they are the same string. */
  lemma {:induction false} FixedWidthInjective(a: string, b: string)
    requires AllDigits(a) && AllDigits(b)
    requires |a| == |b| && Value(a) == Value(b)
    ensures a == b
  {
    if a != "" {
      var n := |a| - 1;
      assert DigitValue(a[n]) == DigitValue(b[n]);
      FixedWidthInjective(a[..n], b[..n]);
      assert a == a[..n] + [a[n]] && b == b[..n] + [b[n]];
    }
  }

  /** Parsing undoes printing, and the printer never emits a redundant leading zero. */
  lemma {:induction false} PrintValue(n: nat)
    ensures Value(Print(n)) == n
    ensures |Print(n)| > 1 ==> Print(n)[0] != '0'
  {
    if n >= 10 {
      var q := Print(n / 10);
      PrintValue(n / 10);
      assert Print(n)[..|Print(n)| - 1] == q;
      if |q| == 1 {
        assert Value(q[..0]) == 0;
        assert q[0] != '0';
      }
    } else {
      assert Print(n)[..0] == "";
    }
  }

  /** A number has at most k digits exactly when it is below ten to the k. */
  lemma {:induction false} PrintLength(n: nat, k: nat)
    requires k > 0
    ensures |Print(n)| <= k <==> n < Pow10(k)
  {
    if n < 10 {
      Pow10Add(1, k - 1);
      assert Pow10(1) == 10;
    } else if k == 1 {
      assert Pow10(1) == 10;
    } else {
      PrintLength(n / 10, k - 1);
    }
  }

  /** Removing leading zeros is the same as reading the number and printing it again. */
  lemma {:induction false} StripStartCanonical(s: string)
    requires s != "" && AllDigits(s)
    ensures StripStart(s) == Print(Value(s))
  {
    if |s| > 1 && s[0] == '0' {
      assert s == Zeros(1) + s[1..];
      ValueOfPadded(s[1..], 1);
      StripStartCanonical(s[1..]);
    } else {
      NoLeadingZeroCanonical(s);
    }
  }

  lemma {:induction false} NoLeadingZeroCanonical(s: string)
    requires s != "" && AllDigits(s)
    requires |s| > 1 ==> s[0] != '0'
    ensures s == Print(Value(s))
  {
    var n := |s| - 1;
    var init := s[..n];
    assert s == init + [s[n]];
    if n == 0 {
      assert Value(init) == 0;
    } else {
      NoLeadingZeroCanonical(init);
      PrintLength(Value(init), |init|);
      assert Value(s) / 10 == Value(init) && Value(s) % 10 == DigitValue(s[n]);
    }
  }

  lemma {:induction false} StripEndOfPadded(s: string, n: nat)
    ensures StripEnd(s + Zeros(n)) == StripEnd(s)
  {
    if n == 0 {
      assert s + Zeros(0) == s;
    } else {
      var p := s + Zeros(n);
      assert p[..|p| - 1] == s + Zeros(n - 1);
      StripEndOfPadded(s, n - 1);
    }
  }

  lemma Repad(s: string, t: string, n: nat, k: nat)
    requires |t| <= |s| && s == t + Zeros(|s| - |t|)
    requires k == |s| - |t| + n
    ensures s + Zeros(n) == t + Zeros(k)
  {
    assert Zeros(|s| - |t|) + Zeros(n) == Zeros(k);
    assert (t + Zeros(|s| - |t|)) + Zeros(n) == t + (Zeros(|s| - |t|) + Zeros(n));
  }

  /** Two fractions agree once padded to a common width exactly when they agree once stripped. */
  lemma StripEndEquality(a: string, b: string)
    ensures StripEnd(a) == StripEnd(b) <==> a + Zeros(|b|) == b + Zeros(|a|)
  {
    if StripEnd(a) == StripEnd(b) {
      SameStrippedSamePadded(a, b, StripEnd(a));
    }
    if a + Zeros(|b|) == b + Zeros(|a|) {
      SamePaddedSameStripped(a, b, a + Zeros(|b|));
    }
  }

  lemma SameStrippedSamePadded(a: string, b: string, t: string)
    requires |t| <= |a| && a == t + Zeros(|a| - |t|)
    requires |t| <= |b| && b == t + Zeros(|b| - |t|)
    ensures a + Zeros(|b|) == b + Zeros(|a|)
  {
    Repad(a, t, |b|, |a| + |b| - |t|);
    Repad(b, t, |a|, |a| + |b| - |t|);
  }

  lemma SamePaddedSameStripped(a: string, b: string, p: string)
    requires p == a + Zeros(|b|) && p == b + Zeros(|a|)
    ensures StripEnd(a) == StripEnd(b)
  {
    StripEndOfPadded(a, |b|);
    StripEndOfPadded(b, |a|);
  }
}
