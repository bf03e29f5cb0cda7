/**
 Display of amounts: sign, thousands separators, trimmed decimals.  The formatter is a canonical
 form of the number it is given, and nothing about that number is lost by it.
 */
module Format {
  import opened Wrappers
  import opened Digits
  import opened Amounts

  // ----- The formatter -------------------------------------------------------------------

  predicate IsNegative(s: string) {
    s != "" && s[0] == '-'
  }

  /** The text with the leading minus removed. */
  function Magnitude(s: string): string {
    if IsNegative(s) then s[1..] else s
  }

  /** `/^-?\d+(\.\d+)?$/` */
  predicate IsSignedDecimal(s: string) {
    IsDecimal(Magnitude(s))
  }

  /**
   `.replace(/\B(?=(\d{3})+(?!\d))/g, ',')` on a run of digits: a separator goes before every
   digit but the first that is followed, itself included, by a multiple of three digits.
   */
  function GroupFrom(s: string, i: nat): string
    requires i <= |s|
    decreases |s| - i
  {
    if i == |s| then ""
    else (if i > 0 && (|s| - i) % 3 == 0 then "," else "") + [s[i]] + GroupFrom(s, i + 1)
  }

  function Grouped(s: string): string {
    GroupFrom(s, 0)
  }

  /** `fraction.replace(/0+$/, '').padEnd(2, '0')` */
  function Trimmed(fraction: string): string {
    PadEnd(StripEnd(fraction), 2)
  }

  function Body(whole: string, fraction: string): string {
    Grouped(StripStart(whole)) + "." + Trimmed(fraction)
  }

  function FormatAmount(value: Option<string>): string {
    if value.None? || !IsSignedDecimal(value.value) then "0.00"
    else
      var m := Magnitude(value.value);
      (if IsNegative(value.value) then "-" else "") + Body(WholePart(m), FractionPart(m))
  }

  function StroopsToXlm(stroops: string): string {
    if stroops != "" && AllDigits(stroops) then FormatAmount(Some(UnitsToDecimal(Value(stroops)))) else stroops
  }

  /** Amount plus fee; nothing when either input is malformed. */
  function TotalWithFee(amount: string, fee: string): Option<string> {
    if !IsAmount(amount) || fee == "" || !AllDigits(fee) then None
    else
      PadEndDigits(FractionPart(amount), 7);
      Some(FormatAmount(Some(UnitsToDecimal(
        Value(WholePart(amount)) * STROOPS_PER_XLM + Value(PadEnd(FractionPart(amount), 7)) + Value(fee)))))
  }

  // ----- The number a decimal denotes ----------------------------------------------------

  /** Equality of two decimals as fractions, cross-multiplied. */
  ghost predicate SameNumber(a: string, b: string)
    requires IsDecimal(a) && IsDecimal(b)
  {
    ValueConcat(WholePart(a), FractionPart(a));
    ValueConcat(WholePart(b), FractionPart(b));
    Value(WholePart(a) + FractionPart(a)) * Pow10(|FractionPart(b)|)
    == Value(WholePart(b) + FractionPart(b)) * Pow10(|FractionPart(a)|)
  }

  ghost predicate IsZero(a: string)
    requires IsDecimal(a)
  {
    Value(WholePart(a)) == 0 && Value(FractionPart(a)) == 0
  }

  /** Equality of signed decimals: zero has one value whatever its sign. */
  ghost predicate SameSignedNumber(a: string, b: string)
    requires IsSignedDecimal(a) && IsSignedDecimal(b)
  {
    && SameNumber(Magnitude(a), Magnitude(b))
    && (IsNegative(a) == IsNegative(b) || IsZero(Magnitude(a)))
  }

  /** The decimal denotes this many stroops. */
  ghost predicate DenotesUnits(s: string, units: nat)
    requires IsDecimal(s)
  {
    ValueConcat(WholePart(s), FractionPart(s));
    Value(WholePart(s) + FractionPart(s)) * STROOPS_PER_XLM == units * Pow10(|FractionPart(s)|)
  }

  /** Two decimals denote one number exactly when the wholes agree in value and the stripped fractions in text. */
  lemma SameNumberParts(a: string, b: string)
    requires IsDecimal(a) && IsDecimal(b)
    ensures SameNumber(a, b) <==>
            && Value(WholePart(a)) == Value(WholePart(b))
            && StripEnd(FractionPart(a)) == StripEnd(FractionPart(b))
  {
    hide Value, StripEnd, Pow10, WholePart, FractionPart;
    var fa, fb := FractionPart(a), FractionPart(b);
    var pa, pb := fa + Zeros(|fb|), fb + Zeros(|fa|);
    ScaledParts(WholePart(a), fa, |fb|);
    ScaledParts(WholePart(b), fb, |fa|);
    var m := Pow10(|fa| + |fb|);
    if SameNumber(a, b) {
      QuotientUnique(Value(WholePart(a)), Value(pa), Value(WholePart(b)), Value(pb), m);
      FixedWidthInjective(pa, pb);
    }
    if StripEnd(fa) == StripEnd(fb) {
      StripEndEquality(fa, fb);
    }
    StripEndEquality(fa, fb);
  }

  /** A decimal scaled by a power of ten, split into whole and padded fraction. */
  lemma ScaledParts(w: string, f: string, k: nat)
    requires AllDigits(w) && AllDigits(f)
    ensures AllDigits(w + f) && AllDigits(f + Zeros(k))
    ensures Value(w + f) * Pow10(k) == Value(w) * Pow10(|f| + k) + Value(f + Zeros(k))
    ensures Value(f + Zeros(k)) < Pow10(|f| + k)
  {
    ValueConcat(w, f);
    ValueOfPadded(f, k);
    ValueBound(f + Zeros(k));
    Pow10Add(|f|, k);
    Distribute(Value(w), Pow10(|f|), Value(f), Pow10(k));
  }

  lemma Distribute(x: nat, y: nat, z: nat, k: nat)
    ensures (x * y + z) * k == x * (y * k) + z * k
  {
  }

  lemma QuotientUnique(q1: nat, r1: nat, q2: nat, r2: nat, m: nat)
    requires r1 < m && r2 < m && q1 * m + r1 == q2 * m + r2
    ensures q1 == q2 && r1 == r2
  {
    if q1 < q2 {
      NextMultiple(q1, q2, m);
    } else if q2 < q1 {
      NextMultiple(q2, q1, m);
    }
  }

  lemma {:induction false} NextMultiple(a: nat, b: nat, m: nat)
    requires a < b
    ensures a * m + m <= b * m
  {
    if a + 1 < b {
      NextMultiple(a, b - 1, m);
    }
    assert b * m == (b - 1) * m + m;
  }

  // ----- Separators ----------------------------------------------------------------------

  /** The text with every comma deleted. */
  function RemoveCommas(s: string): string {
    if s == "" then "" else (if s[0] == ',' then "" else [s[0]]) + RemoveCommas(s[1..])
  }

  lemma {:induction false} RemoveCommasConcat(a: string, b: string)
    ensures RemoveCommas(a + b) == RemoveCommas(a) + RemoveCommas(b)
  {
    if a == "" {
      assert a + b == b;
    } else {
      assert (a + b)[1..] == a[1..] + b;
      RemoveCommasConcat(a[1..], b);
    }
  }

  lemma {:induction false} RemoveCommasIdentity(s: string)
    requires ',' !in s
    ensures RemoveCommas(s) == s
  {
    if s != "" {
      RemoveCommasIdentity(s[1..]);
    }
  }

  lemma OneComma()
    ensures RemoveCommas(",") == ""
  {
    assert ","[1..] == "";
  }

  lemma {:induction false} UngroupFrom(s: string, i: nat)
    requires AllDigits(s) && i <= |s|
    ensures RemoveCommas(GroupFrom(s, i)) == s[i..]
    decreases |s| - i
  {
    hide RemoveCommas;
    if i == |s| {
      RemoveCommasIdentity("");
    }
    if i < |s| {
      UngroupFrom(s, i + 1);
      var d := [s[i]];
      RemoveCommasIdentity(d);
      RemoveCommasConcat(d, GroupFrom(s, i + 1));
      if i > 0 && (|s| - i) % 3 == 0 {
        assert GroupFrom(s, i) == "," + (d + GroupFrom(s, i + 1));
        RemoveCommasConcat(",", d + GroupFrom(s, i + 1));
        OneComma();
      } else {
        assert GroupFrom(s, i) == d + GroupFrom(s, i + 1);
      }
    }
  }

  /** Counted from the right, every fourth character and no other is a comma. */
  predicate WellGrouped(g: string) {
    forall j :: 0 <= j < |g| ==> if (|g| - j) % 4 == 0 then g[j] == ',' else IsDigit(g[j])
  }

  /** How long n digits are once grouped, the first digit possibly preceded by a comma. */
  lemma GroupedLength(n: nat)
    requires n > 0
    ensures n % 3 == 0 ==> n + n / 3 == (n - 1) + (n - 1) / 3 + 2 && (n + n / 3) % 4 == 0
    ensures n % 3 != 0 ==> n + n / 3 == (n - 1) + (n - 1) / 3 + 1 && (n + n / 3) % 4 != 0
  {
    var q, r := n / 3, n % 3;
    GroupedLengthBy(q, r);
  }

  lemma GroupedLengthBy(q: nat, r: nat)
    requires r < 3 && 3 * q + r > 0
    ensures (3 * q + r - 1) / 3 == if r == 0 then q - 1 else q
    ensures (4 * q + r) % 4 == r
  {
  }

  lemma {:induction false} GroupsInside(s: string, i: nat)
    requires AllDigits(s) && 0 < i <= |s|
    ensures WellGrouped(GroupFrom(s, i))
    ensures |GroupFrom(s, i)| == (|s| - i) + (|s| - i) / 3
    decreases |s| - i
  {
    if i < |s| {
      GroupsInside(s, i + 1);
      hide WellGrouped;
      GroupedLength(|s| - i);
      var g, rest := GroupFrom(s, i), GroupFrom(s, i + 1);
      if (|s| - i) % 3 == 0 {
        assert g == [','] + ([s[i]] + rest);
        WellGroupedPrepend(s[i], rest);
        WellGroupedPrepend(',', [s[i]] + rest);
      } else {
        assert g == [s[i]] + rest;
        WellGroupedPrepend(s[i], rest);
      }
    }
  }

  /** Groups after the first have three digits, and the first has one to three. */
  lemma GroupsOfThree(s: string)
    requires s != "" && AllDigits(s)
    ensures WellGrouped(Grouped(s)) && |Grouped(s)| == |s| + (|s| - 1) / 3
    ensures |Grouped(s)| % 4 != 0 && IsDigit(Grouped(s)[0])
  {
    var rest := GroupFrom(s, 1);
    assert Grouped(s) == [s[0]] + rest;
    hide WellGrouped, GroupFrom, Grouped;
    GroupsInside(s, 1);
    var q, r := (|s| - 1) / 3, (|s| - 1) % 3;
    FirstGroup(q, r);
    WellGroupedPrepend(s[0], rest);
  }

  lemma FirstGroup(q: nat, r: nat)
    requires r < 3
    ensures (4 * q + r + 1) % 4 != 0
  {
  }

  lemma WellGroupedPrepend(c: char, rest: string)
    requires WellGrouped(rest)
    requires if (|rest| + 1) % 4 == 0 then c == ',' else IsDigit(c)
    ensures WellGrouped([c] + rest)
  {
    var g := [c] + rest;
    forall j | 0 <= j < |g| ensures if (|g| - j) % 4 == 0 then g[j] == ',' else IsDigit(g[j]) {
      if j > 0 {
        assert g[j] == rest[j - 1] && |g| - j == |rest| - (j - 1);
      }
    }
  }

  lemma {:induction false} UngroupedFrom(s: string, i: nat)
    requires AllDigits(s) && i <= |s|
    ensures '.' !in GroupFrom(s, i)
    decreases |s| - i
  {
    if i < |s| {
      UngroupedFrom(s, i + 1);
    }
  }

  // ----- What the formatted text is ------------------------------------------------------

  lemma TrimmedDigits(f: string)
    requires AllDigits(f)
    ensures AllDigits(Trimmed(f)) && |Trimmed(f)| >= 2
    ensures |Trimmed(f)| > 2 ==> Trimmed(f)[|Trimmed(f)| - 1] != '0'
  {
    StripEndDigits(f);
    PadEndDigits(StripEnd(f), 2);
  }

  lemma JoinedIsDecimal(w: string, f: string)
    requires w != "" && AllDigits(w) && f != "" && AllDigits(f)
    ensures IsDecimal(w + "." + f) && WholePart(w + "." + f) == w && FractionPart(w + "." + f) == f
  {
    DigitsHaveNoPoint(w);
    SplitJoined(w, f);
    assert (w + "." + f)[|w|] == '.';
  }

  /** The formatted magnitude with its commas deleted, and how it splits. */
  lemma BodyWithoutCommas(w: string, f: string)
    requires w != "" && AllDigits(w) && AllDigits(f)
    ensures
      var d := RemoveCommas(Body(w, f));
      && IsDecimal(d)
      && WholePart(d) == StripStart(w) && FractionPart(d) == Trimmed(f)
  {
    StripStartCanonical(w);
    TrimmedDigits(f);
    BodyOf(StripStart(w), Trimmed(f));
  }

  lemma RemoveCommasOfBody(g: string, t: string)
    requires AllDigits(g) && AllDigits(t)
    ensures RemoveCommas(Grouped(g) + "." + t) == g + "." + t
  {
    hide RemoveCommas, GroupFrom;
    UngroupFrom(g, 0);
    assert g[0..] == g;
    var tail := "." + t;
    RemoveCommasIdentity(tail);
    assert Grouped(g) + "." + t == Grouped(g) + tail;
    RemoveCommasConcat(Grouped(g), tail);
    assert g + "." + t == g + tail;
  }

  lemma BodyOf(g: string, t: string)
    requires g != "" && AllDigits(g) && t != "" && AllDigits(t)
    ensures
      var d := RemoveCommas(Grouped(g) + "." + t);
      IsDecimal(d) && WholePart(d) == g && FractionPart(d) == t
  {
    RemoveCommasOfBody(g, t);
    JoinedIsDecimal(g, t);
  }

  lemma TrimmedKeepsFraction(f: string)
    requires AllDigits(f)
    ensures StripEnd(Trimmed(f)) == StripEnd(f)
  {
    var t := StripEnd(f);
    StripEndDigits(f);
    StripEndOfStripped(t);
    PadEndDigits(t, 2);
    if |t| < 2 {
      StripEndOfPadded(t, 2 - |t|);
    }
  }

  lemma StripEndOfStripped(t: string)
    requires t != "" ==> t[|t| - 1] != '0'
    ensures StripEnd(t) == t
  {
  }

  lemma UnsignedFormat(a: string)
    requires IsDecimal(a)
    ensures !IsNegative(a) && Magnitude(a) == a
    ensures FormatAmount(Some(a)) == Body(WholePart(a), FractionPart(a))
  {
    assert IsDigit(a[0]) by {
      assert WholePart(a)[0] == a[0];
    }
  }

  /** Deleting the commas gives back a decimal that denotes the formatted number. */
  lemma FormatKeepsNumber(a: string)
    requires IsDecimal(a)
    ensures IsDecimal(RemoveCommas(FormatAmount(Some(a))))
    ensures SameNumber(RemoveCommas(FormatAmount(Some(a))), a)
  {
    UnsignedFormat(a);
    var w, f := WholePart(a), FractionPart(a);
    BodyWithoutCommas(w, f);
    StripStartCanonical(w);
    PrintValue(Value(w));
    TrimmedKeepsFraction(f);
    SameNumberParts(RemoveCommas(FormatAmount(Some(a))), a);
  }

  /** The magnitudes format alike exactly when they denote the same number. */
  lemma BodyCanonical(a: string, b: string)
    requires IsDecimal(a) && IsDecimal(b)
    ensures Body(WholePart(a), FractionPart(a)) == Body(WholePart(b), FractionPart(b)) <==> SameNumber(a, b)
  {
    var wa, fa, wb, fb := WholePart(a), FractionPart(a), WholePart(b), FractionPart(b);
    SameNumberParts(a, b);
    StripStartCanonical(wa);
    StripStartCanonical(wb);
    if Body(wa, fa) == Body(wb, fb) {
      BodyWithoutCommas(wa, fa);
      BodyWithoutCommas(wb, fb);
      PrintValue(Value(wa));
      PrintValue(Value(wb));
      TrimmedKeepsFraction(fa);
      TrimmedKeepsFraction(fb);
    }
  }

  /** For unsigned inputs `formatAmount` is a canonical form. */
  lemma FormatCanonical(a: string, b: string)
    requires IsDecimal(a) && IsDecimal(b)
    ensures FormatAmount(Some(a)) == FormatAmount(Some(b)) <==> SameNumber(a, b)
  {
    UnsignedFormat(a);
    UnsignedFormat(b);
    BodyCanonical(a, b);
  }

  /** A negative amount is shown as a minus and its magnitude, and whatever is not an amount as zero. */
  lemma NegativeAndMalformed(a: string, value: Option<string>)
    ensures IsDecimal(a) ==> FormatAmount(Some("-" + a)) == "-" + FormatAmount(Some(a))
    ensures value.None? ==> FormatAmount(value) == "0.00"
    ensures value.Some? && !IsDecimal(value.value) && (value.value == "" || value.value[0] != '-' || !IsDecimal(value.value[1..])) ==>
              FormatAmount(value) == "0.00"
  {
    hide Body, IsDecimal, WholePart, FractionPart;
    if IsDecimal(a) {
      UnsignedFormat(a);
      assert ("-" + a)[1..] == a;
      assert Magnitude("-" + a) == a;
    }
    assert value.Some? && IsNegative(value.value) ==> Magnitude(value.value) == value.value[1..];
  }

  /** For signed inputs the sign is part of the form. */
  lemma FormatEquality(a: string, b: string)
    requires IsSignedDecimal(a) && IsSignedDecimal(b)
    ensures FormatAmount(Some(a)) == FormatAmount(Some(b)) <==>
            IsNegative(a) == IsNegative(b) && SameNumber(Magnitude(a), Magnitude(b))
  {
    BodyCanonical(Magnitude(a), Magnitude(b));
    BodyStartsWithDigit(Magnitude(a));
    BodyStartsWithDigit(Magnitude(b));
    var pa, pb := FormatAmount(Some(a)), FormatAmount(Some(b));
    var ba := Body(WholePart(Magnitude(a)), FractionPart(Magnitude(a)));
    var bb := Body(WholePart(Magnitude(b)), FractionPart(Magnitude(b)));
    assert IsNegative(a) ==> pa == "-" + ba && pa[1..] == ba && pa[0] == '-';
    assert IsNegative(b) ==> pb == "-" + bb && pb[1..] == bb && pb[0] == '-';
    assert !IsNegative(a) ==> pa == ba;
    assert !IsNegative(b) ==> pb == bb;
  }

  lemma BodyStartsWithDigit(a: string)
    requires IsDecimal(a)
    ensures Body(WholePart(a), FractionPart(a)) != "" && IsDigit(Body(WholePart(a), FractionPart(a))[0])
  {
    var g := StripStart(WholePart(a));
    StripStartCanonical(WholePart(a));
    GroupsOfThree(g);
  }

  /** Over signed inputs equal texts mean equal numbers and back, unless one of the two is a negative zero. */
  lemma SignedCanonicalUnlessNegativeZero(a: string, b: string)
    requires IsSignedDecimal(a) && IsSignedDecimal(b)
    ensures (FormatAmount(Some(a)) == FormatAmount(Some(b)) <==> SameSignedNumber(a, b)) <==>
            !(IsNegative(a) != IsNegative(b) && IsZero(Magnitude(a)) && IsZero(Magnitude(b)))
  {
    FormatEquality(a, b);
    var x, y := Magnitude(a), Magnitude(b);
    SameNumberParts(x, y);
    ZeroFraction(FractionPart(x));
    ZeroFraction(FractionPart(y));
  }

  /** Zero and negative zero are the same number, shown apart. */
  lemma NegativeZeroShownApart()
    ensures IsSignedDecimal("0") && IsSignedDecimal("-0") && SameSignedNumber("0", "-0")
    ensures FormatAmount(Some("0")) == "0.00" && FormatAmount(Some("-0")) == "-0.00"
  {
    hide SameNumber, FormatAmount, Value;
    ZerosShown();
    SameNumberParts("0", "0");
  }

  lemma ZeroParts()
    ensures IsDecimal("0") && Magnitude("-0") == "0" && Magnitude("0") == "0"
    ensures WholePart("0") == "0" && FractionPart("0") == ""
  {
    hide WholePart, Value;
    assert "-0"[1..] == "0";
  }

  lemma ZeroBody()
    ensures Body("0", "") == "0.00"
  {
    hide StripEnd;
    assert StripEnd("") == "";
    assert "" + Zeros(2) == "00";
    assert GroupFrom("0", 1) == "";
  }

  lemma ZerosShown()
    ensures IsDecimal("0") && Magnitude("-0") == "0" && Magnitude("0") == "0" && IsZero("0")
    ensures FormatAmount(Some("0")) == "0.00" && FormatAmount(Some("-0")) == "-0.00"
  {
    hide WholePart, FractionPart, Body, Magnitude, IsDecimal;
    ZeroParts();
    ZeroBody();
    assert Value("0") == Value("") * 10 by {
      assert "0"[..0] == "";
    }
    assert Value("") == 0;
    hide Value;
    assert "-" + "0.00" == "-0.00";
  }

  lemma ZeroFraction(f: string)
    requires AllDigits(f)
    ensures Value(f) == 0 <==> StripEnd(f) == ""
  {
    if Value(f) == 0 {
      ValueZeros(|f|);
      FixedWidthInjective(f, Zeros(|f|));
      StripEndOfPadded("", |f|);
      assert "" + Zeros(|f|) == f;
    }
    if StripEnd(f) == "" {
      assert f == "" + Zeros(|f|) == Zeros(|f|);
      ValueZeros(|f|);
    }
  }

  lemma GroupedHead(g: string)
    requires g != "" && AllDigits(g)
    ensures Grouped(g) != "" && Grouped(g)[0] == g[0] && '.' !in Grouped(g)
    ensures |g| > 1 <==> |Grouped(g)| > 1
  {
    UngroupedFrom(g, 0);
    GroupsOfThree(g);
    assert Grouped(g) == [g[0]] + GroupFrom(g, 1);
  }

  /** The shape of a formatted unsigned amount: grouped digits, a point, two or more decimals without padding. */
  lemma FormatShape(a: string)
    requires IsDecimal(a)
    ensures
      var text := FormatAmount(Some(a));
      var g, t := WholePart(text), FractionPart(text);
      && text == g + "." + t
      && WellGrouped(g) && |g| % 4 != 0 && (|g| > 1 ==> g[0] != '0')
      && AllDigits(t) && |t| >= 2 && (|t| > 2 ==> t[|t| - 1] != '0')
  {
    hide Value, Print, StripStart, WholePart, FractionPart, Grouped, Trimmed, WellGrouped, FormatAmount;
    var g, t := StripStart(WholePart(a)), Trimmed(FractionPart(a));
    UnsignedFormat(a);
    StripStartCanonical(WholePart(a));
    PrintValue(Value(WholePart(a)));
    TrimmedDigits(FractionPart(a));
    GroupsOfThree(g);
    GroupedHead(g);
    SplitJoined(Grouped(g), t);
    assert FormatAmount(Some(a)) == Grouped(g) + "." + t;
  }

  /** Formatting twice changes nothing exactly when no separator was needed, and otherwise loses the number. */
  lemma FormatIdempotent(a: string)
    requires IsDecimal(a)
    ensures FormatAmount(Some(FormatAmount(Some(a)))) == FormatAmount(Some(a)) <==> Value(WholePart(a)) < 1000
    ensures Value(WholePart(a)) >= 1000 ==> FormatAmount(Some(FormatAmount(Some(a)))) == "0.00"
  {
    var g, t := StripStart(WholePart(a)), Trimmed(FractionPart(a));
    UnsignedFormat(a);
    StripStartCanonical(WholePart(a));
    PrintLength(Value(WholePart(a)), 3);
    assert Pow10(3) == 1000;
    TrimmedDigits(FractionPart(a));
    assert FormatAmount(Some(a)) == Grouped(g) + "." + t;
    if |g| <= 3 {
      PlainTextIsKept(a, g, t);
    } else {
      SeparatedTextIsMalformed(g, t);
      assert ',' !in "0.00";
    }
  }

  /** A thousand, shown once and shown again. */
  lemma ThousandShownAgain()
    ensures FormatAmount(Some("1000")) == "1,000.00" && FormatAmount(Some("1,000.00")) == "0.00"
  {
    hide Value, FormatAmount;
    ThousandShown();
    NumeralValue(1000, "1000");
    FormatIdempotent("1000");
  }

  lemma ThousandShown()
    ensures IsDecimal("1000") && WholePart("1000") == "1000" && FormatAmount(Some("1000")) == "1,000.00"
  {
    hide Value, FormatAmount, Grouped, StripEnd;
    UnsignedFormat("1000");
    ThousandGrouped();
    assert StripEnd("") == "";
    assert "" + Zeros(2) == "00";
  }

  lemma ThousandGrouped()
    ensures Grouped("1000") == "1,000"
  {
    assert GroupFrom("1000", 4) == "";
    assert GroupFrom("1000", 3) == "0";
    assert GroupFrom("1000", 2) == "00";
    assert GroupFrom("1000", 1) == ",000";
  }

  lemma PlainTextIsKept(a: string, g: string, t: string)
    requires IsDecimal(a) && FormatAmount(Some(a)) == Grouped(g) + "." + t
    requires g != "" && AllDigits(g) && |g| <= 3 && t != "" && AllDigits(t)
    ensures FormatAmount(Some(FormatAmount(Some(a)))) == FormatAmount(Some(a))
  {
    hide RemoveCommas, GroupFrom, Grouped, FormatAmount, Value, SameNumber;
    var text := g + "." + t;
    ShortGroupIsPlain(g);
    JoinedIsDecimal(g, t);
    RemoveCommasIdentity(text);
    FormatKeepsNumber(a);
    FormatCanonical(text, a);
  }

  lemma ShortGroupIsPlain(g: string)
    requires g != "" && AllDigits(g) && |g| <= 3
    ensures Grouped(g) == g
  {
    hide RemoveCommas, GroupFrom;
    GroupsOfThree(g);
    UngroupFrom(g, 0);
    RemoveCommasIdentity(Grouped(g));
    assert g[0..] == g;
  }

  lemma SeparatedTextIsMalformed(g: string, t: string)
    requires AllDigits(g) && |g| > 3
    ensures ',' in Grouped(g) + "." + t
    ensures FormatAmount(Some(Grouped(g) + "." + t)) == "0.00"
  {
    var text := Grouped(g) + "." + t;
    GroupsOfThree(g);
    UngroupedFrom(g, 0);
    SplitJoined(Grouped(g), t);
    var j := |Grouped(g)| - 4;
    assert Grouped(g)[j] == ',' && text[j] == ',';
    assert text[0] == Grouped(g)[0];
    assert !IsDecimal(text);
  }

  // ----- Stroops and totals --------------------------------------------------------------

  lemma UnitsFormatted(units: nat)
    ensures
      var s := FormatAmount(Some(UnitsToDecimal(units)));
      IsDecimal(RemoveCommas(s)) && DenotesUnits(RemoveCommas(s), units)
  {
    var d := UnitsToDecimal(units);
    UnitsToDecimalParts(units);
    FormatKeepsNumber(d);
    var c := RemoveCommas(FormatAmount(Some(d)));
    Powers();
    ValueConcat(WholePart(d), FractionPart(d));
    ValueConcat(WholePart(c), FractionPart(c));
    assert Value(WholePart(d) + FractionPart(d)) == units;
  }

  /** Accepted exactly on well-formed inputs, and then the text denotes amount stroops plus fee. */
  lemma TotalWithFeeExact(amount: string, fee: string)
    ensures TotalWithFee(amount, fee).Some? <==> Stroops(amount).Some? && fee != "" && AllDigits(fee)
    ensures TotalWithFee(amount, fee).Some? ==>
              var s := RemoveCommas(TotalWithFee(amount, fee).value);
              IsDecimal(s) && DenotesUnits(s, Stroops(amount).value + Value(fee))
  {
    if IsAmount(amount) && fee != "" && AllDigits(fee) {
      var units := Stroops(amount).value + Value(fee);
      UnitsFormatted(units);
      assert TotalWithFee(amount, fee) == Some(FormatAmount(Some(UnitsToDecimal(units))));
    }
  }

  /** `stroopsToXlm` shows exactly the number of stroops it was given, and hands back anything that is no number. */
  lemma StroopsToXlmExact(stroops: string)
    ensures stroops != "" && AllDigits(stroops) ==>
              && IsDecimal(RemoveCommas(StroopsToXlm(stroops)))
              && DenotesUnits(RemoveCommas(StroopsToXlm(stroops)), Value(stroops))
    ensures stroops == "" || !AllDigits(stroops) ==> StroopsToXlm(stroops) == stroops
  {
    if stroops != "" && AllDigits(stroops) {
      UnitsFormatted(Value(stroops));
    }
    hide RemoveCommas, DenotesUnits, FormatAmount, IsDecimal;
  }
}
