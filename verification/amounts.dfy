/**
 XLM amounts as decimal strings: the parser every comparison in the backend goes through, the
 seven-decimal printer, and the trip an amount makes through a NUMERIC(30,12) column.
 */
module Amounts {
  import opened Wrappers
  import opened Digits

  const STROOPS_PER_XLM: nat := 10_000_000

  /** Stellar amounts are signed 64-bit stroops. */
  const MAX_INT64: nat := 0x7fff_ffff_ffff_ffff

  // ----- Splitting at the decimal point --------------------------------------------------

  /** The text before the first '.', or all of it. */
  function WholePart(s: string): (w: string)
    ensures w <= s && '.' !in w
    ensures '.' !in s ==> w == s
    ensures '.' in s ==> |w| < |s| && s[|w|] == '.'
  {
    if s == "" || s[0] == '.' then "" else
      assert s == [s[0]] + s[1..];
      [s[0]] + WholePart(s[1..])
  }

  /** The text after the first '.', or nothing. */
  function FractionPart(s: string): string {
    if '.' in s then s[|WholePart(s)| + 1..] else ""
  }

  /** `/^\d+(\.\d+)?$/` */
  predicate IsDecimal(s: string) {
    && WholePart(s) != "" && AllDigits(WholePart(s))
    && AllDigits(FractionPart(s))
    && ('.' in s ==> FractionPart(s) != "")
  }

  /** `/^\d{1,12}(\.\d{1,7})?$/` */
  predicate IsAmount(s: string) {
    IsDecimal(s) && |WholePart(s)| <= 12 && |FractionPart(s)| <= 7
  }

  lemma {:induction false} SplitJoined(w: string, f: string)
    requires '.' !in w
    ensures WholePart(w + "." + f) == w && FractionPart(w + "." + f) == f
  {
    var s := w + "." + f;
    assert s[|w|] == '.';
    var w' := WholePart(s);
    assert w' == s[..|w'|] == w;
  }

  lemma DigitsHaveNoPoint(s: string)
    requires AllDigits(s)
    ensures '.' !in s
  {
  }

  // ----- Stroops -------------------------------------------------------------------------

  /** `stroops`: the amount in units of 10^-7, or nothing for a string the check rejects. */
  function Stroops(s: string): Option<nat> {
    if IsAmount(s)
    then Some(Value(WholePart(s)) * STROOPS_PER_XLM + Value(PadEnd(FractionPart(s), 7)))
    else None
  }

  lemma PadEndDigits(f: string, n: nat)
    requires AllDigits(f)
    ensures AllDigits(PadEnd(f, n))
    ensures |f| <= n ==> PadEnd(f, n) == f + Zeros(n - |f|) && |PadEnd(f, n)| == n
  {
    assert |f| == n ==> f + Zeros(0) == f;
  }

  /** Padding a fraction further multiplies its value by the extra power of ten. */
  lemma PadEndScales(f: string, n: nat, m: nat)
    requires AllDigits(f) && |f| <= n <= m
    ensures AllDigits(PadEnd(f, n)) && AllDigits(PadEnd(f, m))
    ensures Value(PadEnd(f, m)) == Value(PadEnd(f, n)) * Pow10(m - n)
  {
    PadEndDigits(f, n);
    PadEndDigits(f, m);
    Repad(PadEnd(f, n), f, m - n, m - |f|);
    ValueOfPadded(PadEnd(f, n), m - n);
  }

  lemma Powers()
    ensures Pow10(5) == 100_000 && Pow10(7) == STROOPS_PER_XLM
    ensures Pow10(12) == 1_000_000_000_000
    ensures Pow10(19) == 10_000_000_000_000_000_000
  {
    Pow10Add(5, 7);
    Pow10Add(7, 12);
  }

  lemma AmountBound(s: string)
    requires IsAmount(s)
    ensures Stroops(s).value < Pow10(19)
  {
    Powers();
    var w, f := WholePart(s), PadEnd(FractionPart(s), 7);
    PadEndDigits(FractionPart(s), 7);
    ValueBound(w);
    ValueBound(f);
    Pow10Monotone(|w|, 12);
  }

  lemma {:induction false} Pow10Monotone(a: nat, b: nat)
    requires a <= b
    ensures Pow10(a) <= Pow10(b)
  {
    if a < b {
      Pow10Monotone(a, b - 1);
    }
  }

  /** Whole units and seven decimals, as Stellar prints an amount of stroops. */
  function UnitsToDecimal(units: nat): string {
    var padded := PadStart(Print(units), 8);
    assert |padded| >= 8;
    padded[..|padded| - 7] + "." + padded[|padded| - 7..]
  }

  lemma UnitsToDecimalParts(units: nat)
    ensures
      var s := UnitsToDecimal(units);
      && IsDecimal(s) && |FractionPart(s)| == 7
      && Value(WholePart(s)) * STROOPS_PER_XLM + Value(FractionPart(s)) == units
      && (|WholePart(s)| <= 12 <==> units < Pow10(19))
  {
    hide Value, Print, WholePart, FractionPart, Pow10;
    var p := PadStart(Print(units), 8);
    var w, f := p[..|p| - 7], p[|p| - 7..];
    Powers();
    PrintValue(units);
    PrintLength(units, 19);
    if |Print(units)| < 8 {
      ValueOfPadded(Print(units), 8 - |Print(units)|);
    }
    assert p == w + f;
    ValueConcat(w, f);
    DigitsHaveNoPoint(w);
    SplitJoined(w, f);
  }

  /** Printing stroops and parsing the text back is the identity exactly below 10^19. */
  lemma UnitsRoundTrip(units: nat)
    ensures Stroops(UnitsToDecimal(units)) == if units < Pow10(19) then Some(units) else None
  {
    UnitsToDecimalParts(units);
    PadEndDigits(FractionPart(UnitsToDecimal(units)), 7);
  }

  // ----- The NUMERIC(30,12) column -------------------------------------------------------

  const NUMERIC_SCALE: nat := 1_000_000_000_000

  /** An accepted amount as the column holds it: an integer number of 10^-12. */
  function ToNumeric(s: string): nat
    requires IsAmount(s)
  {
    PadEndDigits(FractionPart(s), 12);
    Value(WholePart(s)) * NUMERIC_SCALE + Value(PadEnd(FractionPart(s), 12))
  }

  /** A NUMERIC(30,12) read back as text always carries twelve decimals. */
  function PrintNumeric(n: nat): string {
    Print(n / NUMERIC_SCALE) + "." + PadStart(Print(n % NUMERIC_SCALE), 12)
  }

  /** `.replace(/(\.\d*?)0+$/, '$1')` */
  function TrimFraction(s: string): string {
    if '.' in s then WholePart(s) + "." + StripEnd(FractionPart(s)) else s
  }

  /** `.replace(/\.$/, '')` */
  function TrimPoint(s: string): string {
    if s != "" && s[|s| - 1] == '.' then s[..|s| - 1] else s
  }

  /** The amount field of the row converter `intent`. */
  function RowAmount(n: nat): string {
    TrimPoint(TrimFraction(PrintNumeric(n)))
  }

  lemma NumericIsStroops(s: string)
    requires IsAmount(s)
    ensures ToNumeric(s) == Stroops(s).value * 100_000
  {
    Powers();
    PadEndScales(FractionPart(s), 7, 12);
  }

  lemma PrintPadded(r: nat, width: nat)
    requires width > 0 && r < Pow10(width)
    ensures AllDigits(PadStart(Print(r), width)) && |PadStart(Print(r), width)| == width
    ensures Value(PadStart(Print(r), width)) == r
  {
    hide Value, Print, Pow10;
    PrintValue(r);
    PrintLength(r, width);
    if |Print(r)| < width {
      ValueOfPadded(Print(r), width - |Print(r)|);
    }
  }

  lemma StripEndDigits(p: string)
    requires AllDigits(p)
    ensures |StripEnd(p)| <= |p| && AllDigits(StripEnd(p))
    ensures p == PadEnd(StripEnd(p), |p|)
  {
    var t := StripEnd(p);
    assert forall i :: 0 <= i < |t| ==> t[i] == p[i];
  }

  /** The twelve printed decimals, and what is left of them once the zeros are stripped. */
  lemma NumericFraction(n: nat)
    ensures
      var p := PadStart(Print(n % NUMERIC_SCALE), 12);
      && AllDigits(p) && |p| == 12 && Value(p) == n % NUMERIC_SCALE
      && |StripEnd(p)| <= 12 && AllDigits(StripEnd(p)) && p == PadEnd(StripEnd(p), 12)
  {
    Powers();
    PrintPadded(n % NUMERIC_SCALE, 12);
    StripEndDigits(PadStart(Print(n % NUMERIC_SCALE), 12));
  }

  lemma RowAmountParts(n: nat)
    ensures
      var t := StripEnd(PadStart(Print(n % NUMERIC_SCALE), 12));
      && IsDecimal(RowAmount(n))
      && WholePart(RowAmount(n)) == Print(n / NUMERIC_SCALE)
      && FractionPart(RowAmount(n)) == t
  {
    hide Value, Print, WholePart, StripEnd, PadStart;
    var w, p := Print(n / NUMERIC_SCALE), PadStart(Print(n % NUMERIC_SCALE), 12);
    NumericFraction(n);
    DigitsHaveNoPoint(w);
    SplitJoined(w, p);
    var t := StripEnd(p);
    var s := w + "." + t;
    assert PrintNumeric(n)[|w|] == '.';
    assert TrimFraction(PrintNumeric(n)) == s;
    SplitJoined(w, t);
    if t == "" {
      assert TrimPoint(s) == w;
    } else {
      assert s[|s| - 1] == t[|t| - 1];
      assert s[|w|] == '.';
    }
  }

  /** Seven decimals suffice for a stripped fraction exactly when it is a whole number of stroops. */
  lemma StrippedFitsSeven(p: string)
    requires AllDigits(p) && |p| == 12 && AllDigits(StripEnd(p))
    ensures |StripEnd(p)| <= 7 <==> Value(p) % 100_000 == 0
  {
    hide Value, StripEnd, Pow10;
    Powers();
    var head, tail := p[..7], p[7..];
    assert p == head + tail;
    ValueConcat(head, tail);
    ValueBound(tail);
    assert Value(p) % 100_000 == Value(tail);
    if Value(tail) == 0 {
      ValueZeros(5);
      FixedWidthInjective(tail, Zeros(5));
      StripEndOfPadded(head, 5);
    }
    if |StripEnd(p)| <= 7 {
      assert tail == Zeros(5);
      ValueZeros(5);
    }
  }

  /** What `Stroops` says of a decimal whose two halves are known. */
  lemma StroopsOfParts(s: string, w: string, f: string, whole: nat)
    requires IsDecimal(s) && WholePart(s) == w && FractionPart(s) == f
    requires w == Print(whole)
    ensures whole >= NUMERIC_SCALE || |f| > 7 ==> Stroops(s) == None
    ensures whole < NUMERIC_SCALE && |f| <= 7 ==>
              Stroops(s) == Some(whole * STROOPS_PER_XLM + Value(PadEnd(f, 7)))
  {
    Powers();
    PrintValue(whole);
    PrintLength(whole, 12);
  }

  /** A fraction of seven decimals or fewer, seen at width twelve. */
  lemma SevenOfTwelve(p: string, t: string)
    requires AllDigits(t) && |t| <= 7 && p == PadEnd(t, 12)
    ensures AllDigits(p) && AllDigits(PadEnd(t, 7)) && Value(p) == Value(PadEnd(t, 7)) * 100_000
  {
    Powers();
    PadEndScales(t, 7, 12);
  }

  /**
   Which stored values survive the trip.  The text a row yields is accepted exactly when the
   stored number is a whole number of stroops below 10^12 XLM, and then it means that number.
   */
  lemma RowAmountAccepted(n: nat)
    ensures Stroops(RowAmount(n)) ==
            if n % 100_000 == 0 && n / NUMERIC_SCALE < NUMERIC_SCALE then Some(n / 100_000) else None
  {
    var p := PadStart(Print(n % NUMERIC_SCALE), 12);
    NumericFraction(n);
    RowAmountParts(n);
    RowAmountOf(n, RowAmount(n), p, StripEnd(p));
  }

  lemma RowAmountOf(n: nat, s: string, p: string, t: string)
    requires IsDecimal(s) && WholePart(s) == Print(n / NUMERIC_SCALE) && FractionPart(s) == t
    requires AllDigits(p) && |p| == 12 && Value(p) == n % NUMERIC_SCALE
    requires t == StripEnd(p) && AllDigits(t) && p == PadEnd(t, 12)
    ensures Stroops(s) ==
            if n % 100_000 == 0 && n / NUMERIC_SCALE < NUMERIC_SCALE then Some(n / 100_000) else None
  {
    hide Value, Print, WholePart, FractionPart, StripEnd, PadStart, PadEnd;
    StrippedFitsSeven(p);
    NumericRemainder(n);
    StroopsOfParts(s, Print(n / NUMERIC_SCALE), t, n / NUMERIC_SCALE);
    if |t| <= 7 {
      SevenOfTwelve(p, t);
      NumericSplit(n, n / NUMERIC_SCALE, Value(PadEnd(t, 7)));
    }
  }

  lemma NumericRemainder(n: nat)
    ensures n % NUMERIC_SCALE % 100_000 == n % 100_000
  {
    var q, r := n / NUMERIC_SCALE, n % NUMERIC_SCALE;
    assert n == 100_000 * (10_000_000 * q + r / 100_000) + r % 100_000;
  }

  lemma NumericSplit(n: nat, whole: nat, fraction: nat)
    requires n == whole * NUMERIC_SCALE + fraction * 100_000
    ensures n % 100_000 == 0 && n / 100_000 == whole * STROOPS_PER_XLM + fraction
  {
    assert n == 100_000 * (whole * STROOPS_PER_XLM + fraction);
  }

  lemma NumericRange(n: nat, stroops: nat)
    requires n == stroops * 100_000 && stroops < 10_000_000_000_000_000_000
    ensures n % 100_000 == 0 && n / 100_000 == stroops && n / NUMERIC_SCALE < NUMERIC_SCALE
  {
  }

  /** An accepted amount, stored and read back, is accepted again with the same value. */
  lemma RowRoundTrip(s: string)
    requires IsAmount(s)
    ensures Stroops(RowAmount(ToNumeric(s))) == Stroops(s)
  {
    Powers();
    NumericIsStroops(s);
    AmountBound(s);
    NumericRange(ToNumeric(s), Stroops(s).value);
    RowAmountAccepted(ToNumeric(s));
  }

  // ----- What is an amount ---------------------------------------------------------------

  ghost predicate FractionalText(s: string, w: string, f: string) {
    s == w + "." + f && w != "" && f != "" && AllDigits(w) && AllDigits(f)
  }

  /** A decimal is a run of digits, or two of them around one point. */
  lemma DecimalShape(s: string)
    ensures IsDecimal(s) <==> (s != "" && AllDigits(s)) || exists w, f :: FractionalText(s, w, f)
    ensures forall w, f :: FractionalText(s, w, f) ==> WholePart(s) == w && FractionPart(s) == f
  {
    hide WholePart, FractionPart, AllDigits;
    forall w, f | FractionalText(s, w, f) ensures WholePart(s) == w && FractionPart(s) == f && IsDecimal(s) {
      FractionalParts(s, w, f);
    }
    if AllDigits(s) {
      WholeParts(s);
    }
    if IsDecimal(s) {
      DecimalParts(s);
    }
    hide IsDecimal, FractionalText;
  }

  lemma FractionalParts(s: string, w: string, f: string)
    requires FractionalText(s, w, f)
    ensures WholePart(s) == w && FractionPart(s) == f && IsDecimal(s)
  {
    DigitsHaveNoPoint(w);
    SplitJoined(w, f);
    hide WholePart, FractionPart;
  }

  lemma DecimalParts(s: string)
    requires IsDecimal(s)
    ensures (s != "" && AllDigits(s)) || FractionalText(s, WholePart(s), FractionPart(s))
  {
    if '.' in s {
      assert s == WholePart(s) + "." + FractionPart(s);
    }
  }

  /**
   What `stroops` accepts and what it makes of it: one to twelve digits are whole units, and one to
   seven digits after a point are that many decimal places of a unit.
   */
  lemma StroopsMeans(s: string)
    ensures Stroops(s).Some? <==>
            (AllDigits(s) && 1 <= |s| <= 12) || exists w, f :: FractionalText(s, w, f) && |w| <= 12 && |f| <= 7
    ensures AllDigits(s) && 1 <= |s| <= 12 ==> Stroops(s) == Some(Value(s) * 10_000_000)
    ensures forall w, f :: FractionalText(s, w, f) && |w| <= 12 && |f| <= 7 ==>
              Stroops(s) == Some(Value(w) * 10_000_000 + Value(f) * Pow10(7 - |f|))
  {
    hide Value, Pow10, WholePart, FractionPart, IsDecimal, Stroops, PadEnd, AllDigits, FractionalText;
    if Stroops(s).Some? {
      AcceptedShape(s);
    }
    if AllDigits(s) && 1 <= |s| <= 12 {
      WholeStroops(s);
    }
    forall w, f | FractionalText(s, w, f) && |w| <= 12 && |f| <= 7
      ensures AllDigits(w) && AllDigits(f) && Stroops(s) == Some(Value(w) * 10_000_000 + Value(f) * Pow10(7 - |f|))
    {
      FractionalStroops(s, w, f);
    }
  }

  lemma AcceptedShape(s: string)
    requires Stroops(s).Some?
    ensures (AllDigits(s) && 1 <= |s| <= 12) ||
            (FractionalText(s, WholePart(s), FractionPart(s)) && |WholePart(s)| <= 12 && |FractionPart(s)| <= 7)
  {
    AcceptedIsAmount(s);
    DecimalParts(s);
    hide WholePart, FractionPart, IsDecimal, Stroops;
    if AllDigits(s) {
      WholeParts(s);
    }
  }

  lemma AcceptedIsAmount(s: string)
    ensures Stroops(s).Some? <==> IsDecimal(s) && |WholePart(s)| <= 12 && |FractionPart(s)| <= 7
  {
    hide IsDecimal, Value;
  }

  lemma WholeParts(s: string)
    requires AllDigits(s)
    ensures WholePart(s) == s && FractionPart(s) == "" && (s != "" ==> IsDecimal(s))
  {
    DigitsHaveNoPoint(s);
  }

  lemma NothingPadded()
    ensures AllDigits(PadEnd("", 7)) && Value(PadEnd("", 7)) == 0
  {
    assert "" + Zeros(7) == Zeros(7);
    ValueZeros(7);
  }

  lemma WholeStroops(s: string)
    requires AllDigits(s) && 1 <= |s| <= 12
    ensures Stroops(s) == Some(Value(s) * 10_000_000)
  {
    hide Value, WholePart, FractionPart, PadEnd, IsDecimal, IsAmount, Stroops, Zeros, AllDigits;
    NothingPadded();
    WholeParts(s);
    StroopsFromParts(s);
  }

  lemma StroopsFromParts(s: string)
    requires IsDecimal(s) && |WholePart(s)| <= 12 && |FractionPart(s)| <= 7
    ensures AllDigits(WholePart(s)) && AllDigits(PadEnd(FractionPart(s), 7))
    ensures Stroops(s) == Some(Value(WholePart(s)) * STROOPS_PER_XLM + Value(PadEnd(FractionPart(s), 7)))
  {
    hide WholePart, FractionPart, Value, PadEnd;
    PadEndDigits(FractionPart(s), 7);
  }

  lemma FractionalStroops(s: string, w: string, f: string)
    requires FractionalText(s, w, f) && |w| <= 12 && |f| <= 7
    ensures AllDigits(w) && AllDigits(f)
    ensures Stroops(s) == Some(Value(w) * 10_000_000 + Value(f) * Pow10(7 - |f|))
  {
    hide Value, Pow10, WholePart, FractionPart;
    DigitsHaveNoPoint(w);
    SplitJoined(w, f);
    PadEndDigits(f, 7);
    ValueOfPadded(f, 7 - |f|);
  }

  // ----- Particular amounts --------------------------------------------------------------

  lemma OneXlm()
    ensures Stroops("1") == Some(STROOPS_PER_XLM)
  {
    assert "" + Zeros(7) == Zeros(7);
    ValueZeros(7);
    assert Value("1") == Value("") * 10 + 1;
  }

  lemma ZeroXlm()
    ensures Stroops("0") == Some(0)
  {
    assert "" + Zeros(7) == Zeros(7);
    ValueZeros(7);
    assert Value("0") == Value("") * 10 + 0;
  }

  lemma NumeralValue(n: nat, s: string)
    requires s == Print(n)
    ensures AllDigits(s) && Value(s) == n
  {
    PrintValue(n);
  }

  lemma Chunks()
    ensures AllDigits("922") && Value("922") == 922 && AllDigits("337") && Value("337") == 337
    ensures AllDigits("203") && Value("203") == 203 && AllDigits("685") && Value("685") == 685
    ensures AllDigits("477") && Value("477") == 477 && AllDigits("5808") && Value("5808") == 5808
  {
    hide Value;
    NumeralValue(922, "922");
    NumeralValue(337, "337");
    NumeralValue(203, "203");
    NumeralValue(685, "685");
    NumeralValue(477, "477");
    NumeralValue(5808, "5808");
  }

  lemma ChunksJoined()
    ensures AllDigits("922337203685") && Value("922337203685") == 922337203685
    ensures AllDigits("4775808") && Value("4775808") == 4775808
  {
    hide Value;
    Chunks();
    assert Pow10(3) == 1000 && Pow10(4) == 10_000;
    ValueConcat("922", "337");
    ValueConcat("922" + "337", "203");
    ValueConcat("922" + "337" + "203", "685");
    assert "922" + "337" + "203" + "685" == "922337203685";
    ValueConcat("477", "5808");
    assert "477" + "5808" == "4775808";
  }

  lemma JoinedStroops(w: string, f: string)
    requires AllDigits(w) && 0 < |w| <= 12 && AllDigits(f) && |f| == 7
    ensures Stroops(w + "." + f) == Some(Value(w) * STROOPS_PER_XLM + Value(f))
  {
    hide Value, WholePart;
    DigitsHaveNoPoint(w);
    SplitJoined(w, f);
    assert PadEnd(f, 7) == f;
  }

  /** The first amount whose stroops do not fit 64 signed bits is an accepted amount. */
  lemma FirstBeyondLedger()
    ensures Stroops("922337203685.4775808") == Some(MAX_INT64 + 1)
  {
    hide Stroops, Value;
    ChunksJoined();
    JoinedStroops("922337203685", "4775808");
    assert "922337203685" + "." + "4775808" == "922337203685.4775808";
  }
}
