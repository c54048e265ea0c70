/** internal/engine/factor.go: factors as text and as millionths. */
module Factor {
  import opened Collections
  import opened Model
  import opened Text

  /** Signed 64-bit wrap-around. */
  function Wrap64(x: int): int64 {
    (x - MIN_INT64) % 0x1_0000_0000_0000_0000 + MIN_INT64
  }

  function ParseFactor(input: string): Result<int64> {
    var value := TrimSpace(input);
    if value == "" then Err(BadInput) else
    var parts := Split(value, '.');
    if |parts| > 2 then Err(BadInput)
    else if parts[0] == "" || !AllDigits(parts[0]) then Err(BadInput)
    else if |parts| == 2 && (parts[1] == "" || |parts[1]| > 6 || !AllDigits(parts[1])) then Err(BadInput)
    else
      var whole :- ParseDigits(parts[0]);
      if whole > MAX_INT64 / SCALE then Err(BadInput)
      else
        var fraction :- if |parts| == 2 then PaddedFraction(parts[1]) else Ok(0);
        var ppm := Wrap64(whole * SCALE + fraction);
        if ppm < SCALE then Err(BadInput) else Ok(ppm)
  }

  function PaddedFraction(digits: string): Result<int64>
    requires AllDigits(digits) && |digits| <= 6
  {
    var padded := digits + Zeros(6 - |digits|);
    assert AllDigits(padded);
    ParseDigits(padded)
  }

  function FormatFactor(ppm: int64): string
    requires ppm >= 0
  {
    FormatParts(ppm / SCALE, ppm % SCALE)
  }

  function FormatParts(whole: nat, fraction: nat): string {
    if fraction == 0 then Decimal(whole) else TrimZeros(Decimal(whole) + "." + Padded(fraction, 6))
  }

  /** `text` is a decimal numeral with at most six fractional digits whose exact value is ppm millionths. */
  ghost predicate Denotes(text: string, ppm: int) {
    || (text != "" && AllDigits(text) && ppm == Val(text) * SCALE)
    || (exists w: string, f: string :: DenotesParts(text, w, f, ppm))
  }

  ghost predicate DenotesParts(text: string, w: string, f: string, ppm: int) {
    && text == w + "." + f
    && w != "" && AllDigits(w)
    && f != "" && |f| <= 6 && AllDigits(f)
    && ppm == Val(w) * SCALE + Val(f) * Pow10(6 - |f|)
  }

  lemma {:induction false} ValBound(s: string)
    requires AllDigits(s)
    ensures Val(s) < Pow10(|s|)
  {
    if s != [] {
      ValBound(s[..|s| - 1]);
    }
  }

  lemma PaddedFractionValue(f: string)
    requires f != "" && |f| <= 6 && AllDigits(f)
    ensures PaddedFraction(f) == Ok(Val(f) * Pow10(6 - |f|))
    ensures Val(f) * Pow10(6 - |f|) < SCALE
  {
    ValAppendZeros(f, 6 - |f|);
    ValBound(f + Zeros(6 - |f|));
    PowSix();
  }

  /** whole * 1000000 + fraction can pass MaxInt64 at one whole part only, and then the wrapped sum is negative. */
  lemma WrapIsRejected(whole: int, fraction: int)
    requires 0 <= whole <= MAX_INT64 / SCALE && 0 <= fraction < SCALE
    ensures whole * SCALE + fraction <= MAX_INT64 ==> Wrap64(whole * SCALE + fraction) == whole * SCALE + fraction
    ensures whole * SCALE + fraction > MAX_INT64 ==> whole == MAX_INT64 / SCALE && Wrap64(whole * SCALE + fraction) < 0
  {
    if whole < MAX_INT64 / SCALE {
      assert whole * SCALE + fraction < MAX_INT64;
    }
  }

  /**
   * A factor text is accepted exactly when it denotes a number of millionths from 1000000 to MaxInt64, and that
   * number is the result.
   */
  lemma ParseFactorExact(input: string, ppm: int)
    ensures (SCALE <= ppm <= MAX_INT64 && Denotes(TrimSpace(input), ppm)) <==>
            (ParseFactor(input).Ok? && ParseFactor(input).value == ppm)
  {
    var text := TrimSpace(input);
    if SCALE <= ppm <= MAX_INT64 && Denotes(text, ppm) {
      DenotedIsAccepted(input, ppm);
    }
    if ParseFactor(input).Ok? && ParseFactor(input).value == ppm {
      AcceptedIsDenoted(input);
    }
  }

  lemma DenotedIsAccepted(input: string, ppm: int)
    requires SCALE <= ppm <= MAX_INT64 && Denotes(TrimSpace(input), ppm)
    ensures ParseFactor(input) == Ok(ppm)
  {
    var text := TrimSpace(input);
    if text != "" && AllDigits(text) && ppm == Val(text) * SCALE {
      assert '.' !in text;
      WrapIsRejected(Val(text), 0);
    } else {
      var w: string, f: string :| DenotesParts(text, w, f, ppm);
      assert '.' !in w && '.' !in f;
      SplitOnce(w, '.', f);
      PaddedFractionValue(f);
      var fraction := Val(f) * Pow10(6 - |f|);
      WholeBound(Val(w), fraction);
      WrapIsRejected(Val(w), fraction);
    }
  }

  lemma WholeBound(whole: nat, fraction: nat)
    requires whole * SCALE + fraction <= MAX_INT64
    ensures whole <= MAX_INT64 / SCALE
  {
  }

  lemma AcceptedIsDenoted(input: string)
    requires ParseFactor(input).Ok?
    ensures SCALE <= ParseFactor(input).value && Denotes(TrimSpace(input), ParseFactor(input).value)
  {
    var text := TrimSpace(input);
    var parts := Split(text, '.');
    var ppm := ParseFactor(input).value;
    if |parts| == 1 {
      WrapIsRejected(Val(parts[0]), 0);
    } else {
      PaddedFractionValue(parts[1]);
      WrapIsRejected(Val(parts[0]), Val(parts[1]) * Pow10(6 - |parts[1]|));
      assert DenotesParts(text, parts[0], parts[1], ppm);
    }
  }

  /** Every stored factor survives being shown and read back. */
  lemma FactorRoundTrip(ppm: int64)
    requires ppm >= SCALE
    ensures ParseFactor(FormatFactor(ppm)) == Ok(ppm)
  {
    var text := FormatFactor(ppm);
    FormatDenotes(ppm);
    NoSpaceNoTrim(text);
    ParseFactorExact(text, ppm);
  }

  lemma WholeDenotes(text: string, ppm: int)
    requires text != "" && AllDigits(text) && ppm == Val(text) * SCALE
    ensures Denotes(text, ppm) && IsDigit(text[0]) && IsDigit(text[|text| - 1])
  {
  }

  lemma SplitPpm(ppm: int64)
    requires ppm >= SCALE
    ensures 0 <= ppm / SCALE && 0 <= ppm % SCALE < SCALE && ppm == ppm / SCALE * SCALE + ppm % SCALE
  {
  }

  predicate DigitEnds(text: string) {
    text != "" && IsDigit(text[0]) && IsDigit(text[|text| - 1])
  }

  lemma PartsFormatted(whole: nat, fraction: nat, ppm: int)
    requires fraction < SCALE && ppm == whole * SCALE + fraction
    ensures Denotes(FormatParts(whole, fraction), ppm) && DigitEnds(FormatParts(whole, fraction))
  {
    if fraction == 0 {
      WholeDenotes(Decimal(whole), ppm);
    } else {
      FractionDenotes(whole, fraction);
    }
  }

  lemma FormatDenotes(ppm: int64)
    requires ppm >= SCALE
    ensures Denotes(FormatFactor(ppm), ppm) && DigitEnds(FormatFactor(ppm))
  {
    SplitPpm(ppm);
    PartsFormatted(ppm / SCALE, ppm % SCALE, ppm);
  }

  lemma FractionParts(w: string, whole: nat, fraction: nat)
    requires w != "" && AllDigits(w) && Val(w) == whole && 0 < fraction < SCALE
    ensures var f := TrimZeros(Padded(fraction, 6));
            DenotesParts(w + "." + f, w, f, whole * SCALE + fraction)
                && TrimZeros(w + "." + Padded(fraction, 6)) == w + "." + f
  {
    PaddedSix(fraction);
    FormattedParts(w, Padded(fraction, 6));
    TrimmedValue(Padded(fraction, 6));
  }

  lemma FractionDenotes(whole: nat, fraction: nat)
    requires 0 < fraction < SCALE
    ensures var text := TrimZeros(Decimal(whole) + "." + Padded(fraction, 6));
            Denotes(text, whole * SCALE + fraction) && text != "" && IsDigit(text[0]) && IsDigit(text[|text| - 1])
  {
    var w, f := Decimal(whole), TrimZeros(Padded(fraction, 6));
    FractionParts(w, whole, fraction);
    PartsDenote(w, f, whole * SCALE + fraction);
  }

  lemma PaddedValue(n: nat, width: nat, limit: int)
    requires n < limit == Pow10(width)
    ensures Val(Padded(n, width)) == n
  {
    ModUnique(n, limit, 0, n);
  }

  lemma PaddedSix(fraction: nat)
    requires fraction < SCALE
    ensures Val(Padded(fraction, 6)) == fraction
  {
    PowSix();
    PaddedValue(fraction, 6, SCALE);
  }

  lemma PartsDenote(w: string, f: string, ppm: int)
    requires DenotesParts(w + "." + f, w, f, ppm)
    ensures var text := w + "." + f;
            Denotes(text, ppm) && text != "" && IsDigit(text[0]) && IsDigit(text[|text| - 1])
  {
    var text := w + "." + f;
    assert text[0] == w[0] && text[|text| - 1] == f[|f| - 1];
  }

  lemma PowSix()
    ensures Pow10(6) == SCALE
  {
    assert Pow10(3) == 1000;
  }

  lemma TrimmedValue(padded: string)
    requires AllDigits(padded) && |padded| == 6
    ensures var f := TrimZeros(padded); AllDigits(f) && Val(f) * Pow10(6 - |f|) == Val(padded)
  {
    var f := TrimZeros(padded);
    ValAppendZeros(f, 6 - |f|);
  }

  /** Trailing zeros are cut from the fraction alone. */
  lemma FormattedParts(w: string, f: string)
    requires AllDigits(f) && Val(f) != 0
    ensures TrimZeros(f) != ""
    ensures TrimZeros(w + "." + f) == w + "." + TrimZeros(f)
    decreases |f|
  {
    var s := w + "." + f;
    if f[|f| - 1] == '0' {
      assert s[..|s| - 1] == w + "." + f[..|f| - 1];
      FormattedParts(w, f[..|f| - 1]);
    }
  }

  lemma NoSpaceNoTrim(text: string)
    requires text != ""
    requires IsDigit(text[0]) && IsDigit(text[|text| - 1])
    ensures TrimSpace(text) == text
  {
  }
}
