/** Exact money: construction bounds, decimal and wire forms, parsing that is exact or rejected,
    and lossless arithmetic. */
module Monies {
  import opened Common
  import opened Decimals

  datatype Money = Money(amountMinor: int, currency: string, scale: int)

  datatype MoneyDto = MoneyDto(amountMinor: string, currency: string, scale: int)

  datatype MoneyError = InvalidMoney | PrecisionLoss | CurrencyMismatch | ScaleMismatch

  const MAX_AMOUNT_DIGITS: nat := 96
  const MAX_MONEY_SCALE := 64
  const MAX_CURRENCY_LENGTH := 32
  const MAX_DTO_AMOUNT_LENGTH := 97
  const MAX_INPUT_LENGTH := 256

  // ---- the construction door ----

  predicate IsWhitespace(c: char) {
    || c == ' ' || '\t' <= c <= '\r' || c == '\U{00A0}' || c == '\U{1680}' || '\U{2000}' <= c <= '\U{200A}'
    || c == '\U{2028}' || c == '\U{2029}' || c == '\U{202F}' || c == '\U{205F}' || c == '\U{3000}' || c == '\U{FEFF}'
  }

  predicate IsValidAmount(amount: int) {
    var limit: int := Pow10(MAX_AMOUNT_DIGITS);
    -limit < amount < limit
  }

  predicate IsValidCurrency(currency: string) {
    0 < |currency| <= MAX_CURRENCY_LENGTH && forall i :: 0 <= i < |currency| ==> !IsWhitespace(currency[i])
  }

  predicate IsValidScale(scale: int) { 0 <= scale <= MAX_MONEY_SCALE }

  predicate IsMoney(m: Money) {
    IsValidAmount(m.amountMinor) && IsValidCurrency(m.currency) && IsValidScale(m.scale)
  }

  function MoneyOfMinor(amount: int, currency: string, scale: int): Result<Money, MoneyError> {
    if IsValidAmount(amount) && IsValidCurrency(currency) && IsValidScale(scale)
    then Ok(Money(amount, currency, scale)) else Err(InvalidMoney)
  }

  // ---- strings ----

  function Abs(n: int): nat { if n < 0 then -n else n }

  /** BigInt.toString. */
  function IntegerString(n: int): string {
    (if n < 0 then "-" else "") + ToDecimal(Abs(n))
  }

  /** BigInt of an optional minus sign and digits. */
  function Signed(negative: bool, digits: string): int
    requires AllDigits(digits)
  {
    var magnitude: int := Value(digits);
    if negative then -magnitude else magnitude
  }

  function PadStart(digits: string, length: nat): string {
    if |digits| < length then Zeros(length - |digits|) + digits else digits
  }

  function PadEnd(digits: string, length: nat): string {
    if |digits| < length then digits + Zeros(length - |digits|) else digits
  }

  function DecimalString(m: Money): string
    requires IsMoney(m)
  {
    var digits := ToDecimal(Abs(m.amountMinor));
    var sign := if m.amountMinor < 0 then "-" else "";
    if m.scale == 0 then sign + digits
    else
      var padded := PadStart(digits, m.scale + 1);
      assert |padded| > m.scale;
      sign + padded[..|padded| - m.scale] + "." + padded[|padded| - m.scale..]
  }

  function MoneyToDecimalString(m: Money): Result<string, MoneyError> {
    if IsMoney(m) then Ok(DecimalString(m)) else Err(InvalidMoney)
  }

  // ---- parsing ----

  predicate IsDigits(s: string) {
    |s| > 0 && forall i :: 0 <= i < |s| ==> IsDigit(s[i])
  }

  function IndexOfDot(s: string): (i: nat)
    ensures i <= |s| && (i < |s| ==> s[i] == '.') && forall j :: 0 <= j < i ==> s[j] != '.'
  {
    if |s| == 0 || s[0] == '.' then 0 else 1 + IndexOfDot(s[1..])
  }

  datatype Parts = Parts(negative: bool, whole: string, fraction: string)

  ghost predicate ValidParts(p: Parts) { AllDigits(p.whole) && |p.whole| > 0 && AllDigits(p.fraction) }

  /** The grammar: an optional minus, digits, and an optional dot with digits after it. */
  function MatchDecimal(s: string): (p: Option<Parts>)
    ensures p.Some? ==> ValidParts(p.value)
  {
    var negative := |s| > 0 && s[0] == '-';
    var body := if negative then s[1..] else s;
    var dot := IndexOfDot(body);
    if !IsDigits(body[..dot]) then None
    else if dot == |body| then Some(Parts(negative, body[..dot], ""))
    else if IsDigits(body[dot + 1..]) then Some(Parts(negative, body[..dot], body[dot + 1..]))
    else None
  }

  predicate AllZeros(s: string) { forall i :: 0 <= i < |s| ==> s[i] == '0' }

  function FromParts(p: Parts, currency: string, scale: nat): Result<Money, MoneyError>
    requires ValidParts(p)
  {
    if |p.fraction| <= scale then
      ValueOfConcat(p.whole, PadEnd(p.fraction, scale));
      MoneyOfMinor(Signed(p.negative, p.whole + PadEnd(p.fraction, scale)), currency, scale)
    else if AllZeros(p.fraction[scale..]) then
      ValueOfConcat(p.whole, p.fraction[..scale]);
      MoneyOfMinor(Signed(p.negative, p.whole + p.fraction[..scale]), currency, scale)
    else Err(PrecisionLoss)
  }

  function ParseMoneyInput(input: string, currency: string, scale: int): Result<Money, MoneyError> {
    if !IsValidScale(scale) || |input| > MAX_INPUT_LENGTH then Err(InvalidMoney)
    else
      var parts := MatchDecimal(input);
      if parts.None? then Err(InvalidMoney) else FromParts(parts.value, currency, scale)
  }

  // ---- the wire form ----

  function MoneyToDto(m: Money): Result<MoneyDto, MoneyError> {
    if IsMoney(m) then Ok(MoneyDto(IntegerString(m.amountMinor), m.currency, m.scale)) else Err(InvalidMoney)
  }

  function MoneyFromDto(dto: MoneyDto): Result<Money, MoneyError> {
    var negative := |dto.amountMinor| > 0 && dto.amountMinor[0] == '-';
    var digits := if negative then dto.amountMinor[1..] else dto.amountMinor;
    if |dto.amountMinor| > MAX_DTO_AMOUNT_LENGTH || !IsDigits(digits) then Err(InvalidMoney)
    else MoneyOfMinor(Signed(negative, digits), dto.currency, dto.scale)
  }

  // ---- arithmetic ----

  function UnitMismatch(a: Money, b: Money): Option<MoneyError> {
    if a.currency != b.currency then Some(CurrencyMismatch)
    else if a.scale != b.scale then Some(ScaleMismatch) else None
  }

  function AddMoney(a: Money, b: Money): Result<Money, MoneyError> {
    if UnitMismatch(a, b).Some? then Err(UnitMismatch(a, b).value)
    else MoneyOfMinor(a.amountMinor + b.amountMinor, a.currency, a.scale)
  }

  function SubtractMoney(a: Money, b: Money): Result<Money, MoneyError> {
    if UnitMismatch(a, b).Some? then Err(UnitMismatch(a, b).value)
    else MoneyOfMinor(a.amountMinor - b.amountMinor, a.currency, a.scale)
  }

  function RescaleMoney(m: Money, scale: int): Result<Money, MoneyError>
    requires IsMoney(m)
  {
    if !IsValidScale(scale) then Err(InvalidMoney)
    else if scale == m.scale then Ok(m)
    else if scale > m.scale then MoneyOfMinor(m.amountMinor * Pow10(scale - m.scale), m.currency, scale)
    else if m.amountMinor % Pow10(m.scale - scale) != 0 then Err(PrecisionLoss)
    else MoneyOfMinor(m.amountMinor / Pow10(m.scale - scale), m.currency, scale)
  }

  // ---- what a value denotes ----

  /** amount / 10^scale equals numerator / 10^digits, as a statement on integers. */
  predicate Denotes(amount: int, scale: nat, numerator: int, digits: nat) {
    amount * Pow10(digits) == numerator * Pow10(scale)
  }

  /** The decimal number the parts spell out, as numerator over a power of ten. */
  function Numerator(p: Parts): int
    requires ValidParts(p)
  {
    ValueOfConcat(p.whole, p.fraction);
    Signed(p.negative, p.whole + p.fraction)
  }

  lemma {:induction false} MulNotNegative(d: nat, c: nat)
    ensures d * c >= 0
  {
    if d > 0 {
      MulNotNegative(d - 1, c);
      assert d * c == (d - 1) * c + c;
    }
  }

  /** Multiples of c are at least c apart. */
  lemma MulGap(a: int, b: int, c: nat)
    ensures a < b ==> a * c + c <= b * c
  {
    if a < b {
      var d: nat := b - a - 1;
      MulNotNegative(d, c);
      assert (a + d + 1) * c == a * c + d * c + c;
    }
  }

  lemma CancelPositive(a: int, b: int, c: nat)
    requires c > 0 && a * c == b * c
    ensures a == b
  {
    MulGap(a, b, c);
    MulGap(b, a, c);
  }

  lemma MulAssociates(a: int, b: int, c: int)
    ensures (a * b) * c == a * (b * c)
  {
  }

  lemma NegatedProduct(a: int, b: int)
    ensures (-a) * b == -(a * b)
  {
  }

  /** Padding the fraction multiplies by the power of ten it was short of. */
  lemma PaddedDenotes(p: Parts, scale: nat)
    requires ValidParts(p) && |p.fraction| <= scale
    ensures AllDigits(p.whole + PadEnd(p.fraction, scale))
    ensures Denotes(Signed(p.negative, p.whole + PadEnd(p.fraction, scale)), scale, Numerator(p), |p.fraction|)
  {
    var k := scale - |p.fraction|;
    var zeros := Zeros(k);
    var spelled := p.whole + p.fraction;
    ValueOfConcat(p.whole, p.fraction);
    ValueOfConcat(spelled, zeros);
    ValueOfZeros(k);
    assert p.whole + PadEnd(p.fraction, scale) == spelled + zeros;
    Pow10Adds(k, |p.fraction|);
    hide Pow10, Value;
    var n := Numerator(p);
    MulAssociates(n, Pow10(k), Pow10(|p.fraction|));
    assert Signed(p.negative, spelled + zeros) == n * Pow10(k) by {
      NegatedProduct(Value(spelled), Pow10(k));
    }
  }

  /** What the digits beyond the scale contribute. */
  lemma ExcessSplits(p: Parts, scale: nat)
    requires ValidParts(p) && |p.fraction| > scale
    ensures AllDigits(p.whole + p.fraction[..scale]) && AllDigits(p.fraction[scale..])
    ensures var k := |p.fraction| - scale;
            && Value(p.whole + p.fraction)
               == Value(p.whole + p.fraction[..scale]) * Pow10(k) + Value(p.fraction[scale..])
            && Value(p.fraction[scale..]) < Pow10(k)
            && (Value(p.fraction[scale..]) == 0 <==> AllZeros(p.fraction[scale..]))
  {
    var kept, excess := p.whole + p.fraction[..scale], p.fraction[scale..];
    ValueOfConcat(p.whole, p.fraction[..scale]);
    ValueOfConcat(kept, excess);
    assert kept + excess == p.whole + p.fraction;
    ValueIsBounded(excess);
    ZeroValueIsZeros(excess);
  }

  /** With no excess digits the kept ones denote the same number; with any, no integer amount does. */
  lemma ExcessDecides(p: Parts, scale: nat, amount: int)
    requires ValidParts(p) && |p.fraction| > scale
    ensures Denotes(amount, scale, Numerator(p), |p.fraction|) <==>
            AllZeros(p.fraction[scale..]) && AllDigits(p.whole + p.fraction[..scale])
            && amount == Signed(p.negative, p.whole + p.fraction[..scale])
  {
    ExcessSplits(p, scale);
    var k := |p.fraction| - scale;
    var kept, rest := Value(p.whole + p.fraction[..scale]), Value(p.fraction[scale..]);
    var all := Value(p.whole + p.fraction);
    Pow10Adds(k, scale);
    var n := Numerator(p);
    DenotesReduced(amount, scale, n, k);
    ReducedDecides(amount, if p.negative then -1 else 1, kept, rest, Pow10(k), n);
  }

  lemma DenotesReduced(amount: int, scale: nat, n: int, k: nat)
    ensures Denotes(amount, scale, n, k + scale) <==> amount * Pow10(k) == n
  {
    hide Pow10;
    Pow10Adds(k, scale);
    MulAssociates(amount, Pow10(k), Pow10(scale));
    if Denotes(amount, scale, n, k + scale) {
      CancelPositive(amount * Pow10(k), n, Pow10(scale));
    }
  }

  lemma ReducedDecides(amount: int, sign: int, kept: nat, rest: nat, p: nat, n: int)
    requires (sign == 1 || sign == -1) && rest < p && n == sign * (kept * p + rest)
    ensures amount * p == n <==> rest == 0 && amount == sign * kept
  {
    var a := sign * amount;
    NegatedProduct(amount, p);
    MulGap(a, kept, p);
    MulGap(kept, a, p);
  }

  // ---- the grammar ----

  function Sign(negative: bool): string { if negative then "-" else "" }

  /** The string the parts spell. */
  function Spelled(p: Parts): string {
    Sign(p.negative) + p.whole + (if p.fraction == "" then "" else "." + p.fraction)
  }

  /** The input is a decimal number with these parts. */
  ghost predicate Spells(input: string, p: Parts) {
    ValidParts(p) && input == Spelled(p)
  }

  lemma {:induction false} DotEndsDigits(whole: string, rest: string)
    requires AllDigits(whole)
    ensures IndexOfDot(whole) == |whole|
    ensures IndexOfDot(whole + "." + rest) == |whole|
  {
    var s := whole + "." + rest;
    assert s[|whole|] == '.';
    assert forall i :: 0 <= i < |whole| ==> s[i] == whole[i] && IsDigit(whole[i]);
  }

  lemma MatchWhole(negative: bool, whole: string)
    requires AllDigits(whole) && |whole| > 0
    ensures MatchDecimal((if negative then "-" else "") + whole) == Some(Parts(negative, whole, ""))
  {
    var s := (if negative then "-" else "") + whole;
    assert (if negative then s[1..] else s) == whole;
    assert IsDigit(whole[0]);
    DotEndsDigits(whole, "");
    assert whole[..|whole|] == whole;
  }

  lemma MatchFraction(negative: bool, whole: string, fraction: string)
    requires AllDigits(whole) && |whole| > 0 && AllDigits(fraction) && |fraction| > 0
    ensures MatchDecimal((if negative then "-" else "") + whole + "." + fraction)
            == Some(Parts(negative, whole, fraction))
  {
    var body := whole + "." + fraction;
    var s := (if negative then "-" else "") + whole + "." + fraction;
    assert (if negative then s[1..] else s) == body;
    assert IsDigit(whole[0]) && body[0] == whole[0];
    DotEndsDigits(whole, fraction);
    assert body[..|whole|] == whole && body[|whole| + 1..] == fraction;
  }

  function Body(whole: string, fraction: string): string {
    if fraction == "" then whole else whole + "." + fraction
  }

  lemma SpelledIsSignedBody(p: Parts)
    ensures Spelled(p) == Sign(p.negative) + Body(p.whole, p.fraction)
    ensures p.fraction == "" ==> Spelled(p) == Sign(p.negative) + p.whole
    ensures p.fraction != "" ==> Spelled(p) == Sign(p.negative) + p.whole + "." + p.fraction
  {
    var sign := Sign(p.negative);
    if p.fraction == "" {
      assert (sign + p.whole) + "" == sign + p.whole;
    } else {
      assert (sign + p.whole) + ("." + p.fraction) == sign + p.whole + "." + p.fraction;
      assert sign + (p.whole + "." + p.fraction) == sign + p.whole + "." + p.fraction;
    }
  }

  lemma SpelledMatches(p: Parts)
    requires ValidParts(p)
    ensures MatchDecimal(Spelled(p)) == Some(p)
  {
    SpelledIsSignedBody(p);
    if p.fraction == "" {
      MatchWhole(p.negative, p.whole);
    } else {
      MatchFraction(p.negative, p.whole, p.fraction);
    }
    hide MatchDecimal, Spelled, ValidParts;
  }

  lemma {:induction false} BodySplits(body: string)
    ensures var dot := IndexOfDot(body);
            if dot == |body| then body[..dot] == body else body == body[..dot] + "." + body[dot + 1..]
  {
    var dot := IndexOfDot(body);
    hide IndexOfDot;
    if dot < |body| {
      assert body[dot..] == "." + body[dot + 1..];
      assert body[..dot] + body[dot..] == body;
    }
  }

  lemma MatchedBody(input: string, p: Parts)
    requires MatchDecimal(input) == Some(p)
    ensures p.negative == (|input| > 0 && input[0] == '-')
    ensures Body(p.whole, p.fraction) == if p.negative then input[1..] else input
  {
    BodySplits(if p.negative then input[1..] else input);
  }

  lemma MatchIsSpelled(input: string, p: Parts)
    requires MatchDecimal(input) == Some(p)
    ensures input == Spelled(p)
  {
    MatchedBody(input, p);
    SpelledIsSignedBody(p);
    hide MatchDecimal, Spelled, Body;
  }

  /** The matcher finds exactly the parts that spell the input. */
  lemma MatchesIffSpelled(input: string, p: Parts)
    ensures MatchDecimal(input) == Some(p) <==> Spells(input, p)
  {
    hide MatchDecimal, Spelled;
    if Spells(input, p) {
      SpelledMatches(p);
    }
    if MatchDecimal(input) == Some(p) {
      MatchIsSpelled(input, p);
    }
  }

  // ---- what parsing guarantees ----

  /** An accepted input spells a decimal number, and the result denotes exactly that number. */
  lemma ParseIsExact(input: string, currency: string, scale: int)
    requires ParseMoneyInput(input, currency, scale).Ok?
    ensures var m := ParseMoneyInput(input, currency, scale).value;
            && IsMoney(m) && m.currency == currency && m.scale == scale
            && exists p :: Spells(input, p) && Denotes(m.amountMinor, scale, Numerator(p), |p.fraction|)
  {
    var p := MatchDecimal(input).value;
    MatchesIffSpelled(input, p);
    if |p.fraction| <= scale {
      PaddedDenotes(p, scale);
    } else {
      ExcessSplits(p, scale);
      ExcessDecides(p, scale, Signed(p.negative, p.whole + p.fraction[..scale]));
    }
  }

  /** An input is accepted if and only if it is short enough, spells a number that some amount
      within bounds denotes at the scale, and scale and currency are valid. */
  lemma ParseAcceptsIff(input: string, currency: string, scale: int)
    ensures ParseMoneyInput(input, currency, scale).Ok? <==>
            && IsValidScale(scale) && |input| <= MAX_INPUT_LENGTH && IsValidCurrency(currency)
            && exists p, amount ::
                 Spells(input, p) && IsValidAmount(amount) && Denotes(amount, scale, Numerator(p), |p.fraction|)
  {
    if ParseMoneyInput(input, currency, scale).Ok? {
      ParseIsExact(input, currency, scale);
    }
    if IsValidScale(scale) && |input| <= MAX_INPUT_LENGTH && IsValidCurrency(currency) {
      if p, amount :| Spells(input, p) && IsValidAmount(amount) && Denotes(amount, scale, Numerator(p), |p.fraction|) {
        MatchesIffSpelled(input, p);
        AmountIsParsed(p, currency, scale, amount);
      }
    }
  }

  /** The amount that denotes the parts is the one computed from their digits. */
  lemma AmountIsParsed(p: Parts, currency: string, scale: nat, amount: int)
    requires ValidParts(p) && Denotes(amount, scale, Numerator(p), |p.fraction|)
    ensures FromParts(p, currency, scale) == MoneyOfMinor(amount, currency, scale)
  {
    hide IsValidCurrency, IsValidAmount;
    if |p.fraction| <= scale {
      PaddedDenotes(p, scale);
      CancelPositive(amount, Signed(p.negative, p.whole + PadEnd(p.fraction, scale)), Pow10(|p.fraction|));
    } else {
      ExcessDecides(p, scale, amount);
    }
  }

  lemma PartsLoseIffInexact(p: Parts, currency: string, scale: nat)
    requires ValidParts(p)
    ensures FromParts(p, currency, scale) == Err(PrecisionLoss) <==>
            |p.fraction| > scale && !AllZeros(p.fraction[scale..])
    ensures FromParts(p, currency, scale) == Err(PrecisionLoss) <==>
              forall amount :: !Denotes(amount, scale, Numerator(p), |p.fraction|)
  {
    if |p.fraction| <= scale {
      PaddedDenotes(p, scale);
    } else {
      ExcessSplits(p, scale);
      forall amount ensures Denotes(amount, scale, Numerator(p), |p.fraction|) ==>
          AllZeros(p.fraction[scale..]) {
        ExcessDecides(p, scale, amount);
      }
      if AllZeros(p.fraction[scale..]) {
        ExcessDecides(p, scale, Signed(p.negative, p.whole + p.fraction[..scale]));
      }
    }
  }

  /** A grammatical input is refused for precision exactly when a digit other than zero stands
      beyond the scale, which is exactly when no integer amount denotes it. */
  lemma PrecisionLossIffInexact(input: string, p: Parts, currency: string, scale: int)
    requires IsValidScale(scale) && |input| <= MAX_INPUT_LENGTH && Spells(input, p)
    ensures ParseMoneyInput(input, currency, scale) == Err(PrecisionLoss) <==>
              |p.fraction| > scale && !AllZeros(p.fraction[scale..])
    ensures ParseMoneyInput(input, currency, scale) == Err(PrecisionLoss) <==>
              forall amount :: !Denotes(amount, scale, Numerator(p), |p.fraction|)
  {
    hide MatchDecimal, FromParts, Denotes, AllZeros;
    MatchesIffSpelled(input, p);
    PartsLoseIffInexact(p, currency, scale);
  }

  // ---- round trips ----

  lemma PaddedValue(digits: string, length: nat)
    requires AllDigits(digits)
    ensures AllDigits(PadStart(digits, length)) && Value(PadStart(digits, length)) == Value(digits)
  {
    if |digits| < length {
      ValueOfZeros(length - |digits|);
      ValueOfConcat(Zeros(length - |digits|), digits);
    }
  }

  lemma DecimalStringLength(m: Money)
    requires IsMoney(m)
    ensures |ToDecimal(Abs(m.amountMinor))| <= MAX_AMOUNT_DIGITS
    ensures |DecimalString(m)| <= MAX_INPUT_LENGTH
  {
    DecimalLength(Abs(m.amountMinor), MAX_AMOUNT_DIGITS);
  }

  lemma SignedOfParts(amount: int, digits: string)
    requires AllDigits(digits) && Value(digits) == Abs(amount)
    ensures Signed(amount < 0, digits) == amount
  {
  }

  lemma WholeStringParses(m: Money, digits: string)
    requires IsMoney(m) && m.scale == 0 && AllDigits(digits) && |digits| > 0 && Value(digits) == Abs(m.amountMinor)
    requires |digits| < MAX_INPUT_LENGTH
    ensures ParseMoneyInput((if m.amountMinor < 0 then "-" else "") + digits, m.currency, 0) == Ok(m)
  {
    hide Pow10, Value, MatchDecimal, IsValidCurrency, IsValidAmount;
    MatchWhole(m.amountMinor < 0, digits);
    assert digits + PadEnd("", 0) == digits;
    SignedOfParts(m.amountMinor, digits);
  }

  lemma FullFractionGives(m: Money, p: Parts)
    requires IsMoney(m) && ValidParts(p) && |p.fraction| == m.scale && p.negative == (m.amountMinor < 0)
    requires Value(p.whole + p.fraction) == Abs(m.amountMinor)
    ensures FromParts(p, m.currency, m.scale) == Ok(m)
  {
    hide Pow10, Value, IsValidCurrency, IsValidAmount;
    assert PadEnd(p.fraction, m.scale) == p.fraction;
    SignedOfParts(m.amountMinor, p.whole + p.fraction);
  }

  lemma FractionStringParses(m: Money, padded: string)
    requires IsMoney(m) && m.scale > 0 && AllDigits(padded) && Value(padded) == Abs(m.amountMinor)
    requires m.scale < |padded| && |padded| + 1 < MAX_INPUT_LENGTH
    ensures ParseMoneyInput((if m.amountMinor < 0 then "-" else "") + padded[..|padded| - m.scale] + "."
                            + padded[|padded| - m.scale..], m.currency, m.scale) == Ok(m)
  {
    hide Pow10, Value, MatchDecimal, FromParts, IsValidCurrency, IsValidAmount;
    var whole, fraction := padded[..|padded| - m.scale], padded[|padded| - m.scale..];
    assert whole + fraction == padded;
    MatchFraction(m.amountMinor < 0, whole, fraction);
    FullFractionGives(m, Parts(m.amountMinor < 0, whole, fraction));
  }

  /** Parsing a value's decimal string at its scale gives the value back. */
  lemma ParseUndoesDecimalString(m: Money)
    requires IsMoney(m)
    ensures MoneyToDecimalString(m).Ok? && |MoneyToDecimalString(m).value| <= MAX_INPUT_LENGTH
    ensures ParseMoneyInput(MoneyToDecimalString(m).value, m.currency, m.scale) == Ok(m)
  {
    hide Pow10, Value, ToDecimal, IsValidCurrency, IsValidAmount, ParseMoneyInput;
    DecimalStringLength(m);
    var digits := ToDecimal(Abs(m.amountMinor));
    ValueOfDecimal(Abs(m.amountMinor));
    if m.scale == 0 {
      WholeStringParses(m, digits);
    } else {
      PaddedValue(digits, m.scale + 1);
      FractionStringParses(m, PadStart(digits, m.scale + 1));
    }
  }

  /** The wire form comes back as the same value, within the wire's own length limit. */
  lemma DtoRoundTrip(m: Money)
    requires IsMoney(m)
    ensures MoneyToDto(m).Ok? && MoneyFromDto(MoneyToDto(m).value) == Ok(m)
  {
    hide Pow10, Value, ToDecimal, IsValidCurrency;
    var digits := ToDecimal(Abs(m.amountMinor));
    DecimalLength(Abs(m.amountMinor), MAX_AMOUNT_DIGITS);
    ValueOfDecimal(Abs(m.amountMinor));
    var s := IntegerString(m.amountMinor);
    assert IsDigit(digits[0]);
    assert (if m.amountMinor < 0 then s[1..] else s) == digits;
  }

  /** The wire string spells an integer with this value. */
  ghost predicate SpellsInteger(s: string, amount: int) {
    exists p :: Spells(s, p) && p.fraction == "" && Numerator(p) == amount
  }

  /** A wire form is accepted as a value if and only if it carries the value's currency and scale and
      spells its amount as an integer, within the wire's length limit. */
  lemma DtoAcceptsIff(dto: MoneyDto, m: Money)
    ensures MoneyFromDto(dto) == Ok(m) <==>
            && IsMoney(m) && dto.currency == m.currency && dto.scale == m.scale
            && |dto.amountMinor| <= MAX_DTO_AMOUNT_LENGTH && SpellsInteger(dto.amountMinor, m.amountMinor)
  {
    var s := dto.amountMinor;
    var negative := |s| > 0 && s[0] == '-';
    var digits := if negative then s[1..] else s;
    if IsDigits(digits) {
      DigitsSpell(s, digits, negative);
    } else if SpellsInteger(s, m.amountMinor) {
      SpelledDigits(s, m.amountMinor);
    }
    hide Pow10, Value, SpellsInteger, IsDigits, Signed, IsValidAmount, IsValidCurrency;
  }

  lemma SpelledDigits(s: string, amount: int)
    requires SpellsInteger(s, amount)
    ensures IsDigits(if |s| > 0 && s[0] == '-' then s[1..] else s)
  {
    var p :| Spells(s, p) && p.fraction == "" && Numerator(p) == amount;
    SpelledIsSignedBody(p);
    assert IsDigit(p.whole[0]);
  }

  lemma DigitsSpell(s: string, digits: string, negative: bool)
    requires IsDigits(digits) && s == Sign(negative) + digits
    ensures SpellsInteger(s, Signed(negative, digits))
    ensures forall amount :: SpellsInteger(s, amount) ==> amount == Signed(negative, digits)
  {
    var p := Parts(negative, digits, "");
    SpelledIsSignedBody(p);
    assert Spells(s, p);
    assert digits + "" == digits;
    forall q | Spells(s, q) ensures q == p {
      MatchesIffSpelled(s, q);
      MatchesIffSpelled(s, p);
    }
  }

  /** Subtracting what was added, and adding what was subtracted, gives the first operand back. */
  lemma AddSubtractUndo(a: Money, b: Money)
    requires IsMoney(a) && IsMoney(b)
    ensures AddMoney(a, b).Ok? ==> SubtractMoney(AddMoney(a, b).value, b) == Ok(a)
    ensures SubtractMoney(a, b).Ok? ==> AddMoney(SubtractMoney(a, b).value, b) == Ok(a)
    ensures AddMoney(a, b) == AddMoney(b, a) || UnitMismatch(a, b).Some?
  {
  }

  /** The amount computed from two operands, if their units agree and it is within bounds; what is
      refused, and with which error, otherwise. */
  predicate IsExactly(r: Result<Money, MoneyError>, a: Money, b: Money, amount: int) {
    if a.currency != b.currency then r == Err(CurrencyMismatch)
    else if a.scale != b.scale then r == Err(ScaleMismatch)
    else if Abs(amount) < Pow10(MAX_AMOUNT_DIGITS) then r == Ok(Money(amount, a.currency, a.scale))
    else r == Err(InvalidMoney)
  }

  /** Equal units add to exactly the sum and subtract to exactly the difference, unless that leaves
      the bounds; unequal ones are refused. */
  lemma SumIsExact(a: Money, b: Money)
    requires IsMoney(a) && IsMoney(b)
    ensures IsExactly(AddMoney(a, b), a, b, a.amountMinor + b.amountMinor)
    ensures IsExactly(SubtractMoney(a, b), a, b, a.amountMinor - b.amountMinor)
  {
    hide Pow10, IsValidCurrency;
  }

  lemma UpscaleDenotes(amount: int, scale: nat, k: nat)
    ensures Denotes(amount * Pow10(k), scale + k, amount, scale)
  {
    Pow10Adds(k, scale);
    hide Pow10;
    MulAssociates(amount, Pow10(k), Pow10(scale));
  }

  lemma DownscaleDenotes(amount: int, scale: nat, k: nat, total: nat)
    requires total == scale + k
    ensures amount % Pow10(k) == 0 ==> Denotes(amount / Pow10(k), scale, amount, total)
    ensures amount % Pow10(k) != 0 ==> forall a :: !Denotes(a, scale, amount, total)
  {
    hide Pow10;
    DividesIffQuotient(amount, Pow10(k));
    forall a ensures Denotes(a, scale, amount, total) <==> a * Pow10(k) == amount {
      DenotesReduced(a, scale, amount, k);
    }
    hide Denotes;
  }

  /** A rescaled value denotes the same amount; it is refused for precision exactly when no
      integer amount at the target scale denotes it. */
  lemma RescaleIsExact(m: Money, scale: int)
    requires IsMoney(m) && IsValidScale(scale)
    ensures RescaleMoney(m, scale).Ok? ==>
              RescaleMoney(m, scale).value.scale == scale && RescaleMoney(m, scale).value.currency == m.currency
              && Denotes(RescaleMoney(m, scale).value.amountMinor, scale, m.amountMinor, m.scale)
    ensures RescaleMoney(m, scale) == Err(PrecisionLoss) <==>
              forall amount :: !Denotes(amount, scale, m.amountMinor, m.scale)
  {
    hide Pow10, Denotes, IsValidCurrency, IsValidAmount;
    if scale == m.scale {
      assert Denotes(m.amountMinor, scale, m.amountMinor, m.scale) by { DenotesItself(m.amountMinor, scale); }
    } else if scale > m.scale {
      UpscaleDenotes(m.amountMinor, m.scale, scale - m.scale);
    } else {
      DownscaleDenotes(m.amountMinor, scale, m.scale - scale, m.scale);
    }
  }

  lemma DenotesOne(a: int, b: int, scale: nat, numerator: int, digits: nat)
    requires Denotes(a, scale, numerator, digits) && Denotes(b, scale, numerator, digits)
    ensures a == b
  {
    CancelPositive(a, b, Pow10(digits));
  }

  lemma RescaleTo(m: Money, scale: int, amount: int)
    requires IsMoney(m) && IsValidScale(scale) && IsValidAmount(amount)
    requires Denotes(amount, scale, m.amountMinor, m.scale)
    ensures RescaleMoney(m, scale) == Ok(Money(amount, m.currency, scale))
  {
    hide Pow10, Denotes, IsValidCurrency, IsValidAmount;
    if scale == m.scale {
      DenotesItself(m.amountMinor, scale);
      DenotesOne(amount, m.amountMinor, scale, m.amountMinor, m.scale);
    } else if scale > m.scale {
      UpscaleDenotes(m.amountMinor, m.scale, scale - m.scale);
      DenotesOne(amount, m.amountMinor * Pow10(scale - m.scale), scale, m.amountMinor, m.scale);
    } else {
      var k := m.scale - scale;
      DownscaleDenotes(m.amountMinor, scale, k, m.scale);
      DenotesOne(amount, m.amountMinor / Pow10(k), scale, m.amountMinor, m.scale);
    }
  }

  /** Rescaling succeeds if and only if some amount within bounds denotes the same at the new scale. */
  lemma RescaleAcceptsIff(m: Money, scale: int)
    requires IsMoney(m)
    ensures RescaleMoney(m, scale).Ok? <==>
            && IsValidScale(scale)
            && exists amount :: IsValidAmount(amount) && Denotes(amount, scale, m.amountMinor, m.scale)
  {
    if IsValidScale(scale) {
      RescaleIsExact(m, scale);
      if amount :| IsValidAmount(amount) && Denotes(amount, scale, m.amountMinor, m.scale) {
        RescaleTo(m, scale, amount);
      }
    }
    hide Denotes, IsValidAmount;
  }

  lemma DenotesItself(amount: int, scale: nat)
    ensures Denotes(amount, scale, amount, scale)
  {
  }

  lemma DividesIffQuotient(n: int, factor: nat)
    requires factor > 0
    ensures n % factor == 0 ==> (n / factor) * factor == n
    ensures n % factor != 0 ==> forall a :: a * factor != n
  {
    if n % factor != 0 {
      forall a ensures a * factor != n {
        MultipleHasNoRemainder(a, factor);
      }
    }
  }

  lemma MultipleHasNoRemainder(a: int, factor: nat)
    requires factor > 0
    ensures (a * factor) % factor == 0 && (a * factor) / factor == a
  {
    var q, r := (a * factor) / factor, (a * factor) % factor;
    assert a * factor == q * factor + r;
    MulGap(a, q, factor);
    MulGap(q, a, factor);
  }

  /** A successful rescale is undone by rescaling back, in either direction. */
  lemma RescaleUndo(m: Money, scale: int)
    requires IsMoney(m) && RescaleMoney(m, scale).Ok?
    ensures IsMoney(RescaleMoney(m, scale).value)
    ensures RescaleMoney(RescaleMoney(m, scale).value, m.scale) == Ok(m)
  {
    if scale > m.scale {
      MultipleHasNoRemainder(m.amountMinor, Pow10(scale - m.scale));
    } else if scale < m.scale {
      DividesIffQuotient(m.amountMinor, Pow10(m.scale - scale));
    }
  }
}
