/** The second decimal parser, for prices with an optional exponent, and its agreement with the first. */
module DecimalPrices {
  import opened Words
  import opened Lookup
  import opened NativeAmounts

  const MAX_EXPONENT: int := 255
  const MAX_I32: nat := 0x7FFF_FFFF

  /** An optional sign and at least one digit, within 32 bits. */
  function ParseI32(s: string): Option<int> {
    var negative := s != "" && s[0] == '-';
    var digits := if s != "" && (s[0] == '-' || s[0] == '+') then s[1..] else s;
    if digits == "" || !AllDigits(digits) then None
    else
      var magnitude: int := Value(digits);
      if magnitude > (if negative then MAX_I32 + 1 else MAX_I32) then None
      else Some(if negative then -magnitude else magnitude)
  }

  /** Repeated multiplication by ten with an overflow check at every step. */
  function CheckedPowerOfTen(k: nat): (r: Option<U256>)
    ensures r.Some? <==> Pow10(k) <= MAX_U256
    ensures r.Some? ==> r.value == Pow10(k)
  {
    if k == 0 then Some(1)
    else
      match CheckedPowerOfTen(k - 1)
      case None => None
      case Some(v) => if v * 10 > MAX_U256 then None else Some(v * 10)
  }

  /** The digits without the point, and how many places the point has to move to the right to give wei. */
  function Pieces(value: string): Option<(string, int)> {
    var split := SplitOnce(value, c => c == 'e' || c == 'E');
    var mantissa, exponent := if split.Some? then split.value.0 else value, if split.Some? then ParseI32(split.value.1) else Some(0);
    if exponent.None? || exponent.value > MAX_EXPONENT || exponent.value < -MAX_EXPONENT then None
    else
      var point := SplitOnce(mantissa, c => c == '.');
      var (whole, fraction) := if point.Some? then point.value else (mantissa, "");
      if whole == "" || !AllDigits(whole) || !AllDigits(fraction) then None
      else Some((whole + fraction, NATIVE_DECIMALS + exponent.value - |fraction|))
  }

  lemma PiecesAreDigits(value: string)
    ensures Pieces(value).Some? ==> AllDigits(Pieces(value).value.0)
  {
  }

  lemma DivisionShrinks(coefficient: nat, divisor: nat)
    requires divisor > 0
    ensures 0 <= coefficient / divisor <= coefficient
  {
    AtLeastOneMultiple(coefficient / divisor, divisor);
  }

  lemma AtLeastOneMultiple(factor: nat, divisor: nat)
    requires divisor > 0
    ensures factor <= factor * divisor
  {
  }

  function Shifted(coefficient: U256, places: int): Option<U256> {
    if places >= 0 then
      match CheckedPowerOfTen(places)
      case None => None
      case Some(factor) => if coefficient * factor > MAX_U256 then None else Some(coefficient * factor)
    else
      match CheckedPowerOfTen(-places)
      case None => None
      case Some(divisor) =>
        DivisionShrinks(coefficient, divisor);
        if coefficient % divisor != 0 then None else Some(coefficient / divisor)
  }

  function ParseDecimalNativeUnit(value: string): Option<U256> {
    PiecesAreDigits(value);
    match Pieces(value)
    case None => None
    case Some((digits, places)) =>
      match ParseU256(digits)
      case None => None
      case Some(coefficient) => Shifted(coefficient, places)
  }

  // -------------------------------------------------------------------------- exactness

  /** `amount` is exactly `coefficient` times ten to the power of `places`. */
  predicate IsShifted(coefficient: nat, places: int, amount: nat) {
    if places >= 0 then amount == coefficient * Pow10(places) else amount * Pow10(-places) == coefficient
  }

  lemma FactorBelowProduct(coefficient: nat, factor: nat)
    requires coefficient > 0
    ensures factor <= coefficient * factor
  {
  }

  lemma ExactDivision(coefficient: nat, divisor: nat, amount: nat)
    requires divisor > 0
    ensures coefficient % divisor == 0 && coefficient / divisor == amount <==> amount * divisor == coefficient
  {
    if amount * divisor == coefficient {
      Quotient(coefficient, divisor, amount);
    } else if coefficient % divisor == 0 {
      assert coefficient == divisor * (coefficient / divisor);
    }
  }

  lemma Quotient(coefficient: nat, divisor: nat, amount: nat)
    requires divisor > 0 && amount * divisor == coefficient
    ensures coefficient % divisor == 0 && coefficient / divisor == amount
  {
    var q := coefficient / divisor;
    assert coefficient == divisor * q + coefficient % divisor;
    if amount > q {
      AtLeastOneMultiple(divisor, amount - q);
    }
  }

  /** Whatever is accepted is exact, and for a positive coefficient everything exact that fits the word is accepted. */
  lemma {:induction false} ShiftedIsExact(coefficient: U256, places: int, amount: U256)
    ensures Shifted(coefficient, places) == Some(amount) ==> IsShifted(coefficient, places, amount)
    ensures coefficient > 0 && IsShifted(coefficient, places, amount) ==> Shifted(coefficient, places) == Some(amount)
  {
    if places >= 0 {
      if coefficient > 0 {
        FactorBelowProduct(coefficient, Pow10(places));
      }
    } else {
      ExactDivision(coefficient, Pow10(-places), amount);
      if coefficient > 0 && IsShifted(coefficient, places, amount) {
        assert amount > 0;
        FactorBelowProduct(amount, Pow10(-places));
      }
    }
  }

  /**
   * A price is never rounded: the result is exactly the coefficient moved by the exponent. For a positive
   * coefficient that fits the word the parser accepts exactly the prices that are whole numbers of wei and fit.
   */
  lemma {:induction false} PricesAreExact(value: string, amount: U256)
    requires Pieces(value).Some?
    ensures AllDigits(Pieces(value).value.0)
    ensures ParseDecimalNativeUnit(value) == Some(amount) ==> IsShifted(Value(Pieces(value).value.0), Pieces(value).value.1, amount)
    ensures 1 <= Value(Pieces(value).value.0) <= MAX_U256 && IsShifted(Value(Pieces(value).value.0), Pieces(value).value.1, amount) ==>
              ParseDecimalNativeUnit(value) == Some(amount)
  {
    PiecesAreDigits(value);
    var (digits, places) := Pieces(value).value;
    if Value(digits) <= MAX_U256 {
      ShiftedIsExact(Value(digits), places, amount);
    }
  }

  // -------------------------------------------------------------------------- agreement with the first parser

  lemma NoExponentInPlain(whole: string, fraction: string)
    requires IsPlain(whole, fraction)
    ensures SplitOnce(Text(whole, fraction), c => c == 'e' || c == 'E') == None
  {
    FindFromIsFirst(Text(whole, fraction), c => c == 'e' || c == 'E', 0);
  }

  lemma {:induction false} MovedSum(x: nat, y: nat, places: nat)
    ensures Moved(x + y, places) == Moved(x, places) + Moved(y, places)
  {
    if places > 0 {
      MovedSum(x, y, places - 1);
    }
  }

  lemma {:induction false} MovedTwice(v: nat, a: nat, b: nat)
    ensures Moved(Moved(v, a), b) == Moved(v, a + b)
  {
    if b > 0 {
      MovedTwice(v, a, b - 1);
    }
  }

  /** All digits together, moved by the missing places, are the meaning. */
  lemma MeaningIsMoved(whole: string, fraction: string, pad: nat)
    requires IsPlain(whole, fraction) && |fraction| + pad == NATIVE_DECIMALS
    ensures AllDigits(whole + fraction) && Meaning(whole, fraction) == Moved(Value(whole + fraction), pad)
  {
    ValueOfConcatenation(whole, fraction);
    MovedSum(Moved(Value(whole), |fraction|), Value(fraction), pad);
    MovedTwice(Value(whole), |fraction|, pad);
    MovedWhole(Value(whole));
  }

  lemma {:induction false} MovedGrows(v: nat, places: nat)
    ensures Moved(v, places) >= v
  {
    if places > 0 {
      MovedGrows(v, places - 1);
    }
  }

  lemma MeaningIsShifted(whole: string, fraction: string, pad: nat)
    requires IsPlain(whole, fraction) && |fraction| + pad == NATIVE_DECIMALS
    ensures AllDigits(whole + fraction) && Meaning(whole, fraction) >= Value(whole + fraction)
    ensures IsShifted(Value(whole + fraction), pad, Meaning(whole, fraction))
  {
    MeaningIsMoved(whole, fraction, pad);
    MovedGrows(Value(whole + fraction), pad);
    MovedIsProduct(Value(whole + fraction), pad);
  }

  lemma {:induction false} LowerPower(a: nat, b: nat)
    requires a <= b
    ensures Pow10(a) <= Pow10(b)
  {
    if a < b {
      LowerPower(a, b - 1);
    }
  }

  lemma PadFitsWord(pad: nat)
    requires pad <= NATIVE_DECIMALS
    ensures Pow10(pad) <= NATIVE_SCALE
  {
    LowerPower(pad, NATIVE_DECIMALS);
    ScaleIsPower();
  }

  /** The digits of a plain text, and the places its fraction leaves open. */
  lemma PiecesOfPlain(whole: string, fraction: string)
    requires IsPlain(whole, fraction)
    ensures Pieces(Text(whole, fraction)) == Some((whole + fraction, NATIVE_DECIMALS - |fraction|))
  {
    NoExponentInPlain(whole, fraction);
    PiecesOfText(whole, fraction);
    assert whole + "" == whole;
  }

  /** Moving the digits of a price by the open places gives its meaning, unless that does not fit. */
  lemma ShiftedPlain(coefficient: U256, pad: nat, meaning: nat)
    requires pad <= NATIVE_DECIMALS && IsShifted(coefficient, pad, meaning) && meaning >= coefficient
    ensures Shifted(coefficient, pad) == if meaning <= MAX_U256 then Some(meaning) else None
  {
    PadFitsWord(pad);
  }

  /** On a plain text the price parser reads the same meaning, and zero too. */
  lemma PriceReadsMeaning(whole: string, fraction: string)
    requires IsPlain(whole, fraction)
    ensures ParseDecimalNativeUnit(Text(whole, fraction)) == AnyInRange(Meaning(whole, fraction))
  {
    var pad := NATIVE_DECIMALS - |fraction|;
    PiecesOfPlain(whole, fraction);
    MeaningIsShifted(whole, fraction, pad);
    if Value(whole + fraction) <= MAX_U256 {
      ShiftedPlain(Value(whole + fraction), pad, Meaning(whole, fraction));
    }
  }

  function AnyInRange(amount: nat): Option<U256> {
    if amount <= MAX_U256 then Some(amount) else None
  }

  lemma MeaningIsNotZero(whole: string, fraction: string)
    requires IsPlain(whole, fraction)
    ensures Value(whole) != 0 || Value(fraction) != 0 ==> Meaning(whole, fraction) != 0
  {
    MovedGrows(Value(fraction), NATIVE_DECIMALS - |fraction|);
  }

  /** The two parsers accept the same plain texts of nonzero value, and read the same amount from them. */
  lemma {:induction false} ParsersAgree(whole: string, fraction: string)
    requires IsPlain(whole, fraction)
    ensures ParseNativeAmount(Text(whole, fraction)) == ParseDecimalNativeUnit(Text(whole, fraction)) <==> Meaning(whole, fraction) != 0
    ensures Value(whole) != 0 || Value(fraction) != 0 ==> Meaning(whole, fraction) != 0
  {
    ParseReadsMeaning(whole, fraction);
    PriceReadsMeaning(whole, fraction);
    MeaningIsNotZero(whole, fraction);
  }
}
