/** Decimal amounts of the native currency: the exact parser and printer, and the second parser that must agree. */
module NativeAmounts {
  import opened Words
  import opened Lookup

  const NATIVE_DECIMALS: nat := 18
  const NATIVE_SCALE: nat := 1_000_000_000_000_000_000

  // -------------------------------------------------------------------------- digits

  function Pow10(k: nat): (p: nat)
    ensures p > 0
  {
    if k == 0 then 1 else 10 * Pow10(k - 1)
  }

  /** The value with its point moved right by this many places. */
  function Moved(v: nat, places: nat): nat {
    if places == 0 then v else 10 * Moved(v, places - 1)
  }

  lemma {:induction false} MovedIsProduct(v: nat, places: nat)
    ensures Moved(v, places) == v * Pow10(places)
  {
    if places > 0 {
      MovedIsProduct(v, places - 1);
      assert v * (10 * Pow10(places - 1)) == 10 * (v * Pow10(places - 1));
    }
  }

  lemma MovedWhole(v: nat)
    ensures Moved(v, NATIVE_DECIMALS) == v * NATIVE_SCALE
  {
    MovedIsProduct(v, NATIVE_DECIMALS);
    ScaleIsPower();
  }

  predicate IsDigit(c: char) {
    '0' <= c <= '9'
  }

  predicate AllDigits(s: string) {
    forall i: nat :: i < |s| ==> IsDigit(s[i])
  }

  function DigitValue(c: char): (v: nat)
    requires IsDigit(c)
    ensures v < 10
  {
    c as int - '0' as int
  }

  function DigitOf(v: nat): (c: char)
    requires v < 10
    ensures IsDigit(c) && DigitValue(c) == v
  {
    ('0' as int + v) as char
  }

  function Value(s: string): nat
    requires AllDigits(s)
  {
    if s == "" then 0 else 10 * Value(s[..|s| - 1]) + DigitValue(s[|s| - 1])
  }

  function Zeros(n: nat): (s: string)
    ensures |s| == n && AllDigits(s)
  {
    seq(n, i => '0')
  }

  lemma {:induction false} ValueOfConcatenation(a: string, b: string)
    requires AllDigits(a) && AllDigits(b)
    ensures AllDigits(a + b) && Value(a + b) == Moved(Value(a), |b|) + Value(b)
  {
    if b == "" {
      assert a + b == a;
    } else {
      var front := b[..|b| - 1];
      ValueOfConcatenation(a, front);
      assert (a + b)[..|a + b| - 1] == a + front;
    }
  }

  lemma {:induction false} ZerosAreWorthless(n: nat)
    ensures Value(Zeros(n)) == 0
  {
    if n > 0 {
      ZerosAreWorthless(n - 1);
      assert Zeros(n)[..n - 1] == Zeros(n - 1);
    }
  }

  lemma {:induction false} ValueBelowPower(s: string)
    requires AllDigits(s)
    ensures Value(s) < Pow10(|s|)
  {
    if s != "" {
      ValueBelowPower(s[..|s| - 1]);
    }
  }

  lemma ScaleIsPower()
    ensures Pow10(NATIVE_DECIMALS) == NATIVE_SCALE
  {
    assert Pow10(6) == 1_000_000;
    assert Pow10(12) == 1_000_000_000_000;
  }

  // -------------------------------------------------------------------------- printing

  function Decimal(n: nat): (s: string)
    ensures s != "" && AllDigits(s)
  {
    if n < 10 then [DigitOf(n)] else Decimal(n / 10) + [DigitOf(n % 10)]
  }

  function Fixed(n: nat, width: nat): (s: string)
    ensures |s| == width && AllDigits(s)
    decreases n, width
  {
    if width == 0 then "" else Fixed(n / 10, width - 1) + [DigitOf(n % 10)]
  }

  function TrimZeros(s: string): (r: string)
    ensures |r| <= |s| && r == s[..|r|] && (r != "" ==> r[|r| - 1] != '0')
  {
    if s != "" && s[|s| - 1] == '0' then TrimZeros(s[..|s| - 1]) else s
  }

  function Display(amount: nat): string {
    var whole, remainder := amount / NATIVE_SCALE, amount % NATIVE_SCALE;
    if remainder == 0 then Decimal(whole) else Decimal(whole) + "." + TrimZeros(Fixed(remainder, NATIVE_DECIMALS))
  }

  // -------------------------------------------------------------------------- parsing

  /** The characters that trimming removes. */
  predicate IsSpace(c: char) {
    var v := c as int;
    9 <= v <= 13 || v in {0x20, 0x85, 0xA0, 0x1680, 0x2028, 0x2029, 0x202F, 0x205F, 0x3000} || 0x2000 <= v <= 0x200A
  }

  function Trim(s: string): string {
    if s != "" && IsSpace(s[0]) then Trim(s[1..])
    else if s != "" && IsSpace(s[|s| - 1]) then Trim(s[..|s| - 1])
    else s
  }

  /** What is before and behind the first character of a kind. */
  function SplitOnce(s: string, separator: char -> bool): Option<(string, string)> {
    match FindFrom(s, separator, 0)
    case None => None
    case Some(i) => Some((s[..i], s[i + 1..]))
  }

  function ParseU256(digits: string): (r: Option<U256>)
    requires AllDigits(digits)
    ensures r.Some? <==> Value(digits) <= MAX_U256
    ensures r.Some? ==> r.value == Value(digits)
  {
    if Value(digits) <= MAX_U256 then Some(Value(digits)) else None
  }

  function ParseNativeAmount(text: string): Option<U256> {
    var value := Trim(text);
    var split := SplitOnce(value, c => c == '.');
    var (whole, fraction) := if split.Some? then split.value else (value, "");
    if whole == "" || (split.Some? && fraction == "") || !AllDigits(whole) || !AllDigits(fraction) || |fraction| > NATIVE_DECIMALS
    then None
    else
      match ParseU256(whole)
      case None => None
      case Some(w) => Scaled(w, fraction)
  }

  /** An amount that is not zero and fits the word. */
  function InRange(amount: nat): Option<U256> {
    if 1 <= amount <= MAX_U256 then Some(amount) else None
  }

  /** Whole units and a fraction in wei; each step is checked, and zero is refused. */
  function Combined(whole: U256, fraction: U256): (r: Option<U256>)
    ensures r == InRange(whole * NATIVE_SCALE + fraction)
  {
    if whole * NATIVE_SCALE > MAX_U256 then None
    else if whole * NATIVE_SCALE + fraction > MAX_U256 then None
    else if whole * NATIVE_SCALE + fraction == 0 then None
    else Some(whole * NATIVE_SCALE + fraction)
  }

  /** The whole units and the padded fraction in wei. */
  function Scaled(whole: U256, fraction: string): Option<U256>
    requires AllDigits(fraction) && |fraction| <= NATIVE_DECIMALS
  {
    match ParseU256(fraction + Zeros(NATIVE_DECIMALS - |fraction|))
    case None => None
    case Some(padded) => Combined(whole, padded)
  }

  // -------------------------------------------------------------------------- what the text means

  /** The wei that whole digits and fraction digits stand for. */
  function Meaning(whole: string, fraction: string): nat
    requires AllDigits(whole) && AllDigits(fraction) && |fraction| <= NATIVE_DECIMALS
  {
    Value(whole) * NATIVE_SCALE + Moved(Value(fraction), NATIVE_DECIMALS - |fraction|)
  }

  /** `whole`, or `whole.fraction` with 1 to 18 fraction digits. */
  predicate IsPlain(whole: string, fraction: string) {
    whole != "" && AllDigits(whole) && AllDigits(fraction) && |fraction| <= NATIVE_DECIMALS
  }

  function Text(whole: string, fraction: string): string {
    if fraction == "" then whole else whole + "." + fraction
  }

  lemma NoSplitInDigits(s: string, separator: char -> bool)
    requires AllDigits(s) && forall c: char :: separator(c) ==> !IsDigit(c)
    ensures SplitOnce(s, separator) == None
  {
    FindFromIsFirst(s, separator, 0);
  }

  lemma SplitBehindDigits(whole: string, c: char, rest: string, separator: char -> bool)
    requires AllDigits(whole) && separator(c) && forall c: char :: separator(c) ==> !IsDigit(c)
    ensures SplitOnce(whole + [c] + rest, separator) == Some((whole, rest))
  {
    var s := whole + [c] + rest;
    FindFromIsFirst(s, separator, 0);
    assert s[|whole|] == c;
    assert forall i: nat :: i < |whole| ==> s[i] == whole[i];
    assert s[..|whole|] == whole && s[|whole| + 1..] == rest;
  }

  lemma PiecesOfText(whole: string, fraction: string)
    requires IsPlain(whole, fraction)
    ensures SplitOnce(Text(whole, fraction), c => c == '.') == if fraction == "" then None else Some((whole, fraction))
  {
    if fraction == "" {
      NoSplitInDigits(whole, c => c == '.');
    } else {
      SplitBehindDigits(whole, '.', fraction, c => c == '.');
      assert Text(whole, fraction) == whole + ['.'] + fraction;
    }
  }

  lemma NothingToTrim(s: string)
    requires s != "" && IsDigit(s[0]) && IsDigit(s[|s| - 1])
    ensures Trim(s) == s
  {
  }

  lemma PaddingScales(fraction: string, pad: nat)
    requires AllDigits(fraction) && |fraction| + pad == NATIVE_DECIMALS
    ensures Value(fraction + Zeros(pad)) == Moved(Value(fraction), pad)
    ensures Value(fraction + Zeros(pad)) < NATIVE_SCALE
  {
    ValueOfConcatenation(fraction, Zeros(pad));
    ZerosAreWorthless(pad);
    ValueBelowPower(fraction + Zeros(pad));
    ScaleIsPower();
  }

  lemma ScaledIsMeaning(whole: string, fraction: string)
    requires IsPlain(whole, fraction) && Value(whole) <= MAX_U256
    ensures Scaled(Value(whole), fraction) == InRange(Meaning(whole, fraction))
  {
    PaddingScales(fraction, NATIVE_DECIMALS - |fraction|);
  }

  /** A plain text is read as exactly what it means; zero and what does not fit are refused. */
  lemma ParseReadsMeaning(whole: string, fraction: string)
    requires IsPlain(whole, fraction)
    ensures ParseNativeAmount(Text(whole, fraction)) == InRange(Meaning(whole, fraction))
  {
    var text := Text(whole, fraction);
    NothingToTrim(text);
    PiecesOfText(whole, fraction);
    if Value(whole) <= MAX_U256 {
      ScaledIsMeaning(whole, fraction);
    } else {
      assert Meaning(whole, fraction) >= Value(whole);
    }
  }

  /** Nothing but a plain text between white space is accepted. */
  lemma ParseAcceptsOnlyPlain(text: string) returns (whole: string, fraction: string)
    requires ParseNativeAmount(text).Some?
    ensures IsPlain(whole, fraction) && Trim(text) == Text(whole, fraction)
    ensures ParseNativeAmount(text).value == Meaning(whole, fraction)
  {
    var value := Trim(text);
    var split := SplitOnce(value, c => c == '.');
    if split.Some? {
      whole, fraction := split.value.0, split.value.1;
      assert value == whole + "." + fraction;
    } else {
      whole, fraction := value, "";
    }
    ScaledIsMeaning(whole, fraction);
  }

  // -------------------------------------------------------------------------- the round trip

  lemma {:induction false} ValueOfDecimal(n: nat)
    ensures Value(Decimal(n)) == n
    ensures Decimal(n) == "0" || Decimal(n)[0] != '0'
  {
    if n < 10 {
      assert Decimal(n)[..0] == "";
    } else {
      ValueOfDecimal(n / 10);
      assert Decimal(n)[..|Decimal(n)| - 1] == Decimal(n / 10);
    }
  }

  lemma {:induction false} ValueOfFixed(n: nat, width: nat)
    requires n < Pow10(width)
    ensures Value(Fixed(n, width)) == n
    decreases width
  {
    if width > 0 {
      ValueOfFixed(n / 10, width - 1);
      assert Fixed(n, width)[..width - 1] == Fixed(n / 10, width - 1);
    }
  }

  lemma {:induction false} TrimmingKeepsValue(s: string)
    requires AllDigits(s)
    ensures AllDigits(TrimZeros(s)) && Moved(Value(TrimZeros(s)), |s| - |TrimZeros(s)|) == Value(s)
  {
    if s != "" && s[|s| - 1] == '0' {
      TrimmingKeepsValue(s[..|s| - 1]);
    }
  }

  /** The digits that the printer writes behind the point. */
  function FractionOf(remainder: nat): (fraction: string)
    ensures |fraction| <= NATIVE_DECIMALS
  {
    TrimZeros(Fixed(remainder, NATIVE_DECIMALS))
  }

  lemma FractionMeansRemainder(remainder: nat)
    requires remainder < NATIVE_SCALE
    ensures AllDigits(FractionOf(remainder)) && (FractionOf(remainder) == "" <==> remainder == 0)
    ensures Moved(Value(FractionOf(remainder)), NATIVE_DECIMALS - |FractionOf(remainder)|) == remainder
  {
    var digits := Fixed(remainder, NATIVE_DECIMALS);
    ScaleIsPower();
    ValueOfFixed(remainder, NATIVE_DECIMALS);
    TrimmingKeepsValue(digits);
    if remainder == 0 {
      OnlyZeros(digits);
    } else if FractionOf(remainder) == "" {
      MovedZero(NATIVE_DECIMALS);
    }
  }

  lemma {:induction false} MovedZero(places: nat)
    ensures Moved(0, places) == 0
  {
    if places > 0 {
      MovedZero(places - 1);
    }
  }

  /** The printed text is plain, and it means the amount. */
  lemma DisplayMeansAmount(amount: nat)
    ensures IsPlain(Decimal(amount / NATIVE_SCALE), FractionOf(amount % NATIVE_SCALE))
    ensures Display(amount) == Text(Decimal(amount / NATIVE_SCALE), FractionOf(amount % NATIVE_SCALE))
    ensures Meaning(Decimal(amount / NATIVE_SCALE), FractionOf(amount % NATIVE_SCALE)) == amount
  {
    ValueOfDecimal(amount / NATIVE_SCALE);
    FractionMeansRemainder(amount % NATIVE_SCALE);
  }

  lemma {:induction false} OnlyZeros(s: string)
    requires AllDigits(s) && Value(s) == 0
    ensures TrimZeros(s) == ""
  {
    if s != "" {
      OnlyZeros(s[..|s| - 1]);
    }
  }

  /** Parsing what was printed gives the amount back. */
  lemma RoundTrip(amount: U256)
    requires amount >= 1
    ensures ParseNativeAmount(Display(amount)) == Some(amount)
  {
    DisplayMeansAmount(amount);
    ParseReadsMeaning(Decimal(amount / NATIVE_SCALE), FractionOf(amount % NATIVE_SCALE));
  }

  /** No leading zero before the point, no trailing zero behind it. */
  predicate IsCanonical(whole: string, fraction: string) {
    IsPlain(whole, fraction) && (whole == "0" || whole[0] != '0') && (fraction == "" || fraction[|fraction| - 1] != '0')
  }

  lemma {:induction false} DecimalOfValue(s: string)
    requires s != "" && AllDigits(s) && (s == "0" || s[0] != '0')
    ensures Decimal(Value(s)) == s
  {
    var front := s[..|s| - 1];
    if front == "" {
      assert Value(s) == DigitValue(s[0]);
    } else {
      DecimalOfValue(front);
      LeadingDigitCounts(front);
      assert Value(s) / 10 == Value(front) && Value(s) % 10 == DigitValue(s[|s| - 1]);
    }
  }

  lemma {:induction false} LeadingDigitCounts(s: string)
    requires s != "" && AllDigits(s) && s[0] != '0'
    ensures Value(s) > 0
  {
    if |s| > 1 {
      LeadingDigitCounts(s[..|s| - 1]);
    }
  }

  lemma {:induction false} FixedOfValue(s: string)
    requires AllDigits(s)
    ensures Fixed(Value(s), |s|) == s
  {
    if s != "" {
      FixedOfValue(s[..|s| - 1]);
    }
  }

  lemma {:induction false} TrimPadding(s: string, pad: nat)
    requires s == "" || s[|s| - 1] != '0'
    ensures TrimZeros(s + Zeros(pad)) == s
  {
    if pad > 0 {
      TrimPadding(s, pad - 1);
      assert (s + Zeros(pad))[..|s| + pad - 1] == s + Zeros(pad - 1);
    } else {
      assert s + Zeros(0) == s;
    }
  }

  /** Printing gives a canonical text, and a canonical text is what its meaning is printed as: the canonical form is unique. */
  lemma DisplayIsTheCanonicalForm(whole: string, fraction: string, pad: nat)
    requires IsPlain(whole, fraction) && |fraction| + pad == NATIVE_DECIMALS
    ensures Display(Meaning(whole, fraction)) == Text(whole, fraction) <==> IsCanonical(whole, fraction)
  {
    var amount, padded := Meaning(whole, fraction), fraction + Zeros(pad);
    PaddingScales(fraction, pad);
    assert amount / NATIVE_SCALE == Value(whole) && amount % NATIVE_SCALE == Value(padded);
    FixedOfValue(padded);
    DisplayMeansAmount(amount);
    if IsCanonical(whole, fraction) {
      DecimalOfValue(whole);
      TrimPadding(fraction, pad);
    }
    if Display(amount) == Text(whole, fraction) {
      ValueOfDecimal(Value(whole));
      SamePieces(whole, fraction, Decimal(Value(whole)), FractionOf(amount % NATIVE_SCALE));
    }
  }

  lemma SamePieces(whole: string, fraction: string, otherWhole: string, otherFraction: string)
    requires IsPlain(whole, fraction) && IsPlain(otherWhole, otherFraction)
    requires Text(whole, fraction) == Text(otherWhole, otherFraction)
    ensures whole == otherWhole && fraction == otherFraction
  {
    PiecesOfText(whole, fraction);
    PiecesOfText(otherWhole, otherFraction);
  }
}
