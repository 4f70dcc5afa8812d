/** Fixed-point printers and the parser for token amounts, and how they agree. */
module Amounts {
  import opened Options
  import opened Numerals

  const ZERO: CodeUnit := 48
  const DOT: CodeUnit := 46

  // ----- strings -----

  predicate IsNumeral(s: JsString) {
    |s| >= 1 && AllDigits(s)
  }

  predicate Negative(s: JsString) {
    |s| >= 1 && s[0] == MINUS
  }

  /** The text after an optional minus sign. */
  function Unsigned(s: JsString): JsString {
    if Negative(s) then s[1..] else s
  }

  /** `/^-?\d+$/`. */
  predicate IsInteger(s: JsString) {
    IsNumeral(Unsigned(s))
  }

  function WithSign(negative: bool, s: JsString): JsString {
    if negative then [MINUS] + s else s
  }

  function IntValue(s: JsString): int
    requires IsInteger(s)
  {
    Signed(Negative(s), FromDigits(Unsigned(s)))
  }

  function Signed(negative: bool, n: nat): int {
    if negative then 0 - n else n
  }

  function Zeros(n: nat): (s: JsString)
    ensures |s| == n && forall i :: 0 <= i < n ==> s[i] == ZERO
  {
    if n == 0 then [] else Zeros(n - 1) + [ZERO]
  }

  function PadStart(s: JsString, n: nat): JsString {
    if |s| >= n then s else Zeros(n - |s|) + s
  }

  function PadEnd(s: JsString, n: nat): JsString {
    if |s| >= n then s else s + Zeros(n - |s|)
  }

  /** `replace(/^0+(?=\d)/, '')` on digits: at least one character stays. */
  function StripLeading(s: JsString): JsString {
    if |s| > 1 && s[0] == ZERO then StripLeading(s[1..]) else s
  }

  /** `replace(/0+$/, '')`. */
  function StripTrailing(s: JsString): JsString {
    if |s| > 0 && s[|s| - 1] == ZERO then StripTrailing(s[..|s| - 1]) else s
  }

  function IndexOfDot(s: JsString): (i: nat)
    ensures i <= |s| && (i < |s| ==> s[i] == DOT)
  {
    if |s| == 0 || s[0] == DOT then 0 else 1 + IndexOfDot(s[1..])
  }

  // ----- sdk/src/token.ts -----

  function FormatTokenAmount(amount: JsString, decimals: nat): Option<JsString> {
    if !IsInteger(amount) then None
    else
      var digits := StripLeading(Unsigned(amount));
      if decimals == 0 then Some(WithSign(Negative(amount), digits))
      else
        var padded := PadStart(digits, decimals + 1);
        var cut := |padded| - decimals;
        Some(WithSign(Negative(amount), padded[..cut] + [DOT] + padded[cut..]))
  }

  /** `None` is the validation error. */
  function ParseTokenAmount(amount: JsString, decimals: nat): Option<JsString> {
    var clean := Unsigned(amount);
    var dot := IndexOfDot(clean);
    var whole, fraction := clean[..dot], if dot < |clean| then clean[dot + 1..] else [];
    if !IsNumeral(whole) || (dot < |clean| && !IsNumeral(fraction)) || |fraction| > decimals then None
    else
      var combined := StripLeading(whole + PadEnd(fraction, decimals));
      if combined == [ZERO] then Some([ZERO]) else Some(WithSign(Negative(amount), combined))
  }

  // ----- api/src/services/cex.ts and cex/withdrawal-router.ts -----

  /** `toWholeUnits` at an asset's decimals, and the slicing form of `stroopsToDecimal`: text that is not an integer comes back as it is. */
  function ToWholeUnits(amount: JsString, decimals: nat): JsString {
    if !IsInteger(amount) then amount
    else
      var digits := PadStart(Unsigned(amount), decimals + 1);
      var cut := |digits| - decimals;
      var whole, fraction := digits[..cut], StripTrailing(digits[cut..]);
      WithSign(Negative(amount), if |fraction| > 0 then whole + [DOT] + fraction else whole)
  }

  const STROOPS := 10000000

  /** BigInt division truncates toward zero. */
  function WholeStroops(bn: int): int {
    if bn < 0 then -(-bn / STROOPS) else bn / STROOPS
  }

  /** The BigInt form of `stroopsToDecimal`; `parse` is the BigInt constructor, and `None` its SyntaxError. */
  function StroopsToDecimal(parse: JsString -> Option<int>, stroops: JsString): Option<JsString> {
    if |stroops| == 0 || DOT in stroops then Some(stroops)
    else
      match parse(Unsigned(stroops))
      case None => None
      case Some(bn) =>
        var integer := WholeStroops(bn);
        var remainder := bn - integer * STROOPS;
        Some(WithSign(Negative(stroops),
                      if remainder == 0 then ToDecimal(integer)
                      else ToDecimal(integer) + [DOT] + StripTrailing(PadStart(ToDecimal(remainder), 7))))
  }

  /** The constructor reads numerals, signed or not, as what they denote; on other text it may do anything. */
  ghost predicate ReadsIntegers(parse: JsString -> Option<int>) {
    forall s :: IsInteger(s) ==> parse(s) == Some(IntValue(s))
  }

  /** `ASSET_DECIMALS`. */
  function AssetDecimals(symbol: string): Option<nat> {
    match symbol
    case "XLM" => Some(7)
    case "USDC" => Some(7)
    case "BTC" => Some(8)
    case "ETH" => Some(18)
    case _ => None
  }

  /** `toWholeUnits` with its table; `upper` is `toUpperCase`. */
  function ToWholeUnitsOf(upper: string -> string, amount: JsString, asset: string): JsString {
    match AssetDecimals(upper(asset))
    case None => amount
    case Some(decimals) => ToWholeUnits(amount, decimals)
  }

  // ----- sdk/src/utils.ts -----

  /** `formatStellarAmount`: BigInt division and remainder truncate toward zero. */
  function FormatStellarAmount(amount: JsString): JsString
    requires IsInteger(amount)
  {
    var bn := IntValue(amount);
    var integer := WholeStroops(bn);
    var remainder := bn - integer * STROOPS;
    ToDecimal(integer) + [DOT] + PadStart(ToDecimal(remainder), 7)
  }

  // ----- digits -----

  function Pow10(n: nat): nat {
    if n == 0 then 1 else 10 * Pow10(n - 1)
  }

  lemma {:induction false} FromConcat(a: JsString, b: JsString)
    requires AllDigits(a) && AllDigits(b)
    ensures AllDigits(a + b)
    ensures FromDigits(a + b) == FromDigits(a) * Pow10(|b|) + FromDigits(b)
  {
    if |b| == 0 {
      assert a + b == a;
    } else {
      var front := b[..|b| - 1];
      FromConcat(a, front);
      assert (a + b)[..|a + b| - 1] == a + front;
      TenTimes(FromDigits(a), |front|);
    }
  }

  lemma {:induction false} FromBound(s: JsString)
    requires AllDigits(s)
    ensures FromDigits(s) < Pow10(|s|)
  {
    if |s| > 0 {
      FromBound(s[..|s| - 1]);
    }
  }

  lemma LastZero(s: JsString)
    requires |s| > 0 && AllDigits(s) && s[|s| - 1] == ZERO
    ensures FromDigits(s) == 10 * FromDigits(s[..|s| - 1])
  {
  }

  lemma {:induction false} FromZeros(n: nat)
    ensures AllDigits(Zeros(n)) && FromDigits(Zeros(n)) == 0
  {
    if n > 0 {
      var zeros := Zeros(n);
      FromZeros(n - 1);
      assert zeros[..n - 1] == Zeros(n - 1);
      hide Zeros;
      LastZero(zeros);
    }
  }

  lemma PadStartValue(s: JsString, n: nat)
    requires AllDigits(s)
    ensures AllDigits(PadStart(s, n)) && FromDigits(PadStart(s, n)) == FromDigits(s)
  {
    if |s| < n {
      FromZeros(n - |s|);
      FromConcat(Zeros(n - |s|), s);
    }
  }

  lemma PadEndValue(s: JsString, n: nat)
    requires AllDigits(s) && |s| <= n
    ensures AllDigits(PadEnd(s, n)) && |PadEnd(s, n)| == n && FromDigits(PadEnd(s, n)) == FromDigits(s) * Pow10(n - |s|)
  {
    FromZeros(n - |s|);
    FromConcat(s, Zeros(n - |s|));
    assert Pow10(0) == 1;
  }

  /** Stripping leading zeros gives the canonical numeral of the same value. */
  lemma {:induction false} StripLeadingExact(s: JsString)
    requires IsNumeral(s)
    ensures StripLeading(s) == ToDigits(FromDigits(s))
  {
    if |s| > 1 && s[0] == ZERO {
      StripLeadingExact(s[1..]);
      assert s == [ZERO] + s[1..];
      FromConcat([ZERO], s[1..]);
      assert FromDigits([ZERO]) == 0;
    } else {
      ToFrom(s);
    }
  }

  lemma {:induction false} StripTrailingValue(s: JsString)
    requires AllDigits(s)
    ensures AllDigits(StripTrailing(s)) && |StripTrailing(s)| <= |s|
    ensures FromDigits(s) == FromDigits(StripTrailing(s)) * Pow10(|s| - |StripTrailing(s)|)
    ensures |StripTrailing(s)| == 0 <==> FromDigits(s) == 0
  {
    if |s| > 0 && s[|s| - 1] == ZERO {
      var front := s[..|s| - 1];
      StripTrailingValue(front);
      assert FromDigits(s) == 10 * FromDigits(front);
      TenTimes(FromDigits(StripTrailing(front)), |front| - |StripTrailing(front)|);
    }
  }

  lemma TenTimes(x: nat, k: nat)
    ensures 10 * (x * Pow10(k)) == x * Pow10(k + 1)
  {
  }

  lemma {:induction false} StrippedThenPadded(s: JsString)
    requires IsNumeral(s)
    ensures PadStart(StripLeading(s), |s|) == s
  {
    if |s| > 1 && s[0] == ZERO {
      var rest := s[1..];
      StrippedThenPadded(rest);
      StripLeadingShorter(rest);
      ZerosFront(|rest| - |StripLeading(rest)|);
      assert s == [ZERO] + rest;
    }
  }

  lemma ZerosFront(n: nat)
    ensures Zeros(n + 1) == [ZERO] + Zeros(n)
  {
    hide Zeros;
  }

  /** A fixed-width numeral is its value's numeral, padded. */
  lemma FixedWidth(s: JsString)
    requires IsNumeral(s)
    ensures PadStart(ToDigits(FromDigits(s)), |s|) == s
  {
    hide PadStart, ToDigits, FromDigits, StripLeading;
    StrippedThenPadded(s);
    StripLeadingExact(s);
  }

  lemma {:induction false} StripLeadingShorter(s: JsString)
    requires IsNumeral(s)
    ensures 1 <= |StripLeading(s)| <= |s|
  {
    if |s| > 1 && s[0] == ZERO {
      StripLeadingShorter(s[1..]);
    }
  }

  // ----- parsing -----

  lemma {:induction false} DotAfter(whole: JsString, rest: JsString)
    requires AllDigits(whole)
    ensures IndexOfDot(whole + [DOT] + rest) == |whole|
    ensures IndexOfDot(whole) == |whole|
  {
    if |whole| > 0 {
      DotAfter(whole[1..], rest);
      assert (whole + [DOT] + rest)[1..] == whole[1..] + [DOT] + rest;
    }
  }

  /** Parsing `whole.fraction` scales it to the smallest unit, exactly, in canonical form. */
  lemma ParseExact(negative: bool, whole: JsString, fraction: JsString, decimals: nat)
    requires IsNumeral(whole) && AllDigits(fraction) && |fraction| <= decimals
    ensures var text := WithSign(negative, if |fraction| > 0 then whole + [DOT] + fraction else whole);
            var value := FromDigits(whole) * Pow10(decimals) + FromDigits(fraction) * Pow10(decimals - |fraction|);
            ParseTokenAmount(text, decimals) == Some(ToDecimal(Signed(negative, value)))
  {
    hide StripLeading, FromDigits, ToDigits, Pow10, PadEnd, Zeros, IndexOfDot, ToDecimal;
    ParseText(negative, whole, fraction, decimals);
    PadEndValue(fraction, decimals);
    FromConcat(whole, PadEnd(fraction, decimals));
    ParseCombined(whole + PadEnd(fraction, decimals), negative);
  }

  lemma ParseText(negative: bool, whole: JsString, fraction: JsString, decimals: nat)
    requires IsNumeral(whole) && AllDigits(fraction) && |fraction| <= decimals
    ensures var text := WithSign(negative, if |fraction| > 0 then whole + [DOT] + fraction else whole);
            var combined := StripLeading(whole + PadEnd(fraction, decimals));
            ParseTokenAmount(text, decimals) == Some(if combined == [ZERO] then [ZERO] else WithSign(negative, combined))
  {
    hide StripLeading, PadEnd, IndexOfDot;
    var clean := if |fraction| > 0 then whole + [DOT] + fraction else whole;
    var text := WithSign(negative, clean);
    assert clean[0] == whole[0] && IsDigit(whole[0]);
    assert Negative(text) == negative && Unsigned(text) == clean;
    DotAfter(whole, fraction);
    assert clean[..|whole|] == whole;
    if |fraction| > 0 {
      assert clean[|whole| + 1..] == fraction;
    } else {
      assert fraction == [];
    }
  }

  /** `/^-?\d+(\.\d+)?$/`, with the parts it matches. */
  predicate IsDecimal(text: JsString, negative: bool, whole: JsString, fraction: JsString) {
    && IsNumeral(whole) && AllDigits(fraction)
    && text == WithSign(negative, if |fraction| > 0 then whole + [DOT] + fraction else whole)
  }

  /** The parser accepts exactly the decimal texts with at most `decimals` fraction digits. */
  lemma ParseAcceptsIff(text: JsString, decimals: nat)
    ensures ParseTokenAmount(text, decimals).Some?
            <==> exists negative, whole, fraction :: IsDecimal(text, negative, whole, fraction) && |fraction| <= decimals
  {
    hide StripLeading, PadEnd;
    if ParseTokenAmount(text, decimals).Some? {
      var clean := Unsigned(text);
      var dot := IndexOfDot(clean);
      var whole, fraction := clean[..dot], if dot < |clean| then clean[dot + 1..] else [];
      assert clean == if |fraction| > 0 then whole + [DOT] + fraction else whole;
      assert text == WithSign(Negative(text), clean);
      assert IsDecimal(text, Negative(text), whole, fraction);
    }
    hide ParseTokenAmount;
    forall negative, whole, fraction | IsDecimal(text, negative, whole, fraction) && |fraction| <= decimals
      ensures ParseTokenAmount(text, decimals).Some?
    {
      ParseText(negative, whole, fraction, decimals);
    }
  }

  lemma ParseCombined(digits: JsString, negative: bool)
    requires IsNumeral(digits)
    ensures var combined, value := StripLeading(digits), FromDigits(digits);
            (if combined == [ZERO] then [ZERO] else WithSign(negative, combined)) == ToDecimal(Signed(negative, value))
  {
    StripLeadingExact(digits);
    FromTo(FromDigits(digits));
    assert FromDigits([ZERO]) == 0;
    assert ToDigits(0) == [ZERO];
    hide StripLeading, FromDigits, ToDigits;
  }

  /** Printing and parsing back gives the canonical form, for every integer text and every number of decimals. */
  lemma ParseOfFormat(amount: JsString, decimals: nat)
    requires IsInteger(amount)
    ensures FormatTokenAmount(amount, decimals).Some?
    ensures ParseTokenAmount(FormatTokenAmount(amount, decimals).value, decimals) == Some(ToDecimal(IntValue(amount)))
  {
    hide StripLeading, FromDigits, Pow10, PadStart, ParseTokenAmount, ToDecimal, WithSign, Unsigned, Signed;
    var digits := StripLeading(Unsigned(amount));
    StripLeadingValue(Unsigned(amount));
    if decimals == 0 {
      ParseUnscaled(Negative(amount), digits);
    } else {
      ParsePadded(Negative(amount), digits, decimals);
    }
  }

  lemma StripLeadingValue(s: JsString)
    requires IsNumeral(s)
    ensures IsNumeral(StripLeading(s)) && FromDigits(StripLeading(s)) == FromDigits(s)
  {
    hide FromDigits, StripLeading, ToDigits;
    StripLeadingExact(s);
    FromTo(FromDigits(s));
  }

  lemma ParseUnscaled(negative: bool, digits: JsString)
    requires IsNumeral(digits)
    ensures ParseTokenAmount(WithSign(negative, digits), 0) == Some(ToDecimal(Signed(negative, FromDigits(digits))))
  {
    assert Pow10(0) == 1 && FromDigits([]) == 0;
    hide FromDigits, Pow10, ParseTokenAmount, ToDecimal, WithSign, Signed;
    ParseExact(negative, digits, [], 0);
  }

  lemma ParsePadded(negative: bool, digits: JsString, decimals: nat)
    requires IsNumeral(digits) && decimals > 0
    ensures var padded := PadStart(digits, decimals + 1);
            && |padded| > decimals
            && ParseTokenAmount(WithSign(negative, padded[..|padded| - decimals] + [DOT] + padded[|padded| - decimals..]), decimals)
               == Some(ToDecimal(Signed(negative, FromDigits(digits))))
  {
    hide ParseTokenAmount, ToDecimal, WithSign, Signed, PadStart, Pow10, FromDigits;
    var padded := PadStart(digits, decimals + 1);
    PadStartValue(digits, decimals + 1);
    PadStartLength(digits, decimals + 1);
    SplitValue(padded, decimals);
    ParseFullWidth(negative, padded[..|padded| - decimals], padded[|padded| - decimals..], FromDigits(digits));
  }

  lemma TimesOne(x: nat)
    ensures x * Pow10(0) == x
  {
  }

  lemma ParseFullWidth(negative: bool, whole: JsString, part: JsString, value: nat)
    requires IsNumeral(whole) && AllDigits(part) && |part| > 0
    requires value == FromDigits(whole) * Pow10(|part|) + FromDigits(part)
    ensures ParseTokenAmount(WithSign(negative, whole + [DOT] + part), |part|) == Some(ToDecimal(Signed(negative, value)))
  {
    hide FromDigits, Pow10, ParseTokenAmount, ToDecimal, WithSign, Signed;
    ParseExact(negative, whole, part, |part|);
    TimesOne(FromDigits(part));
  }

  lemma PadStartLength(s: JsString, n: nat)
    ensures |PadStart(s, n)| == if |s| >= n then |s| else n
    ensures |s| >= n ==> PadStart(s, n) == s
  {
  }

  lemma SplitValue(digits: JsString, decimals: nat)
    requires AllDigits(digits) && |digits| > decimals
    ensures var cut := |digits| - decimals;
            && IsNumeral(digits[..cut]) && AllDigits(digits[cut..]) && |digits[cut..]| == decimals
            && FromDigits(digits) == FromDigits(digits[..cut]) * Pow10(decimals) + FromDigits(digits[cut..])
            && FromDigits(digits[cut..]) < Pow10(decimals)
  {
    var cut := |digits| - decimals;
    assert digits == digits[..cut] + digits[cut..];
    FromConcat(digits[..cut], digits[cut..]);
    FromBound(digits[cut..]);
  }

  /**
   * The exchange form of an amount in a known asset, in whatever case its symbol is written, parses back to the amount at
   * that asset's decimals; an unknown asset or a text that is not an integer comes back as it is.
   */
  lemma WholeUnitsRoundTrip(upper: string -> string, amount: JsString, asset: string)
    ensures var decimals, text := AssetDecimals(upper(asset)), ToWholeUnitsOf(upper, amount, asset);
            if decimals.Some? && IsInteger(amount)
            then ParseTokenAmount(text, decimals.value) == Some(ToDecimal(IntValue(amount)))
            else text == amount
  {
    hide ParseTokenAmount, ToDecimal, IntValue;
    var decimals := AssetDecimals(upper(asset));
    if decimals.Some? && IsInteger(amount) {
      ParseOfWholeUnits(amount, decimals.value);
    }
  }

  /** What one whole unit is: ten to the seventh stroops, eighth satoshi or eighteenth wei, and nothing else is known. */
  lemma OneWholeUnit(upper: string -> string, asset: string, decimals: nat)
    requires var symbol := upper(asset);
             || (symbol == "XLM" && decimals == 7) || (symbol == "USDC" && decimals == 7)
             || (symbol == "BTC" && decimals == 8) || (symbol == "ETH" && decimals == 18)
    ensures ToWholeUnitsOf(upper, [49] + Zeros(decimals), asset) == [49]
    ensures ToWholeUnitsOf(upper, [MINUS, 49] + Zeros(decimals), asset) == [MINUS, 49]
  {
    hide ToWholeUnits, Zeros;
    assert AssetDecimals(upper(asset)) == Some(decimals);
    hide AssetDecimals;
    PowerPrintsAsOne(decimals);
  }

  lemma PowerPrintsAsOne(decimals: nat)
    ensures ToWholeUnits([49] + Zeros(decimals), decimals) == [49]
    ensures ToWholeUnits([MINUS, 49] + Zeros(decimals), decimals) == [MINUS, 49]
  {
    hide StripTrailing, PadStart, FromDigits, ToWholeUnits, Zeros;
    var zeros := Zeros(decimals);
    var digits := [49] + zeros;
    FromZeros(decimals);
    StrippedToNothing(decimals);
    assert IsDigit(49) && digits[..1] == [49] && digits[1..] == zeros;
    PadStartLength(digits, decimals + 1);
    PrintsWhole(digits, false, decimals, [49]);
    PrintsWhole(digits, true, decimals, [49]);
    assert [MINUS] + digits == [MINUS, 49] + zeros && [MINUS] + [49] == [MINUS, 49];
  }

  lemma PrintsWhole(digits: JsString, negative: bool, decimals: nat, whole: JsString)
    requires IsNumeral(digits) && |digits| == decimals + 1 && PadStart(digits, decimals + 1) == digits
    requires whole == digits[..1] && StripTrailing(digits[1..]) == []
    ensures ToWholeUnits(WithSign(negative, digits), decimals) == WithSign(negative, whole)
  {
    hide StripTrailing, PadStart;
    assert IsDigit(digits[0]);
    assert negative ==> ([MINUS] + digits)[1..] == digits;
  }

  lemma {:induction false} StrippedToNothing(n: nat)
    ensures StripTrailing(Zeros(n)) == []
  {
    if n > 0 {
      StrippedToNothing(n - 1);
      assert Zeros(n)[..n - 1] == Zeros(n - 1);
    }
  }

  lemma UnknownAsset(upper: string -> string, amount: JsString, asset: string)
    requires upper(asset) !in ["XLM", "USDC", "BTC", "ETH"]
    ensures ToWholeUnitsOf(upper, amount, asset) == amount
  {
  }

  lemma ParseOfWholeUnits(amount: JsString, decimals: nat)
    requires IsInteger(amount)
    ensures ParseTokenAmount(ToWholeUnits(amount, decimals), decimals) == Some(ToDecimal(IntValue(amount)))
  {
    hide FromDigits, ToDigits, Pow10, PadStart, ParseTokenAmount, ToDecimal, StripTrailing;
    var digits := PadStart(Unsigned(amount), decimals + 1);
    PadStartValue(Unsigned(amount), decimals + 1);
    PadStartLength(Unsigned(amount), decimals + 1);
    SplitValue(digits, decimals);
    var cut := |digits| - decimals;
    StripTrailingValue(digits[cut..]);
    ParseExact(Negative(amount), digits[..cut], StripTrailing(digits[cut..]), decimals);
  }

  // ----- the two forms of stroopsToDecimal -----

  lemma DivMod(whole: nat, part: nat)
    requires part < STROOPS
    ensures (whole * STROOPS + part) / STROOPS == whole && (whole * STROOPS + part) % STROOPS == part
  {
  }

  /**
   * The division and slicing forms agree exactly on the empty text, on text with a decimal point, and on integer text of at
   * most eight digits or without a leading zero. On any other text slicing gives the text back and division throws or prints
   * something else.
   */
  lemma StroopsFormsAgreeIff(parse: JsString -> Option<int>, stroops: JsString)
    requires ReadsIntegers(parse)
    ensures StroopsToDecimal(parse, stroops) == Some(ToWholeUnits(stroops, 7))
            <==> |stroops| == 0 || DOT in stroops
                 || (IsInteger(stroops) && (|Unsigned(stroops)| <= 8 || Unsigned(stroops)[0] != ZERO))
  {
    if IsInteger(stroops) {
      hide StroopsToDecimal, ToWholeUnits;
      NoDotInIntegers(stroops);
      IntegerFormsAgreeIff(parse, stroops);
    } else if |stroops| > 0 && DOT !in stroops {
      OtherTextDiffers(parse, stroops);
    }
  }

  lemma NoDotInIntegers(s: JsString)
    requires IsInteger(s)
    ensures |s| > 0 && DOT !in s
  {
    assert s == WithSign(Negative(s), Unsigned(s));
  }

  /** What division prints has a decimal point, or is a quotient that reads as ten million times less. */
  lemma OtherTextDiffers(parse: JsString -> Option<int>, stroops: JsString)
    requires ReadsIntegers(parse) && !IsInteger(stroops) && |stroops| > 0 && DOT !in stroops
    ensures StroopsToDecimal(parse, stroops) != Some(stroops)
  {
    hide ToDecimal, StripTrailing, PadStart, IntValue;
    var raw := Unsigned(stroops);
    if parse(raw).Some? {
      var bn := parse(raw).value;
      var integer := WholeStroops(bn);
      var remainder := bn - integer * STROOPS;
      if remainder == 0 {
        DecimalReads(integer);
        if StroopsToDecimal(parse, stroops) == Some(stroops) {
          SignStays(stroops, ToDecimal(integer));
        }
      } else {
        var text := ToDecimal(integer) + [DOT] + StripTrailing(PadStart(ToDecimal(remainder), 7));
        assert text[|ToDecimal(integer)|] == DOT;
        SignKeepsDot(Negative(stroops), text);
      }
    }
  }

  lemma SignKeepsDot(negative: bool, s: JsString)
    requires DOT in s
    ensures DOT in WithSign(negative, s)
  {
  }

  lemma SignStays(s: JsString, t: JsString)
    requires WithSign(Negative(s), t) == s
    ensures Unsigned(s) == t
  {
  }

  lemma DecimalReads(n: int)
    ensures IsInteger(ToDecimal(n)) && IntValue(ToDecimal(n)) == n
    ensures n >= 0 ==> IsNumeral(ToDecimal(n))
  {
    hide FromDigits, ToDigits;
    if n < 0 {
      FromTo(-n);
      assert Unsigned(ToDecimal(n)) == ToDigits(-n);
    } else {
      FromTo(n);
      assert IsDigit(ToDigits(n)[0]);
    }
  }

  lemma IntegerFormsAgreeIff(parse: JsString -> Option<int>, stroops: JsString)
    requires ReadsIntegers(parse) && IsInteger(stroops)
    ensures StroopsToDecimal(parse, stroops) == Some(ToWholeUnits(stroops, 7))
            <==> |Unsigned(stroops)| <= 8 || Unsigned(stroops)[0] != ZERO
  {
    var raw := Unsigned(stroops);
    var digits := PadStart(raw, 8);
    var cut := |digits| - 7;
    var whole, part := digits[..cut], digits[cut..];
    PadStartLength(raw, 8);
    PadStartValue(raw, 8);
    assert |raw| > 8 ==> whole[0] == raw[0];
    hide FromDigits, ToDigits, StripTrailing, Pow10, PadStart, StroopsToDecimal, WithSign, ToWholeUnits, Unsigned;
    SplitValue(digits, 7);
    SevenZeros();
    DivMod(FromDigits(whole), FromDigits(part));
    CanonicalIff(whole);
    SlicedText(stroops, whole, part);
    DividedText(parse, stroops, FromDigits(whole), part);
    SameTail(Negative(stroops), ToDigits(FromDigits(whole)), whole, Tail(part));
  }

  function Tail(part: JsString): JsString {
    if |StripTrailing(part)| > 0 then [DOT] + StripTrailing(part) else []
  }

  lemma SlicedText(stroops: JsString, whole: JsString, part: JsString)
    requires IsInteger(stroops) && |part| == 7 && PadStart(Unsigned(stroops), 8) == whole + part
    ensures ToWholeUnits(stroops, 7) == WithSign(Negative(stroops), whole + Tail(part))
  {
    hide StripTrailing, PadStart, WithSign, Unsigned, Negative;
    var digits := PadStart(Unsigned(stroops), 8);
    assert digits[..|digits| - 7] == whole && digits[|digits| - 7..] == part;
    assert whole + [] == whole;
    assert whole + ([DOT] + StripTrailing(part)) == whole + [DOT] + StripTrailing(part);
  }

  lemma DividedText(parse: JsString -> Option<int>, stroops: JsString, integer: nat, part: JsString)
    requires ReadsIntegers(parse) && IsInteger(stroops) && |part| == 7 && AllDigits(part)
    requires integer == FromDigits(Unsigned(stroops)) / STROOPS && FromDigits(part) == FromDigits(Unsigned(stroops)) % STROOPS
    ensures StroopsToDecimal(parse, stroops) == Some(WithSign(Negative(stroops), ToDigits(integer) + Tail(part)))
  {
    hide StroopsToDecimal, StripTrailing, PadStart, WithSign, Unsigned, Negative, FromDigits, ToDigits;
    DivisionText(parse, stroops);
    StripTrailingValue(part);
    FixedWidth(part);
    var fraction := StripTrailing(part);
    assert PadStart(ToDigits(FromDigits(part)), 7) == part;
    assert ToDigits(integer) + [] == ToDigits(integer);
    assert ToDigits(integer) + ([DOT] + fraction) == ToDigits(integer) + [DOT] + fraction;
  }

  lemma DivisionText(parse: JsString -> Option<int>, stroops: JsString)
    requires ReadsIntegers(parse) && IsInteger(stroops)
    ensures var n := FromDigits(Unsigned(stroops));
            StroopsToDecimal(parse, stroops)
            == Some(WithSign(Negative(stroops),
                             if n % STROOPS == 0 then ToDigits(n / STROOPS)
                             else ToDigits(n / STROOPS) + [DOT] + StripTrailing(PadStart(ToDigits(n % STROOPS), 7))))
  {
    hide StripTrailing, PadStart, WithSign, FromDigits, ToDigits;
    NoDotInIntegers(stroops);
    NumeralsParse(parse, Unsigned(stroops));
    hide Unsigned, Negative, IsInteger;
  }

  lemma NumeralsParse(parse: JsString -> Option<int>, s: JsString)
    requires ReadsIntegers(parse) && IsNumeral(s)
    ensures parse(s) == Some(FromDigits(s))
  {
    assert IsDigit(s[0]);
    assert !Negative(s) && Unsigned(s) == s && IsInteger(s);
    hide FromDigits;
  }

  lemma SevenZeros()
    ensures Pow10(7) == STROOPS
  {
    assert Pow10(4) == 10000;
    assert Pow10(7) == 10 * (10 * (10 * Pow10(4)));
  }

  lemma SameTail(negative: bool, a: JsString, b: JsString, tail: JsString)
    ensures WithSign(negative, a + tail) == WithSign(negative, b + tail) <==> a == b
  {
    if a + tail == b + tail {
      assert (a + tail)[..|a|] == a && (b + tail)[..|b|] == b;
    }
    if WithSign(negative, a + tail) == WithSign(negative, b + tail) {
      assert negative ==> ([MINUS] + (a + tail))[1..] == a + tail && ([MINUS] + (b + tail))[1..] == b + tail;
    }
  }

  lemma CanonicalIff(s: JsString)
    requires IsNumeral(s)
    ensures ToDigits(FromDigits(s)) == s <==> |s| == 1 || s[0] != ZERO
  {
    if |s| == 1 || s[0] != ZERO {
      ToFrom(s);
    } else {
      ToDigitsCanonical(FromDigits(s));
    }
  }

  // ----- formatStellarAmount -----

  /**
   * The BigInt printer agrees with the token printer at 7 decimals exactly on text without a minus sign and on negative
   * whole units.
   */
  lemma StellarAgreesIff(amount: JsString)
    requires IsInteger(amount)
    ensures FormatTokenAmount(amount, 7) == Some(FormatStellarAmount(amount))
            <==> !Negative(amount) || (IntValue(amount) != 0 && IntValue(amount) % STROOPS == 0)
  {
    hide FromDigits, ToDigits, StripLeading, PadStart, Pow10, FormatTokenAmount, FormatStellarAmount, Unsigned, IntValue;
    var n := FromDigits(Unsigned(amount));
    var q, r := n / STROOPS, n % STROOPS;
    TokenText(amount, q, r);
    StellarText(amount, q, r);
    if Negative(amount) {
      NegativeText(q, r, FormatTokenAmount(amount, 7).value, ToDigits(q), PadStart(ToDigits(r), 7));
    }
  }

  lemma TokenText(amount: JsString, q: nat, r: nat)
    requires IsInteger(amount) && q == FromDigits(Unsigned(amount)) / STROOPS && r == FromDigits(Unsigned(amount)) % STROOPS
    ensures var part := PadStart(ToDigits(r), 7);
            && FormatTokenAmount(amount, 7) == Some(WithSign(Negative(amount), ToDigits(q) + [DOT] + part))
            && |part| == 7 && AllDigits(part)
  {
    var n := FromDigits(Unsigned(amount));
    StripLeadingExact(Unsigned(amount));
    hide FromDigits, ToDigits, StripLeading, PadStart, Pow10, Unsigned;
    CutPadded(n);
  }

  /** The padded numeral, cut before its last seven digits, is the numerals of quotient and remainder. */
  lemma CutPadded(n: nat)
    ensures var padded := PadStart(ToDigits(n), 8);
            && |padded| >= 8 && AllDigits(padded)
            && padded[..|padded| - 7] == ToDigits(n / STROOPS)
            && padded[|padded| - 7..] == PadStart(ToDigits(n % STROOPS), 7)
  {
    hide FromDigits, ToDigits, PadStart, Pow10;
    var padded := PadStart(ToDigits(n), 8);
    PadStartLength(ToDigits(n), 8);
    PadStartValue(ToDigits(n), 8);
    ToDigitsCanonical(n);
    var whole, part := padded[..|padded| - 7], padded[|padded| - 7..];
    FromTo(n);
    SplitValue(padded, 7);
    SevenZeros();
    DivMod(FromDigits(whole), FromDigits(part));
    FixedWidth(part);
    CanonicalIff(whole);
  }

  lemma StellarText(amount: JsString, q: nat, r: nat)
    requires IsInteger(amount) && q == FromDigits(Unsigned(amount)) / STROOPS && r == FromDigits(Unsigned(amount)) % STROOPS
    ensures FormatStellarAmount(amount)
            == if Negative(amount) then ToDecimal(0 - q) + [DOT] + PadStart(ToDecimal(0 - r), 7)
               else ToDigits(q) + [DOT] + PadStart(ToDigits(r), 7)
    ensures Negative(amount) ==> (IntValue(amount) != 0 && IntValue(amount) % STROOPS == 0 <==> q > 0 && r == 0)
  {
    hide FromDigits, ToDigits, PadStart, Unsigned, Negative;
    if Negative(amount) {
      NegativeDivision(FromDigits(Unsigned(amount)));
    }
  }

  lemma NegativeDivision(n: nat)
    ensures WholeStroops(0 - n) == 0 - n / STROOPS
    ensures 0 - n - WholeStroops(0 - n) * STROOPS == 0 - n % STROOPS
    ensures 0 - n != 0 && (0 - n) % STROOPS == 0 <==> n / STROOPS > 0 && n % STROOPS == 0
  {
  }

  /** A negative remainder prints its own minus sign inside the fraction, where the token printer has only digits. */
  lemma NegativeText(q: nat, r: nat, token: JsString, whole: JsString, part: JsString)
    requires r < STROOPS && whole == ToDigits(q) && part == PadStart(ToDigits(r), 7) && |part| == 7 && AllDigits(part)
    requires token == [MINUS] + (whole + [DOT] + part)
    ensures token == ToDecimal(0 - q) + [DOT] + PadStart(ToDecimal(0 - r), 7) <==> q > 0 && r == 0
  {
    var bad := PadStart(ToDecimal(0 - r), 7);
    if r > 0 {
      MinusInside(r);
      hide ToDecimal, ToDigits, PadStart;
      MinusInTheWrongPlace(whole, part, ToDecimal(0 - q), bad);
    } else if q == 0 {
      hide PadStart;
      assert token[0] == MINUS;
    }
  }

  lemma MinusInTheWrongPlace(whole: JsString, part: JsString, front: JsString, bad: JsString)
    requires |part| == 7 && AllDigits(part) && 7 <= |bad| <= 8 && exists i :: 0 <= i < |bad| && bad[i] == MINUS
    ensures [MINUS] + (whole + [DOT] + part) != front + [DOT] + bad
  {
    var token, text := [MINUS] + (whole + [DOT] + part), front + [DOT] + bad;
    var i :| 0 <= i < |bad| && bad[i] == MINUS;
    var fromEnd := |bad| - i;
    assert text[|text| - fromEnd] == MINUS;
    assert token[|token| - 8] == DOT;
    assert fromEnd <= 7 ==> token[|token| - fromEnd] == part[7 - fromEnd];
    assert token[|token| - fromEnd] != MINUS;
  }

  /** The fraction of a negative remainder holds a minus sign. */
  lemma MinusInside(r: nat)
    requires 0 < r < STROOPS
    ensures var bad := PadStart(ToDecimal(0 - r), 7);
            7 <= |bad| <= 8 && exists i :: 0 <= i < |bad| && bad[i] == MINUS
  {
    DigitCount(r, 7);
    SevenZeros();
    var text := ToDecimal(0 - r);
    hide ToDigits;
    assert text == [MINUS] + ToDigits(r);
    var bad := PadStart(text, 7);
    assert bad[|bad| - |text|] == MINUS;
  }

  lemma {:induction false} DigitCount(n: nat, k: nat)
    requires k >= 1 && n < Pow10(k)
    ensures |ToDigits(n)| <= k
  {
    if n >= 10 {
      DigitCount(n / 10, k - 1);
    }
  }
}
