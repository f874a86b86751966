/** Decoding a JSON number literal as an exact non-negative safe integer. */
module SafeInteger {
  import opened Json
  import opened Digits

  /** The largest revision, 2^53 - 1. */
  const MAX_SAFE: nat := 9007199254740991

  const EXPONENT_SLACK: nat := 32

  datatype Rejection = Rejection

  // -------------------------------------------------------------- digits

  predicate AllZeros(text: string) {
    forall i | 0 <= i < |text| :: text[i] == '0'
  }

  function Pow10(n: nat): (p: nat)
    ensures p >= 1
  {
    if n == 0 then 1 else 10 * Pow10(n - 1)
  }

  // -------------------------------------------------------------- number literals

  /** A number of section 6 of RFC 8259, by its parts. */
  datatype Literal = Literal(negative: bool, whole: string, fraction: Option<string>, exponent: Option<Exponent>)

  datatype Exponent = Exponent(marker: char, sign: string, digits: string)

  predicate WellFormed(lit: Literal) {
    && lit.whole != "" && AllDigits(lit.whole) && (|lit.whole| > 1 ==> lit.whole[0] != '0')
    && (lit.fraction.Some? ==> lit.fraction.value != "" && AllDigits(lit.fraction.value))
    && (lit.exponent.Some? ==>
          && lit.exponent.value.marker in {'e', 'E'} && lit.exponent.value.sign in {"", "+", "-"}
          && lit.exponent.value.digits != "" && AllDigits(lit.exponent.value.digits))
  }

  function FractionDigits(lit: Literal): string {
    if lit.fraction.Some? then lit.fraction.value else ""
  }

  function MantissaText(lit: Literal): string {
    lit.whole + if lit.fraction.Some? then "." + lit.fraction.value else ""
  }

  function ExponentText(lit: Literal): string {
    if lit.exponent.Some? then [lit.exponent.value.marker] + lit.exponent.value.sign + lit.exponent.value.digits else ""
  }

  function Text(lit: Literal): string {
    (if lit.negative then "-" else "") + MantissaText(lit) + ExponentText(lit)
  }

  function ExponentValue(lit: Literal): int
    requires WellFormed(lit)
  {
    if lit.exponent.None? then 0
    else if lit.exponent.value.sign == "-" then 0 - DigitsValue(lit.exponent.value.digits)
    else DigitsValue(lit.exponent.value.digits)
  }

  /** The integer m times ten to the power s. */
  function Scaled(m: nat, s: int): real {
    if s >= 0 then (m * Pow10(s)) as real else m as real / Pow10(-s) as real
  }

  /** The exact rational value of a literal. */
  function Value(lit: Literal): real
    requires WellFormed(lit)
  {
    var magnitude := Magnitude(lit);
    if lit.negative then -magnitude else magnitude
  }

  function Magnitude(lit: Literal): real
    requires WellFormed(lit)
  {
    AllDigitsJoin(lit.whole, FractionDigits(lit));
    Scaled(DigitsValue(lit.whole + FractionDigits(lit)), ExponentValue(lit) - |FractionDigits(lit)|)
  }

  // -------------------------------------------------------------- arithmetic on digit strings

  lemma AllDigitsJoin(a: string, b: string)
    ensures AllDigits(a) && AllDigits(b) <==> AllDigits(a + b)
  {
    if AllDigits(a + b) {
      forall i | 0 <= i < |a|
        ensures IsDigit(a[i])
      {
        assert (a + b)[i] == a[i];
      }
      forall i | 0 <= i < |b|
        ensures IsDigit(b[i])
      {
        assert (a + b)[|a| + i] == b[i];
      }
    }
  }

  lemma {:induction false} Pow10Sum(a: nat, b: nat)
    ensures Pow10(a + b) == Pow10(a) * Pow10(b)
    decreases a
  {
    if a > 0 {
      Pow10Sum(a - 1, b);
      assert Pow10(a + b) == 10 * (Pow10(a - 1) * Pow10(b));
    }
  }

  lemma Pow10Grows(a: nat, b: nat)
    requires a <= b
    ensures Pow10(a) <= Pow10(b)
  {
    Pow10Sum(a, b - a);
    assert Pow10(a) * Pow10(b - a) >= Pow10(a) by { MulGrows(Pow10(a), Pow10(b - a)); }
  }

  lemma MulGrows(x: nat, y: nat)
    requires y >= 1
    ensures x * y >= x
  {
    assert x * y - x == x * (y - 1);
  }

  lemma Shift(x: nat, p: nat, y: nat, d: nat)
    ensures (x * p + y) * 10 + d == x * (10 * p) + (y * 10 + d)
  {
  }

  /** Joining digit strings shifts the first by the length of the second. */
  lemma {:induction false} DigitsJoin(a: string, b: string)
    requires AllDigits(a) && AllDigits(b)
    ensures AllDigits(a + b)
    ensures DigitsValue(a + b) == DigitsValue(a) * Pow10(|b|) + DigitsValue(b)
    decreases |b|
  {
    AllDigitsJoin(a, b);
    if b == "" {
      assert a + b == a;
    } else {
      var init := b[..|b| - 1];
      var d := b[|b| - 1] as int - '0' as int;
      DigitsJoin(a, init);
      assert (a + b)[..|a + b| - 1] == a + init;
      assert (a + b)[|a + b| - 1] == b[|b| - 1];
      Shift(DigitsValue(a), Pow10(|init|), DigitsValue(init), d);
    }
  }

  lemma {:induction false} DigitsBelow(text: string)
    requires AllDigits(text)
    ensures DigitsValue(text) < Pow10(|text|)
    decreases |text|
  {
    if text != "" {
      DigitsBelow(text[..|text| - 1]);
    }
  }

  lemma {:induction false} ZeroIsAllZeros(text: string)
    requires AllDigits(text)
    ensures DigitsValue(text) == 0 <==> AllZeros(text)
    decreases |text|
  {
    if text != "" {
      var init := text[..|text| - 1];
      ZeroIsAllZeros(init);
      assert AllZeros(text) <==> AllZeros(init) && text[|text| - 1] == '0' by {
        assert forall i | 0 <= i < |init| :: init[i] == text[i];
      }
    }
  }

  lemma OneDigit(c: char)
    requires IsDigit(c)
    ensures AllDigits([c]) && DigitsValue([c]) == c as int - '0' as int
  {
    assert [c][..0] == "";
  }

  lemma LeadingDigit(text: string)
    requires AllDigits(text) && text != "" && text[0] != '0'
    ensures DigitsValue(text) >= Pow10(|text| - 1)
  {
    hide DigitsValue, Pow10;
    var rest := text[1..];
    assert text == [text[0]] + rest;
    OneDigit(text[0]);
    DigitsJoin([text[0]], rest);
    MulGrows(Pow10(|rest|), DigitsValue([text[0]]));
  }

  function Zeros(n: nat): (text: string)
    ensures |text| == n && AllZeros(text)
  {
    seq(n, _ => '0')
  }

  lemma AppendZeros(text: string, n: nat)
    requires AllDigits(text)
    ensures AllDigits(text + Zeros(n)) && DigitsValue(text + Zeros(n)) == DigitsValue(text) * Pow10(n)
  {
    ZeroIsAllZeros(Zeros(n));
    DigitsJoin(text, Zeros(n));
  }

  function TrimZeros(text: string): (trimmed: string)
    ensures |trimmed| <= |text|
    ensures trimmed != "" ==> trimmed[0] != '0'
  {
    if text != "" && text[0] == '0' then TrimZeros(text[1..]) else text
  }

  lemma {:induction false} TrimKeepsValue(text: string)
    requires AllDigits(text)
    ensures AllDigits(TrimZeros(text)) && DigitsValue(TrimZeros(text)) == DigitsValue(text)
  {
    if text != "" && text[0] == '0' {
      assert text == ['0'] + text[1..];
      DigitsJoin(['0'], text[1..]);
      assert ['0'][..0] == "";
      assert DigitsValue(['0']) == 0;
      TrimKeepsValue(text[1..]);
    }
  }

  // -------------------------------------------------------------- the exponent

  function WithoutSign(text: string): string {
    if text != "" && (text[0] == '+' || text[0] == '-') then text[1..] else text
  }

  predicate ExponentWithin(text: string, limit: nat) {
    var digits := WithoutSign(text);
    digits != "" && AllDigits(digits) && DigitsValue(digits) <= limit
  }

  function SignedExponent(text: string): int
    requires AllDigits(WithoutSign(text))
  {
    if text != "" && text[0] == '-' then 0 - DigitsValue(WithoutSign(text)) else DigitsValue(WithoutSign(text))
  }

  lemma PrefixBound(text: string, i: nat, limit: nat)
    requires i <= |text| && AllDigits(text) && DigitsValue(text) <= limit
    ensures AllDigits(text[..i]) && DigitsValue(text[..i]) <= limit
  {
    assert text == text[..i] + text[i..];
    AllDigitsJoin(text[..i], text[i..]);
    DigitsJoin(text[..i], text[i..]);
    MulGrows(DigitsValue(text[..i]), Pow10(|text[i..]|));
  }

  lemma NextDigit(text: string, i: nat)
    requires i < |text| && AllDigits(text[..i]) && IsDigit(text[i])
    ensures AllDigits(text[..i + 1]) && DigitsValue(text[..i + 1]) == DigitsValue(text[..i]) * 10 + DigitValue(text[i])
  {
    assert text[..i + 1][..i] == text[..i];
  }

  lemma TooLarge(text: string, i: nat, limit: nat)
    requires i <= |text| && AllDigits(text[..i]) && DigitsValue(text[..i]) > limit
    ensures !(AllDigits(text) && DigitsValue(text) <= limit)
  {
    if AllDigits(text) && DigitsValue(text) <= limit {
      PrefixBound(text, i, limit);
    }
  }

  lemma OverLimit(value: nat, digit: nat, limit: nat)
    requires digit <= 9 && limit >= 9
    ensures value > (limit - digit) / 10 <==> value * 10 + digit > limit
  {
  }

  /** Reads a signed exponent, giving up as soon as its magnitude passes the limit. */
  method ParseExponent(given: string, limit: nat) returns (r: Result<int, Rejection>)
    requires limit >= EXPONENT_SLACK
    ensures r.Ok? <==> ExponentWithin(given, limit)
    ensures r.Ok? ==> r.value == SignedExponent(given)
  {
    var text := given;
    if text == "" {
      return Err(Rejection);
    }
    var sign := 1;
    if text[0] == '+' || text[0] == '-' {
      if text[0] == '-' {
        sign := -1;
      }
      text := text[1..];
    }
    assert text == WithoutSign(given);
    if text == "" {
      return Err(Rejection);
    }
    var value := 0;
    assert DigitsValue(text[..0]) == 0;
    hide DigitsValue, WithoutSign;
    for i := 0 to |text|
      invariant AllDigits(text[..i]) && value == DigitsValue(text[..i]) && value <= limit
    {
      if !IsDigit(text[i]) {
        return Err(Rejection);
      }
      var digit := DigitValue(text[i]);
      NextDigit(text, i);
      OverLimit(value, digit, limit);
      if value > (limit - digit) / 10 {
        TooLarge(text, i + 1, limit);
        return Err(Rejection);
      }
      value := value * 10 + digit;
    }
    assert text[..|text|] == text;
    return Ok(sign * value);
  }

  // -------------------------------------------------------------- the decoder

  /** The first position of one of the characters, or the length. */
  function FirstIndex(text: string, chars: set<char>): (index: nat)
    ensures index <= |text| && (forall i | 0 <= i < index :: text[i] !in chars)
    ensures index < |text| ==> text[index] in chars
  {
    if text == "" || text[0] in chars then 0 else 1 + FirstIndex(text[1..], chars)
  }

  lemma FirstIndexIs(text: string, chars: set<char>, index: nat)
    requires index <= |text| && forall i | 0 <= i < index :: text[i] !in chars
    requires index < |text| ==> text[index] in chars
    ensures FirstIndex(text, chars) == index
  {
  }

  function DecodedInteger(digits: string): Result<nat, Rejection> {
    if |digits| > 16 || !AllDigits(digits) || DigitsValue(digits) > MAX_SAFE then Err(Rejection)
    else Ok(DigitsValue(digits))
  }

  function DecodedDigits(digits: string, scale: int): Result<nat, Rejection> {
    if digits == "" then Ok(0)
    else if scale >= 0 then
      if |digits| + scale > 16 then Err(Rejection) else DecodedInteger(digits + Zeros(scale))
    else if -scale >= |digits| || !AllZeros(digits[|digits| + scale..]) then Err(Rejection)
    else DecodedInteger(digits[..|digits| + scale])
  }

  function DecodedMantissa(mantissa: string, exponent: int): Result<nat, Rejection> {
    var dot := FirstIndex(mantissa, {'.'});
    var whole := mantissa[..dot];
    var fraction := if dot < |mantissa| then mantissa[dot + 1..] else "";
    if '.' in fraction || whole == "" || (dot < |mantissa| && fraction == "") then Err(Rejection)
    else DecodedDigits(TrimZeros(whole + fraction), exponent - |fraction|)
  }

  /** What the decoder computes, whatever the text. */
  function Decoded(text: string, limit: nat): Result<nat, Rejection> {
    if text != "" && text[0] == '-' then Err(Rejection)
    else
      var index := FirstIndex(text, {'e', 'E'});
      if index == |text| then DecodedMantissa(text, 0)
      else if !ExponentWithin(text[index + 1..], limit) then Err(Rejection)
      else DecodedMantissa(text[..index], SignedExponent(text[index + 1..]))
  }

  method IndexAny(text: string, chars: set<char>) returns (index: nat)
    ensures index == FirstIndex(text, chars)
  {
    index := 0;
    while index < |text| && text[index] !in chars
      invariant index <= |text| && forall i | 0 <= i < index :: text[i] !in chars
    {
      index := index + 1;
    }
    FirstIndexIs(text, chars, index);
  }

  method ParseUnsigned(digits: string) returns (r: Result<nat, Rejection>)
    ensures |digits| <= 16 ==> r == DecodedInteger(digits)
  {
    var parsed := 0;
    for i := 0 to |digits|
      invariant AllDigits(digits[..i]) && parsed == DigitsValue(digits[..i])
    {
      if !IsDigit(digits[i]) {
        return Err(Rejection);
      }
      assert digits[..i + 1] == digits[..i] + [digits[i]] && digits[..i + 1][..i] == digits[..i];
      parsed := parsed * 10 + (digits[i] as int - '0' as int);
    }
    assert digits[..|digits|] == digits;
    return if parsed > 9007199254740991 then Err(Rejection) else Ok(parsed);
  }

  method ScaleDigits(given: string, scale: int) returns (r: Result<nat, Rejection>)
    requires given != ""
    ensures r == DecodedDigits(given, scale)
  {
    var digits := given;
    if scale >= 0 {
      if |digits| + scale > 16 {
        return Err(Rejection);
      }
      digits := digits + Zeros(scale);
    } else {
      var cut := -scale;
      if cut >= |digits| {
        return Err(Rejection);
      }
      if !AllZeros(digits[|digits| - cut..]) {
        return Err(Rejection);
      }
      digits := digits[..|digits| - cut];
    }
    if |digits| > 16 {
      return Err(Rejection);
    }
    r := ParseUnsigned(digits);
  }

  /** Decodes a number literal found in dataLength bytes of JSON. */
  method Decode(text: string, dataLength: nat) returns (r: Result<nat, Rejection>)
    ensures r == Decoded(text, dataLength + EXPONENT_SLACK)
  {
    hide DecodedDigits, TrimZeros, ExponentWithin, AllDigits, SignedExponent;
    if text != "" && text[0] == '-' {
      return Err(Rejection);
    }
    var mantissa, exponent := text, 0;
    var index := IndexAny(mantissa, {'e', 'E'});
    if index < |mantissa| {
      var parsed := ParseExponent(mantissa[index + 1..], dataLength + 32);
      if parsed.Err? {
        return Err(Rejection);
      }
      exponent := parsed.value;
      mantissa := mantissa[..index];
    }
    assert mantissa == if index < |text| then text[..index] else text;
    var dot := IndexAny(mantissa, {'.'});
    var whole, fraction := mantissa[..dot], "";
    if dot < |mantissa| {
      fraction := mantissa[dot + 1..];
    }
    if '.' in fraction || whole == "" || (dot < |mantissa| && fraction == "") {
      return Err(Rejection);
    }
    var digits := TrimZeros(whole + fraction);
    EmptyDigits(exponent - |fraction|);
    if digits == "" {
      return Ok(0);
    }
    r := ScaleDigits(digits, exponent - |fraction|);
  }

  // -------------------------------------------------------------- exactness

  /** The value is an integer from zero to the safe maximum. */
  predicate Safe(value: real) {
    IsWhole(value) && 0.0 <= value <= MAX_SAFE as real
  }

  lemma SafeScaledUp(m: nat, n: nat)
    ensures Safe(Scaled(m, n)) <==> m * Pow10(n) <= MAX_SAFE
  {
    assert Scaled(m, n) == (m * Pow10(n)) as real;
  }

  lemma Quotient(m: nat, p: nat, q: nat)
    requires p > 0
    ensures m as real / p as real == q as real <==> m == q * p
  {
    if m == q * p {
      assert m as real == q as real * p as real;
    }
    if m as real / p as real == q as real {
      assert m as real == q as real * p as real;
      assert (q * p) as real == q as real * p as real;
    }
  }

  lemma UniqueQuotient(p: nat, q: nat, high: nat, low: nat)
    requires low < p
    ensures q * p == high * p + low ==> q == high && low == 0
  {
    if q > high {
      MulGrows(p, q - high);
      assert q * p == high * p + p * (q - high);
    } else if q < high {
      MulGrows(p, high - q);
      assert high * p == q * p + p * (high - q);
    }
  }

  lemma SafeScaledDown(m: nat, cut: nat, high: nat, low: nat)
    requires cut > 0 && low < Pow10(cut) && m == high * Pow10(cut) + low
    ensures Safe(Scaled(m, 0 - cut)) <==> low == 0 && high <= MAX_SAFE
    ensures low == 0 ==> Scaled(m, 0 - cut) == high as real
  {
    var p := Pow10(cut);
    var v := Scaled(m, 0 - cut);
    assert v == m as real / p as real;
    if low == 0 {
      Quotient(m, p, high);
    }
    if Safe(v) {
      Quotient(m, p, v.Floor);
      UniqueQuotient(p, v.Floor, high, low);
    }
  }

  lemma SixteenDigitsSuffice(digits: string)
    requires AllDigits(digits) && digits != "" && digits[0] != '0'
    ensures |digits| > 16 ==> DigitsValue(digits) > MAX_SAFE
  {
    if |digits| > 16 {
      LeadingDigit(digits);
      Pow10Grows(16, |digits| - 1);
      Pow16();
    }
  }

  lemma Pow16()
    ensures Pow10(16) == 10_000_000_000_000_000
  {
    assert Pow10(4) == 10000 by {
      assert Pow10(2) == 100;
      Pow10Sum(2, 2);
    }
    Pow10Sum(4, 4);
    Pow10Sum(8, 8);
  }

  /** A trimmed digit string at a scale: accepted exactly when it denotes a safe integer. */
  lemma DigitsExact(digits: string, scale: int)
    requires AllDigits(digits) && digits != "" && digits[0] != '0'
    ensures DecodedDigits(digits, scale).Ok? <==> Safe(Scaled(DigitsValue(digits), scale))
    ensures DecodedDigits(digits, scale).Ok? ==> DecodedDigits(digits, scale).value as real == Scaled(DigitsValue(digits), scale)
  {
    if scale >= 0 {
      UpExact(digits, scale);
    } else if -scale >= |digits| {
      DigitsBelow(digits);
      LeadingDigit(digits);
      Pow10Grows(|digits|, -scale);
      SafeScaledDown(DigitsValue(digits), -scale, 0, DigitsValue(digits));
    } else {
      DownExact(digits, -scale);
    }
  }

  lemma UpExact(digits: string, scale: nat)
    requires AllDigits(digits) && digits != "" && digits[0] != '0'
    ensures DecodedDigits(digits, scale).Ok? <==> Safe(Scaled(DigitsValue(digits), scale))
    ensures DecodedDigits(digits, scale).Ok? ==> DecodedDigits(digits, scale).value as real == Scaled(DigitsValue(digits), scale)
  {
    var all := digits + Zeros(scale);
    AppendZeros(digits, scale);
    SafeScaledUp(DigitsValue(digits), scale);
    assert all[0] == digits[0];
    SixteenDigitsSuffice(all);
  }

  lemma DownExact(digits: string, cut: nat)
    requires AllDigits(digits) && digits != "" && digits[0] != '0' && 0 < cut < |digits|
    ensures DecodedDigits(digits, 0 - cut).Ok? <==> Safe(Scaled(DigitsValue(digits), 0 - cut))
    ensures DecodedDigits(digits, 0 - cut).Ok? ==> DecodedDigits(digits, 0 - cut).value as real == Scaled(DigitsValue(digits), 0 - cut)
  {
    var high, low := digits[..|digits| - cut], digits[|digits| - cut..];
    assert digits == high + low;
    AllDigitsJoin(high, low);
    DigitsJoin(high, low);
    DigitsBelow(low);
    ZeroIsAllZeros(low);
    SafeScaledDown(DigitsValue(digits), cut, DigitsValue(high), DigitsValue(low));
    SixteenDigitsSuffice(high);
  }

  /** Whether the decoder accepts a literal: unsigned, safe, and, if it denotes zero, with
      an exponent inside the bound. */
  predicate Acceptable(lit: Literal, limit: nat)
    requires WellFormed(lit)
  {
    && !lit.negative && Safe(Value(lit))
    && (Value(lit) == 0.0 ==> 0 - limit <= ExponentValue(lit) <= limit)
  }

  lemma MantissaParts(lit: Literal, exponent: int)
    requires WellFormed(lit)
    ensures AllDigits(lit.whole + FractionDigits(lit))
    ensures DecodedMantissa(MantissaText(lit), exponent) ==
            DecodedDigits(TrimZeros(lit.whole + FractionDigits(lit)), exponent - |FractionDigits(lit)|)
  {
    hide DecodedDigits, TrimZeros, DigitsValue;
    var mantissa := MantissaText(lit);
    AllDigitsJoin(lit.whole, FractionDigits(lit));
    FirstIndexIs(mantissa, {'.'}, |lit.whole|);
    assert mantissa[..|lit.whole|] == lit.whole;
    if lit.fraction.Some? {
      assert mantissa[|lit.whole| + 1..] == lit.fraction.value;
    }
  }

  lemma ExponentParts(lit: Literal)
    requires WellFormed(lit) && !lit.negative
    ensures Text(lit) != "" && Text(lit)[0] != '-'
    ensures FirstIndex(Text(lit), {'e', 'E'}) == |MantissaText(lit)|
    ensures Text(lit)[..|MantissaText(lit)|] == MantissaText(lit)
    ensures lit.exponent.None? <==> |MantissaText(lit)| == |Text(lit)|
  {
    var text, mantissa := Text(lit), MantissaText(lit);
    assert text == mantissa + ExponentText(lit);
    forall i | 0 <= i < |mantissa|
      ensures text[i] !in {'e', 'E'}
    {
      assert text[i] == mantissa[i];
    }
    FirstIndexIs(text, {'e', 'E'}, |mantissa|);
    assert text[0] == lit.whole[0];
  }

  lemma ExponentRead(lit: Literal, limit: nat)
    requires WellFormed(lit) && !lit.negative && lit.exponent.Some?
    ensures var rest := Text(lit)[|MantissaText(lit)| + 1..];
            && (ExponentWithin(rest, limit) <==> 0 - limit <= ExponentValue(lit) <= limit)
            && AllDigits(WithoutSign(rest)) && SignedExponent(rest) == ExponentValue(lit)
  {
    RestIsExponent(lit);
    hide DigitsValue, MantissaText, Text;
    var e := lit.exponent.value;
    SignOff(e.sign, e.digits);
  }

  lemma RestIsExponent(lit: Literal)
    requires WellFormed(lit) && !lit.negative && lit.exponent.Some?
    ensures |Text(lit)| > |MantissaText(lit)|
    ensures var e := lit.exponent.value; Text(lit)[|MantissaText(lit)| + 1..] == e.sign + e.digits
  {
    hide DigitsValue, MantissaText;
    var e := lit.exponent.value;
    AfterMarker(MantissaText(lit), e.marker, e.sign, e.digits);
  }

  lemma AfterMarker(mantissa: string, marker: char, sign: string, digits: string)
    ensures ("" + mantissa + ([marker] + sign + digits))[|mantissa| + 1..] == sign + digits
  {
  }

  lemma SignOff(sign: string, digits: string)
    requires sign in {"", "+", "-"} && digits != "" && AllDigits(digits)
    ensures WithoutSign(sign + digits) == digits
    ensures SignedExponent(sign + digits) == if sign == "-" then 0 - DigitsValue(digits) else DigitsValue(digits)
  {
    hide DigitsValue;
    if sign == "" {
      assert sign + digits == digits;
    } else {
      assert (sign + digits)[0] == sign[0] && (sign + digits)[1..] == digits;
    }
  }

  /** A nonzero literal whose exponent passes the bound denotes no safe integer. */
  lemma HugeExponent(lit: Literal, limit: nat)
    requires WellFormed(lit) && !lit.negative && limit >= |Text(lit)| + EXPONENT_SLACK
    requires !(0 - limit <= ExponentValue(lit) <= limit)
    requires TrimZeros(Mantissa(lit)) != ""
    ensures !Safe(Value(lit))
  {
    var digits := TrimZeros(Mantissa(lit));
    TrimKeepsValue(Mantissa(lit));
    var scale := ExponentValue(lit) - |FractionDigits(lit)|;
    assert |Mantissa(lit)| <= |Text(lit)|;
    assert Value(lit) == Scaled(DigitsValue(digits), scale);
    DigitsExact(digits, scale);
  }

  function Mantissa(lit: Literal): (digits: string)
    requires WellFormed(lit)
    ensures AllDigits(digits)
  {
    AllDigitsJoin(lit.whole, FractionDigits(lit));
    lit.whole + FractionDigits(lit)
  }

  lemma ZeroMantissa(lit: Literal)
    requires WellFormed(lit) && !lit.negative
    ensures Value(lit) == 0.0 <==> TrimZeros(Mantissa(lit)) == ""
  {
    var digits := TrimZeros(Mantissa(lit));
    TrimKeepsValue(Mantissa(lit));
    var scale := ExponentValue(lit) - |FractionDigits(lit)|;
    if digits != "" {
      LeadingDigit(digits);
      var m := DigitsValue(digits);
      assert m >= 1;
      if scale >= 0 {
        assert m * Pow10(scale) >= m by { MulGrows(m, Pow10(scale)); }
      } else {
        Quotient(m, Pow10(-scale), 0);
      }
    } else if scale < 0 {
      Quotient(0, Pow10(-scale), 0);
    }
  }

  lemma DecodedParts(lit: Literal, limit: nat)
    requires WellFormed(lit) && !lit.negative
    ensures Decoded(Text(lit), limit) ==
            if 0 - limit <= ExponentValue(lit) <= limit
            then DecodedDigits(TrimZeros(Mantissa(lit)), ExponentValue(lit) - |FractionDigits(lit)|)
            else Err(Rejection)
  {
    hide MantissaText, DecodedDigits, DecodedMantissa, TrimZeros, ExponentWithin, DigitsValue, SignedExponent, WithoutSign;
    ExponentParts(lit);
    MantissaParts(lit, ExponentValue(lit));
    if lit.exponent.Some? {
      ExponentRead(lit, limit);
    } else {
      assert Text(lit) == MantissaText(lit);
    }
  }

  lemma NegativeIsRejected(lit: Literal, limit: nat)
    requires lit.negative
    ensures Decoded(Text(lit), limit).Err?
  {
    assert Text(lit)[0] == '-';
  }

  lemma EmptyDigits(scale: int)
    ensures DecodedDigits("", scale) == Ok(0)
  {
  }

  lemma ValueOfTrimmed(lit: Literal)
    requires WellFormed(lit) && !lit.negative
    ensures AllDigits(TrimZeros(Mantissa(lit)))
    ensures Value(lit) == Scaled(DigitsValue(TrimZeros(Mantissa(lit))), ExponentValue(lit) - |FractionDigits(lit)|)
  {
    hide Scaled, TrimZeros, DigitsValue;
    TrimKeepsValue(Mantissa(lit));
  }

  /** Exactness: over every literal of the standard's grammar, a returned number equals the
      literal's rational value, and the literals accepted are exactly the acceptable ones;
      the exponent bound never rejects a nonzero safe integer. */
  lemma DecodingIsExact(lit: Literal, dataLength: nat)
    requires WellFormed(lit) && dataLength >= |Text(lit)|
    ensures var r := Decoded(Text(lit), dataLength + EXPONENT_SLACK);
            && (r.Ok? <==> Acceptable(lit, dataLength + EXPONENT_SLACK))
            && (r.Ok? ==> r.value as real == Value(lit) && r.value <= MAX_SAFE)
  {
    hide DecodedMantissa, TrimZeros, DigitsValue, Scaled, Text, Decoded, DecodedDigits, Mantissa, Value;
    var limit := dataLength + EXPONENT_SLACK;
    if lit.negative {
      NegativeIsRejected(lit, limit);
    } else {
      var digits := TrimZeros(Mantissa(lit));
      ValueOfTrimmed(lit);
      ZeroMantissa(lit);
      DecodedParts(lit, limit);
      EmptyDigits(ExponentValue(lit) - |FractionDigits(lit)|);
      if digits != "" {
        DigitsExact(digits, ExponentValue(lit) - |FractionDigits(lit)|);
        if !(0 - limit <= ExponentValue(lit) <= limit) {
          HugeExponent(lit, limit);
        }
      }
    }
  }

  /** The decoder on a literal of the grammar, as a caller sees it. */
  method DecodeLiteral(lit: Literal, dataLength: nat) returns (r: Result<nat, Rejection>)
    requires WellFormed(lit) && dataLength >= |Text(lit)|
    ensures r.Ok? <==> Acceptable(lit, dataLength + EXPONENT_SLACK)
    ensures r.Ok? ==> r.value as real == Value(lit) && r.value <= MAX_SAFE
  {
    hide *;
    r := Decode(Text(lit), dataLength);
    DecodingIsExact(lit, dataLength);
  }
}
