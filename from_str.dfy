/**
  The string-to-value rule every numeric and boolean leaf of the profile goes
  through: Rust's `FromStr` for `u32`, `u64`, `i32`, `bool` and `f32`, applied
  to the JSON string that holds the field.
*/
module FromStr {
  import opened Wrappers

  const U32_BOUND: nat := 0x1_0000_0000
  const U64_BOUND: nat := 0x1_0000_0000_0000_0000
  const I32_MIN: int := -0x8000_0000
  const I32_MAX: int := 0x7fff_ffff

  predicate IsDigit(c: char) {
    '0' <= c <= '9'
  }

  predicate AllDigits(s: string) {
    forall i | 0 <= i < |s| :: IsDigit(s[i])
  }

  /** The value of a string of decimal digits, most significant first. */
  function DigitsValue(s: string): nat
    requires AllDigits(s)
  {
    if s == [] then 0 else 10 * DigitsValue(s[..|s| - 1]) + (s[|s| - 1] as int - '0' as int)
  }

  /** Decimal rendering of a natural, as Rust's `Display` writes it. */
  function NatToDecimal(n: nat): (s: string)
    ensures s != [] && AllDigits(s)
  {
    var last := ['0' + (n % 10) as char];
    if n < 10 then last else NatToDecimal(n / 10) + last
  }

  /** The digits of an unsigned literal: the string without its optional leading `+`. */
  function UnsignedDigits(s: string): string {
    if s != [] && s[0] == '+' then s[1..] else s
  }

  /** The digits of a signed literal: the string without its optional leading `+` or `-`. */
  function SignedDigits(s: string): string {
    if s != [] && (s[0] == '+' || s[0] == '-') then s[1..] else s
  }

  /** The value a signed literal spells, negated after a leading `-`. */
  function SignedValue(s: string): int
    requires AllDigits(SignedDigits(s))
  {
    if s != [] && s[0] == '-' then -(DigitsValue(SignedDigits(s)) as int) else DigitsValue(SignedDigits(s))
  }

  /**
    `u32::from_str` and `u64::from_str` (`bound` is 2^32 or 2^64): an optional
    `+` and then at least one decimal digit; anything else, or a value that does
    not fit, is an error.
  */
  function ParseUnsigned(s: string, bound: nat): (r: Result<nat>)
    ensures r.Ok? ==> r.value < bound
    ensures r.Ok? ==> forall i | 0 <= i < |s| :: IsDigit(s[i]) || (i == 0 && s[i] == '+')
    ensures r.Ok? ==> exists i | 0 <= i < |s| :: IsDigit(s[i])
    ensures s != [] && AllDigits(s) && DigitsValue(s) < bound ==> r == Ok(DigitsValue(s))
    ensures s != [] && AllDigits(s) && DigitsValue(s) >= bound ==> r.Err?
    ensures r.Ok? <==> UnsignedDigits(s) != [] && AllDigits(UnsignedDigits(s)) && DigitsValue(UnsignedDigits(s)) < bound
    ensures r.Ok? ==> AllDigits(UnsignedDigits(s)) && r.value == DigitsValue(UnsignedDigits(s))
  {
    if s == [] then Err("cannot parse integer from empty string")
    else
      var digits := UnsignedDigits(s);
      if digits == [] || !AllDigits(digits) then Err("invalid digit found in string")
      else if DigitsValue(digits) >= bound then Err("number too large to fit in target type")
      else
        assert IsDigit(s[|s| - 1]);
        Ok(DigitsValue(digits))
  }

  function ParseU32(s: string): Result<nat> {
    ParseUnsigned(s, U32_BOUND)
  }

  function ParseU64(s: string): Result<nat> {
    ParseUnsigned(s, U64_BOUND)
  }

  /** `i32::from_str`: an optional sign and at least one digit, within the 32-bit range. */
  function ParseI32(s: string): (r: Result<int>)
    ensures r.Ok? ==> I32_MIN <= r.value <= I32_MAX
    ensures r.Ok? ==> forall i | 0 <= i < |s| :: IsDigit(s[i]) || (i == 0 && (s[i] == '+' || s[i] == '-'))
    ensures r.Ok? ==> exists i | 0 <= i < |s| :: IsDigit(s[i])
    ensures r.Ok? && r.value < 0 ==> s[0] == '-'
    ensures r.Ok? <==> SignedDigits(s) != [] && AllDigits(SignedDigits(s)) && I32_MIN <= SignedValue(s) <= I32_MAX
    ensures r.Ok? ==> AllDigits(SignedDigits(s)) && r.value == SignedValue(s)
  {
    if s == [] then Err("cannot parse integer from empty string")
    else
      var digits := SignedDigits(s);
      if digits == [] || !AllDigits(digits) then Err("invalid digit found in string")
      else
        var v := SignedValue(s);
        if v < I32_MIN then Err("number too small to fit in target type")
        else if v > I32_MAX then Err("number too large to fit in target type")
        else
          assert IsDigit(s[|s| - 1]);
          Ok(v)
  }

  /** `bool::from_str` accepts exactly `true` and `false`. */
  function ParseBool(s: string): (r: Result<bool>)
    ensures r.Ok? <==> s == "true" || s == "false"
    ensures r.Ok? ==> (r.value <==> s == "true")
  {
    if s == "true" then Ok(true)
    else if s == "false" then Ok(false)
    else Err("provided string was not `true` or `false`")
  }

  /** The length of the run of digits that starts `s`. */
  function LeadingDigits(s: string): (n: nat)
    ensures n <= |s| && AllDigits(s[..n])
    ensures n < |s| ==> !IsDigit(s[n])
    ensures AllDigits(s) ==> n == |s|
  {
    if s == [] || !IsDigit(s[0]) then 0
    else
      var n := 1 + LeadingDigits(s[1..]);
      assert s[..n] == [s[0]] + s[1..][..n - 1];
      n
  }

  function Pow10(e: nat): (p: nat)
    ensures p >= 1
  {
    if e == 0 then 1 else 10 * Pow10(e - 1)
  }

  /** The optional `e`/`E` exponent of a float literal: a sign and at least one digit. */
  function ParseExponent(s: string): (r: Result<int>)
  {
    if s == [] then Ok(0)
    else if s[0] != 'e' && s[0] != 'E' then Err("invalid float literal")
    else
      var rest := s[1..];
      var digits := if rest != [] && (rest[0] == '+' || rest[0] == '-') then rest[1..] else rest;
      if digits == [] || !AllDigits(digits) then Err("invalid float literal")
      else if rest[0] == '-' then Ok(-(DigitsValue(digits) as int))
      else Ok(DigitsValue(digits))
  }

  /**
    `f32::from_str` on decimal literals: an optional sign, digits with an
    optional fractional part (at least one digit in all), and an optional
    exponent. The value is the exact rational the literal denotes.
  */
  function ParseF32(s: string): Result<real> {
    var negative := s != [] && s[0] == '-';
    var body := if s != [] && (s[0] == '+' || s[0] == '-') then s[1..] else s;
    var i := LeadingDigits(body);
    var integral := body[..i];
    var afterIntegral := body[i..];
    var hasPoint := afterIntegral != [] && afterIntegral[0] == '.';
    var afterPoint := if hasPoint then afterIntegral[1..] else afterIntegral;
    var f := if hasPoint then LeadingDigits(afterPoint) else 0;
    var fraction := afterPoint[..f];
    if integral == [] && fraction == [] then Err("invalid float literal")
    else
      var e :- ParseExponent(afterPoint[f..]);
      var mantissa := DigitsValue(integral) as real + DigitsValue(fraction) as real / Pow10(|fraction|) as real;
      var magnitude := if e >= 0 then mantissa * Pow10(e) as real else mantissa / Pow10(-e) as real;
      Ok(if negative then -magnitude else magnitude)
  }

  /** A plain digit string is read as the integer it spells. */
  lemma DigitsParseAsF32(s: string)
    requires s != [] && AllDigits(s)
    ensures ParseF32(s) == Ok(DigitsValue(s) as real)
  {
    assert IsDigit(s[0]);
    assert LeadingDigits(s) == |s|;
    assert s[..|s|] == s && s[|s|..] == [];
    assert ParseExponent([]) == Ok(0);
    assert DigitsValue([]) == 0;
  }

  /** A float literal holds at least one digit: a sign, point or exponent alone is refused. */
  lemma F32NeedsDigit(s: string)
    ensures ParseF32(s).Ok? ==> exists i | 0 <= i < |s| :: IsDigit(s[i])
  {
    if ParseF32(s).Ok? {
      var body := if s != [] && (s[0] == '+' || s[0] == '-') then s[1..] else s;
      var i := LeadingDigits(body);
      var afterIntegral := body[i..];
      var hasPoint := afterIntegral != [] && afterIntegral[0] == '.';
      var afterPoint := if hasPoint then afterIntegral[1..] else afterIntegral;
      var f := if hasPoint then LeadingDigits(afterPoint) else 0;
      if i > 0 {
        assert IsDigit(body[..i][0]);
        assert IsDigit(s[|s| - |body|]);
      } else {
        assert f > 0;
        assert IsDigit(afterPoint[..f][0]);
        assert IsDigit(s[|s| - |body| + 1]);
      }
    }
  }

  lemma {:induction false} DecimalValue(n: nat)
    ensures DigitsValue(NatToDecimal(n)) == n
  {
    var last := ['0' + (n % 10) as char];
    if n >= 10 {
      DecimalValue(n / 10);
      var s := NatToDecimal(n / 10) + last;
      assert s[..|s| - 1] == NatToDecimal(n / 10);
    }
  }

  /** Decoding what `Display` wrote gives the number back, for every value of the type. */
  lemma UnsignedRoundTrip(n: nat, bound: nat)
    requires n < bound
    ensures ParseUnsigned(NatToDecimal(n), bound) == Ok(n)
  {
    DecimalValue(n);
  }

  lemma I32RoundTrip(v: int)
    requires I32_MIN <= v <= I32_MAX
    ensures v >= 0 ==> ParseI32(NatToDecimal(v)) == Ok(v)
    ensures v < 0 ==> ParseI32("-" + NatToDecimal(-v)) == Ok(v)
  {
    if v >= 0 {
      DecimalValue(v);
    } else {
      DecimalValue(-v);
      assert ("-" + NatToDecimal(-v))[1..] == NatToDecimal(-v);
    }
  }
}
