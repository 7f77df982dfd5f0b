/** Decimal literals as Rust's `FromStr`/`Display` read and write them for
 *  `i64`, `i32`, `usize`, `bool` and `f64`. */
module Numbers {
  import opened Wrappers
  import Text

  const I64_MIN: int := -0x8000_0000_0000_0000
  const I64_MAX: int := 0x7FFF_FFFF_FFFF_FFFF
  const I32_MIN: int := -0x8000_0000
  const I32_MAX: int := 0x7FFF_FFFF
  /** `usize` on a 64-bit target. */
  const USIZE_MAX: int := 0xFFFF_FFFF_FFFF_FFFF

  predicate AllDigits(s: string)
  {
    forall i :: 0 <= i < |s| ==> Text.IsDigit(s[i])
  }

  function DigitValue(c: char): nat
    requires Text.IsDigit(c)
  {
    c as int - '0' as int
  }

  /** The value of a non-empty run of decimal digits (leading zeros allowed). */
  function DigitsValue(s: string): nat
    requires AllDigits(s)
  {
    if s == [] then 0 else 10 * DigitsValue(s[..|s| - 1]) + DigitValue(s[|s| - 1])
  }

  /** The integer syntax shared by Rust's integer `from_str`: an optional
   *  `+` (or `-` for signed types) and at least one digit. Unbounded. */
  function ParseInteger(s: string, signed: bool): Option<int>
  {
    if s == [] then None
    else if (s[0] == '+' || s[0] == '-') && |s| == 1 then None
    else if s[0] == '+' then (if AllDigits(s[1..]) then Some(DigitsValue(s[1..]) as int) else None)
    else if s[0] == '-' && signed then (if AllDigits(s[1..]) then Some(-(DigitsValue(s[1..]) as int)) else None)
    else if AllDigits(s) then Some(DigitsValue(s) as int) else None
  }

  function ParseBounded(s: string, signed: bool, lo: int, hi: int): (r: Option<int>)
    ensures r.Some? ==> lo <= r.value <= hi
  {
    var n := ParseInteger(s, signed);
    if n.Some? && lo <= n.value <= hi then n else None
  }

  /** `str::parse::<i64>`. */
  function ParseI64(s: string): (r: Option<int>)
    ensures r.Some? ==> I64_MIN <= r.value <= I64_MAX
  {
    ParseBounded(s, true, I64_MIN, I64_MAX)
  }

  /** `str::parse::<i32>`. */
  function ParseI32(s: string): (r: Option<int>)
    ensures r.Some? ==> I32_MIN <= r.value <= I32_MAX
  {
    ParseBounded(s, true, I32_MIN, I32_MAX)
  }

  /** `str::parse::<usize>`: a leading `-` is rejected even for "-0". */
  function ParseUsize(s: string): (r: Option<int>)
    ensures r.Some? ==> 0 <= r.value <= USIZE_MAX
    ensures s != [] && s[0] == '-' ==> r.None?
  {
    ParseBounded(s, false, 0, USIZE_MAX)
  }

  /** `str::parse::<bool>`: exactly "true" or "false". */
  function ParseBool(s: string): (r: Option<bool>)
    ensures r.Some? <==> s == "true" || s == "false"
    ensures r.Some? ==> (r.value <==> s == "true")
  {
    if s == "true" then Some(true) else if s == "false" then Some(false) else None
  }

  function ShowBool(b: bool): string
  {
    if b then "true" else "false"
  }

  function DigitChar(d: nat): (c: char)
    requires d < 10
    ensures Text.IsDigit(c) && DigitValue(c) == d
  {
    ('0' as int + d) as char
  }

  /** `Display` of a non-negative integer: no sign, no leading zeros. */
  function ShowNat(n: nat): (s: string)
    ensures s != [] && AllDigits(s)
  {
    if n < 10 then [DigitChar(n)] else ShowNat(n / 10) + [DigitChar(n % 10)]
  }

  /** `Display` of an integer. */
  function ShowInt(n: int): string
  {
    if n < 0 then "-" + ShowNat(-n) else ShowNat(n)
  }

  lemma {:induction false} DigitsValueShowNat(n: nat)
    ensures DigitsValue(ShowNat(n)) == n
  {
    if n >= 10 {
      var s := ShowNat(n);
      DigitsValueShowNat(n / 10);
      assert s[..|s| - 1] == ShowNat(n / 10);
    }
  }

  /** Printing an integer and parsing it back gives the integer, within the
   *  range of the target type. */
  lemma ParseShowInt(n: int, signed: bool, lo: int, hi: int)
    requires signed || n >= 0
    requires lo <= n <= hi
    ensures ParseBounded(ShowInt(n), signed, lo, hi) == Some(n)
  {
    if n < 0 {
      DigitsValueShowNat(-n);
      assert ShowInt(n)[1..] == ShowNat(-n);
    } else {
      DigitsValueShowNat(n);
      assert ShowInt(n)[0] != '+' && ShowInt(n)[0] != '-';
    }
  }

  lemma ParseShowBool(b: bool)
    ensures ParseBool(ShowBool(b)) == Some(b)
  {
  }

  /** The text Rust's `f64::from_str` accepts: an optional sign, then
   *  "inf", "infinity" or "nan" in any case, or digits with an optional
   *  fraction and an optional exponent. */
  predicate IsFloatLiteral(s: string)
  {
    var body := if s != [] && (s[0] == '+' || s[0] == '-') then s[1..] else s;
    Text.ToLower(body) in {"inf", "infinity", "nan"} || IsDecimalNumber(body)
  }

  predicate IsDecimalNumber(s: string)
  {
    var m := ExponentStart(s);
    IsMantissa(s[..m]) && IsExponent(s[m..])
  }

  /** Index of the first 'e' or 'E', or the length when there is none. */
  function ExponentStart(s: string): (m: nat)
    ensures m <= |s|
    ensures forall i :: 0 <= i < m ==> s[i] != 'e' && s[i] != 'E'
    ensures m < |s| ==> s[m] == 'e' || s[m] == 'E'
  {
    if s == [] || s[0] == 'e' || s[0] == 'E' then 0 else 1 + ExponentStart(s[1..])
  }

  predicate IsMantissa(s: string)
  {
    if '.' in s then
      var i := Text.IndexOf(s, '.');
      AllDigits(s[..i]) && AllDigits(s[i + 1..]) && (i > 0 || i + 1 < |s|)
    else s != [] && AllDigits(s)
  }

  predicate IsExponent(s: string)
  {
    s == [] || (|s| >= 2 && (s[0] == 'e' || s[0] == 'E') &&
      var d := if s[1] == '+' || s[1] == '-' then s[2..] else s[1..];
      d != [] && AllDigits(d))
  }

  /** An `f64`, represented by the literal it was read from; `Display` writes
   *  that literal back. Rounding and normalisation are not modelled. */
  type F64 = s: string | IsFloatLiteral(s) witness "0"

  function ParseF64(s: string): (r: Option<F64>)
    ensures r.Some? <==> IsFloatLiteral(s)
  {
    if IsFloatLiteral(s) then var f: F64 := s; Some(f) else None
  }

  function ShowF64(f: F64): string
  {
    f
  }

  lemma EveryIntegerIsAFloatLiteral(s: string)
    requires ParseInteger(s, true).Some?
    ensures IsFloatLiteral(s)
  {
    var body := if s[0] == '+' || s[0] == '-' then s[1..] else s;
    assert AllDigits(body) && body != [];
    assert ExponentStart(body) == |body| by {
      if ExponentStart(body) < |body| { assert false; }
    }
    assert body[..|body|] == body;
    assert IsMantissa(body);
  }
}
