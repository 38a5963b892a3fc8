/** Decimal rendering and parsing of Rust `i32` values (`format!("{}")` and `str::parse::<i32>`). */
module Numbers {
  import opened Wrappers

  const I32_MIN: int := -0x8000_0000
  const I32_MAX: int := 0x7FFF_FFFF

  type I32 = x: int | I32_MIN <= x <= I32_MAX

  predicate IsDigit(c: char) {
    '0' <= c <= '9'
  }

  predicate AllDigits(s: string) {
    forall k :: 0 <= k < |s| ==> IsDigit(s[k])
  }

  function DigitChar(d: nat): (c: char)
    requires d < 10
    ensures IsDigit(c) && c as int - '0' as int == d
  {
    ('0' as int + d) as char
  }

  /** The value of a string of decimal digits, most significant first. */
  function DigitsValue(s: string): nat
    requires AllDigits(s)
  {
    if |s| == 0 then 0
    else DigitsValue(s[..|s| - 1]) * 10 + (s[|s| - 1] as int - '0' as int)
  }

  /** The decimal digits of `n`, without leading zeros. */
  function ShowNat(n: nat): (r: string)
    ensures |r| >= 1 && AllDigits(r)
    ensures |r| > 1 ==> r[0] != '0'
  {
    if n < 10 then [DigitChar(n)] else ShowNat(n / 10) + [DigitChar(n % 10)]
  }

  /** `format!("{}", n)` for an integer: a minus sign, then the digits of the magnitude. */
  function ShowInt(n: int): string
  {
    if n < 0 then "-" + ShowNat(-n) else ShowNat(n)
  }

  /**
   * `str::parse::<i32>`: an optional `+` or `-`, then at least one decimal
   * digit; the value must lie in the `i32` range.
   */
  function ParseI32(s: string): (r: Option<I32>)
    ensures r.Some? ==> |s| >= 1 && (IsDigit(s[0]) || s[0] == '+' || s[0] == '-') && AllDigits(s[1..])
  {
    if |s| == 0 then None
    else if (s[0] == '+' || s[0] == '-') && |s| == 1 then None
    else
      var negative := s[0] == '-';
      var digits := if s[0] == '+' || s[0] == '-' then s[1..] else s;
      if !AllDigits(digits) then None
      else
        var magnitude: int := DigitsValue(digits);
        var v := if negative then -magnitude else magnitude;
        if I32_MIN <= v <= I32_MAX then Some(v) else None
  }

  lemma {:induction false} ShowNatValue(n: nat)
    ensures DigitsValue(ShowNat(n)) == n
  {
    var s := ShowNat(n);
    if n < 10 {
      assert s[..|s| - 1] == [];
    } else {
      assert s[..|s| - 1] == ShowNat(n / 10);
      ShowNatValue(n / 10);
    }
  }

  /** Parsing the rendering of any `i32` gives the value back. */
  lemma ParseShowInt(n: I32)
    ensures ParseI32(ShowInt(n)) == Some(n)
  {
    var s := ShowInt(n);
    var m: int := n;
    if m < 0 {
      assert s[1..] == ShowNat(-m);
      ShowNatValue(-m);
    } else {
      ShowNatValue(n);
    }
  }

  /** Distinct integers are rendered differently. */
  lemma ShowIntInjective(m: I32, n: I32)
    requires m != n
    ensures ShowInt(m) != ShowInt(n)
  {
    ParseShowInt(m);
    ParseShowInt(n);
  }

  /** No rendered integer contains a space, a slash or a dot. */
  lemma ShowIntCharset(n: int)
    ensures forall k :: 0 <= k < |ShowInt(n)| ==> IsDigit(ShowInt(n)[k]) || (k == 0 && ShowInt(n)[k] == '-')
  {
    if n < 0 {
      var s := ShowInt(n);
      assert s == "-" + ShowNat(-n);
      forall k | 0 < k < |s| ensures IsDigit(s[k]) {
        assert s[k] == ShowNat(-n)[k - 1];
      }
    }
  }
}
