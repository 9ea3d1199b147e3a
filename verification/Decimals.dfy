/** Decimal device ids: how they are printed, how Rust parses them, and which spellings are accepted. */
module Decimals {
  import opened Wrappers

  const U64_MAX := 0xFFFF_FFFF_FFFF_FFFF

  function Digit(d: nat): char
    requires d < 10
  {
    '0' + d as char
  }

  predicate IsDigit(c: char) {
    '0' <= c <= '9'
  }

  predicate AllDigits(s: string) {
    forall i :: 0 <= i < |s| ==> IsDigit(s[i])
  }

  /** `u64::to_string`. */
  function Decimal(n: nat): (r: string)
    ensures |r| > 0 && AllDigits(r)
  {
    if n < 10 then [Digit(n)] else Decimal(n / 10) + [Digit(n % 10)]
  }

  function Number(s: string): nat
    requires AllDigits(s)
  {
    if s == [] then 0 else 10 * Number(s[..|s| - 1]) + (s[|s| - 1] - '0') as nat
  }

  /** `str::parse::<u64>`: an optional plus sign, then digits, without overflow. */
  function ParseU64(s: string): Option<nat> {
    var digits := if |s| > 0 && s[0] == '+' then s[1..] else s;
    if digits == [] || !AllDigits(digits) || Number(digits) > U64_MAX then None else Some(Number(digits))
  }

  /** A caller's device pin: only the canonical spelling of a positive id is accepted. */
  function ParseId(value: string): Option<nat> {
    if |value| == 0 || |value| > 20 || !AllDigits(value) then None
    else
      var parsed := ParseU64(value);
      if parsed.Some? && parsed.value > 0 && Decimal(parsed.value) == value then parsed else None
  }

  lemma {:induction false} NumberOfDecimal(n: nat)
    ensures Number(Decimal(n)) == n
  {
    var s := Decimal(n);
    if n < 10 {
      assert s[..0] == [];
    } else {
      NumberOfDecimal(n / 10);
      assert s[..|s| - 1] == Decimal(n / 10);
    }
  }

  lemma DecimalInjective(a: nat, b: nat)
    requires Decimal(a) == Decimal(b)
    ensures a == b
  {
    NumberOfDecimal(a);
    NumberOfDecimal(b);
  }

  function Pow10(k: nat): nat {
    if k == 0 then 1 else 10 * Pow10(k - 1)
  }

  lemma {:induction false} DecimalLength(n: nat, k: nat)
    requires k >= 1 && n < Pow10(k)
    ensures |Decimal(n)| <= k
  {
    if n >= 10 {
      assert k > 1;
      DecimalLength(n / 10, k - 1);
    }
  }

  lemma U64Fits()
    ensures U64_MAX < Pow10(20)
  {
    assert Pow10(5) == 100000;
    assert Pow10(10) == 100000 * 100000;
    assert Pow10(15) == 100000 * 100000 * 100000;
    assert Pow10(20) == 100000 * 100000 * 100000 * 100000;
  }

  /** Pins are lossless: a pin is accepted as `id` exactly when it is the decimal spelling of a positive
      64-bit id, so no two spellings name one device. */
  lemma PinIsCanonical(value: string, id: nat)
    ensures ParseId(value) == Some(id) <==> 0 < id <= U64_MAX && value == Decimal(id)
  {
    if 0 < id <= U64_MAX && value == Decimal(id) {
      NumberOfDecimal(id);
      U64Fits();
      DecimalLength(id, 20);
      assert IsDigit(value[0]);
    }
  }

  /** Parsing as it is done, digit by digit with an overflow test at each: it accepts exactly what `ParseU64` says. */
  method ParseDigits(s: string) returns (r: Option<nat>)
    ensures r == ParseU64(s)
    ensures r.Some? ==> r.value <= 18446744073709551615
  {
    var start := if |s| > 0 && s[0] == '+' then 1 else 0;
    ghost var digits := if |s| > 0 && s[0] == '+' then s[1..] else s;
    assert s[start..] == digits;
    if |s| == start {
      return None;
    }
    var value := 0;
    for i := start to |s|
      invariant AllDigits(digits[..i - start]) && value == Number(digits[..i - start]) <= U64_MAX
    {
      var k := i - start;
      assert digits[k] == s[i] && digits[..k + 1][..k] == digits[..k];
      if !('0' <= s[i] <= '9') {
        assert !AllDigits(digits);
        return None;
      }
      NumberOfPrefix(digits, k + 1);
      value := value * 10 + (s[i] - '0') as nat;
      if value > 0xFFFF_FFFF_FFFF_FFFF {
        return None;
      }
    }
    assert digits[..|digits|] == digits;
    r := Some(value);
  }

  /** A prefix of digits is no larger a number. */
  lemma {:induction false} NumberOfPrefix(s: string, k: nat)
    requires k <= |s|
    ensures AllDigits(s) ==> Number(s[..k]) <= Number(s)
  {
    if AllDigits(s) {
      if k < |s| {
        NumberOfPrefix(s[..|s| - 1], k);
        assert s[..|s| - 1][..k] == s[..k];
      } else {
        assert s[..k] == s;
      }
    }
  }

  /** Leading zeros and a plus sign are accepted, and nothing else besides the plain spelling. */
  lemma ParsesSpellings(n: nat, zeros: string)
    requires n <= U64_MAX && forall i :: 0 <= i < |zeros| ==> zeros[i] == '0'
    ensures ParseU64(zeros + Decimal(n)) == Some(n) && ParseU64("+" + (zeros + Decimal(n))) == Some(n)
    ensures ParseU64("") == None && ParseU64("+") == None && ParseU64("-" + Decimal(n)) == None
  {
    NumberOfDecimal(n);
    ZerosFirst(zeros, Decimal(n));
    var digits := zeros + Decimal(n);
    assert AllDigits(digits);
    assert digits[0] != '+';
    assert ("+" + digits)[1..] == digits;
    assert !IsDigit(("-" + Decimal(n))[0]);
  }

  lemma {:induction false} ZerosFirst(zeros: string, s: string)
    requires AllDigits(s) && forall i :: 0 <= i < |zeros| ==> zeros[i] == '0'
    ensures AllDigits(zeros + s) && Number(zeros + s) == Number(s)
    decreases |zeros| + |s|
  {
    if s != [] {
      assert (zeros + s)[..|zeros + s| - 1] == zeros + s[..|s| - 1];
      ZerosFirst(zeros, s[..|s| - 1]);
    } else if zeros != [] {
      assert zeros + s == zeros && zeros[..|zeros| - 1] + [] == zeros[..|zeros| - 1];
      ZerosFirst(zeros[..|zeros| - 1], []);
    }
  }

  /** Printing a number that was read without a leading zero gives the digits back. */
  lemma {:induction false} DecimalOfNumber(s: string)
    requires AllDigits(s) && |s| > 0 && s[0] != '0'
    ensures Decimal(Number(s)) == s && 0 < Number(s) < Pow10(|s|)
  {
    var front, last := s[..|s| - 1], s[|s| - 1];
    assert s == front + [last];
    if front == [] {
      assert Number(front) == 0;
    } else {
      DecimalOfNumber(front);
      assert Number(s) / 10 == Number(front) && Number(s) % 10 == (last - '0') as nat;
    }
  }

  lemma {:induction false} NoLeadingZero(n: nat)
    requires n > 0
    ensures Decimal(n)[0] != '0'
  {
    if n >= 10 {
      NoLeadingZero(n / 10);
    }
  }
}
