/**
 * The integer conversions the command relies on: Go's
 * strconv.ParseInt(s, 16, 32) for the Windows time-zone index, and the
 * int32(...) conversion applied to the auto-logon count.
 */
module Numbers {
  import opened Wrappers

  const Int32Min: int := -0x8000_0000
  const Int32Max: int := 0x7fff_ffff

  predicate InInt32(x: int)
  {
    Int32Min <= x <= Int32Max
  }

  /**
   * Go's int32(x) on a wider integer: keeps the low 32 bits and reads them
   * as a two's-complement number.
   */
  function Int32Wrap(x: int): (r: int)
    ensures InInt32(r)
    ensures (x - r) % 0x1_0000_0000 == 0
    ensures InInt32(x) ==> r == x
  {
    (x + 0x8000_0000) % 0x1_0000_0000 - 0x8000_0000
  }

  /** Value of a base-16 digit; both letter cases are accepted, as ParseInt does. */
  function HexDigitValue(c: char): Option<nat>
  {
    if '0' <= c <= '9' then Some(c as int - '0' as int)
    else if 'a' <= c <= 'f' then Some(c as int - 'a' as int + 10)
    else if 'A' <= c <= 'F' then Some(c as int - 'A' as int + 10)
    else None
  }

  predicate IsHexDigit(c: char)
  {
    HexDigitValue(c).Some?
  }

  predicate AllHex(s: string)
  {
    forall k :: 0 <= k < |s| ==> IsHexDigit(s[k])
  }

  /** Value of a digit string, most significant digit first. */
  function HexValue(s: string): nat
    requires AllHex(s)
  {
    if s == [] then 0
    else HexValue(s[..|s| - 1]) * 16 + HexDigitValue(s[|s| - 1]).value
  }

  /**
   * strconv.ParseInt(s, 16, 32) with its error collapsed to None: an optional
   * leading sign, then at least one base-16 digit and nothing else (no "0x"
   * prefix, no underscores, since the base is given explicitly), and the signed
   * value must fit in 32 bits.
   */
  function ParseHex32(s: string): (r: Option<int>)
    ensures r.Some? ==> InInt32(r.value)
  {
    if s == [] then None
    else
      var neg := s[0] == '-';
      var digits := if s[0] == '+' || s[0] == '-' then s[1..] else s;
      if digits == [] || !AllHex(digits) then None
      else
        var u: int := HexValue(digits);
        if !neg && u > Int32Max then None
        else if neg && u > -Int32Min then None
        else
          var v: int := if neg then -u else u;
          Some(v)
  }

  /** The lower-case base-16 digit for 0 <= d < 16. */
  function HexDigit(d: nat): char
    requires d < 16
  {
    if d < 10 then ('0' as int + d) as char else ('a' as int + d - 10) as char
  }

  /** Base-16 digits of a natural number, without leading zeros. */
  function HexDigits(n: nat): (r: string)
    ensures |r| >= 1 && AllHex(r)
  {
    if n < 16 then [HexDigit(n)] else HexDigits(n / 16) + [HexDigit(n % 16)]
  }

  /** strconv.FormatInt(x, 16): an optional minus sign, then the digits of |x|. */
  function FormatHex(x: int): string
  {
    if x < 0 then ['-'] + HexDigits(-x) else HexDigits(x)
  }

  lemma {:induction false} HexDigitsValue(n: nat)
    ensures HexValue(HexDigits(n)) == n
  {
    var r := HexDigits(n);
    if n < 16 {
      assert r[..|r| - 1] == [];
    } else {
      HexDigitsValue(n / 16);
      assert r[..|r| - 1] == HexDigits(n / 16);
    }
  }

  /**
   * Parsing a formatted number gives it back exactly when it fits in 32 bits;
   * every number outside that range is refused.
   */
  lemma ParseFormatHex(x: int)
    ensures ParseHex32(FormatHex(x)) == if InInt32(x) then Some(x) else None
  {
    var s := FormatHex(x);
    if x < 0 {
      var digits := HexDigits(-x);
      HexDigitsValue(-x);
      assert s[0] == '-' && s[1..] == digits;
      assert ParseHex32(s) == (if -x > -Int32Min then None else Some(x));
    } else {
      var digits := HexDigits(x);
      HexDigitsValue(x);
      assert IsHexDigit(s[0]);
      assert s[0] != '-' && s[0] != '+';
      assert ParseHex32(s) == (if x > Int32Max then None else Some(x));
    }
  }

  /** A string without any digit (empty, or a sign alone) makes the parse fail. */
  lemma NoDigitsRejected()
    ensures ParseHex32("") == None
    ensures ParseHex32("+") == None
    ensures ParseHex32("-") == None
  {
  }

  /** A character that is neither a digit nor a leading sign makes the parse fail. */
  lemma NonHexRejected(s: string, k: nat)
    requires k < |s| && !IsHexDigit(s[k])
    requires k == 0 ==> s[0] != '+' && s[0] != '-'
    ensures ParseHex32(s) == None
  {
  }

  // ---------------------------------------------------------------------------
  // Every spelling of a number: sign, leading zeros, either letter case
  // ---------------------------------------------------------------------------

  /** `z` zero digits. */
  function Zeros(z: nat): (r: string)
    ensures |r| == z
  {
    if z == 0 then [] else ['0'] + Zeros(z - 1)
  }

  /** The lower-case form of a character, for the letters A to F only. */
  function LowerHex(c: char): char
  {
    if 'A' <= c <= 'F' then (c as int - 'A' as int + 'a' as int) as char else c
  }

  /** `t` spells the digits `d` up to the case of its letters. */
  predicate CaseVariant(t: string, d: string)
  {
    |t| == |d| && forall k :: 0 <= k < |t| ==> LowerHex(t[k]) == d[k]
  }

  lemma {:induction false} ZerosSnoc(z: nat)
    ensures Zeros(z + 1) == Zeros(z) + ['0']
  {
    if z > 0 {
      ZerosSnoc(z - 1);
    }
  }

  lemma {:induction false} ZerosValue(z: nat)
    ensures AllHex(Zeros(z)) && HexValue(Zeros(z)) == 0
  {
    if z > 0 {
      ZerosValue(z - 1);
      assert Zeros(z) == Zeros(z - 1) + ['0'] by { ZerosSnoc(z - 1); }
      assert Zeros(z)[..z - 1] == Zeros(z - 1);
    }
  }

  /** Leading zeros do not change the value of a digit string. */
  lemma {:induction false} LeadingZerosValue(z: nat, t: string)
    requires AllHex(t)
    ensures AllHex(Zeros(z) + t) && HexValue(Zeros(z) + t) == HexValue(t)
  {
    ZerosValue(z);
    if t == [] {
      assert Zeros(z) + t == Zeros(z);
    } else {
      var s := Zeros(z) + t;
      assert s[..|s| - 1] == Zeros(z) + t[..|t| - 1];
      assert s[|s| - 1] == t[|t| - 1];
      LeadingZerosValue(z, t[..|t| - 1]);
    }
  }

  /** The case of the letters does not change the value of a digit string. */
  lemma {:induction false} CaseVariantValue(t: string, d: string)
    requires AllHex(d) && CaseVariant(t, d)
    ensures AllHex(t) && HexValue(t) == HexValue(d)
  {
    assert forall k :: 0 <= k < |t| ==> HexDigitValue(t[k]) == HexDigitValue(d[k]);
    if t != [] {
      CaseVariantValue(t[..|t| - 1], d[..|d| - 1]);
    }
  }

  /** An optional sign followed by base-16 digits parses to their signed value when it fits. */
  lemma ParseSignedDigits(sign: string, digits: string, n: nat)
    requires sign == "" || sign == "+" || sign == "-"
    requires digits != [] && AllHex(digits) && HexValue(digits) == n
    ensures var v := if sign == "-" then -(n as int) else n as int;
      ParseHex32(sign + digits) == if InInt32(v) then Some(v) else None
  {
    var s := sign + digits;
    if sign == "" {
      assert s == digits && IsHexDigit(s[0]);
      assert s[0] != '+' && s[0] != '-';
    } else if sign == "+" {
      assert s[0] == '+' && s[1..] == digits;
    } else {
      assert s[0] == '-' && s[1..] == digits;
    }
  }

  /**
   * The value of every accepted spelling of a number: an optional sign ("",
   * "+" or "-"), any number of leading zeros, and the base-16 digits of the
   * number with each letter in either case. The parse gives the signed number
   * when it fits in 32 bits and fails otherwise.
   */
  lemma ParseHex32Spellings(sign: string, z: nat, t: string, n: nat)
    requires sign == "" || sign == "+" || sign == "-"
    requires CaseVariant(t, HexDigits(n))
    ensures var v := if sign == "-" then -(n as int) else n as int;
      ParseHex32(sign + (Zeros(z) + t)) == if InInt32(v) then Some(v) else None
  {
    SpellingValue(z, t, n);
    ParseSignedDigits(sign, Zeros(z) + t, n);
  }

  /** Leading zeros and a case variant of the digits of `n` still denote `n`. */
  lemma SpellingValue(z: nat, t: string, n: nat)
    requires CaseVariant(t, HexDigits(n))
    ensures Zeros(z) + t != [] && AllHex(Zeros(z) + t) && HexValue(Zeros(z) + t) == n
  {
    HexDigitsValue(n);
    CaseVariantValue(t, HexDigits(n));
    LeadingZerosValue(z, t);
  }

  /** The first digit of a digit string that does not start with zero is not worth zero. */
  lemma {:induction false} NoLeadingZeroPositive(u: string)
    requires u != [] && AllHex(u) && u[0] != '0'
    ensures HexValue(u) > 0
  {
    if |u| > 1 {
      NoLeadingZeroPositive(u[..|u| - 1]);
    }
  }

  /** A digit string without a leading zero spells the digits of its own value. */
  lemma {:induction false} CanonicalDigits(u: string)
    requires u != [] && AllHex(u) && (|u| > 1 ==> u[0] != '0')
    ensures CaseVariant(u, HexDigits(HexValue(u)))
  {
    var last := u[|u| - 1];
    var d := HexDigitValue(last).value;
    if |u| > 1 {
      var init := u[..|u| - 1];
      var h := HexValue(init);
      CanonicalDigits(init);
      NoLeadingZeroPositive(init);
      assert HexValue(u) == h * 16 + d && d < 16;
      assert (h * 16 + d) / 16 == h && (h * 16 + d) % 16 == d;
      assert HexDigits(HexValue(u)) == HexDigits(h) + [HexDigit(d)];
      assert u == init + [last];
    }
  }

  /** A leading zero does not change the value of a digit string. */
  lemma DropLeadingZero(t: string)
    requires |t| > 1 && t[0] == '0' && AllHex(t)
    ensures AllHex(t[1..]) && HexValue(t) == HexValue(t[1..])
  {
    assert Zeros(1) == ['0'];
    assert Zeros(1) + t[1..] == t;
    LeadingZerosValue(1, t[1..]);
  }

  /**
   * Every non-empty digit string is leading zeros followed by a spelling of
   * its value, so ParseHex32Spellings covers every string made of an optional
   * sign and at least one base-16 digit; NonHexRejected and NoDigitsRejected
   * cover the rest.
   */
  lemma {:induction false} EverySpelling(t: string) returns (z: nat, u: string)
    requires t != [] && AllHex(t)
    ensures t == Zeros(z) + u && CaseVariant(u, HexDigits(HexValue(t)))
  {
    if |t| > 1 && t[0] == '0' {
      var z', u' := EverySpelling(t[1..]);
      DropLeadingZero(t);
      z, u := z' + 1, u';
      assert t == ['0'] + t[1..];
      assert Zeros(z) == ['0'] + Zeros(z');
    } else {
      z, u := 0, t;
      assert t == Zeros(0) + t;
      CanonicalDigits(t);
    }
  }
}
