/** Positional numerals: fixed-width words, and the decimal strings of math/big. */
module Numerals {
  import opened Base

  function Pow256(e: nat): nat {
    if e == 0 then 1 else 256 * Pow256(e - 1)
  }

  lemma WordRange()
    ensures Pow256(32) == U256
  {
    assert Pow256(8) == U64;
    assert Pow256(16) == U64 * U64;
    assert Pow256(24) == U64 * U64 * U64;
  }

  /** The `width` least significant bytes of n, most significant first. */
  function BigEndian(n: nat, width: nat): (bs: seq<byte>)
    ensures |bs| == width
  {
    if width == 0 then [] else BigEndian(n / 256, width - 1) + [n % 256]
  }

  /** big.Int.SetBytes. */
  function Value(bs: seq<byte>): nat {
    if bs == [] then 0 else Value(bs[..|bs| - 1]) * 256 + bs[|bs| - 1]
  }

  lemma {:induction false} ValueOfBigEndian(n: nat, width: nat)
    requires n < Pow256(width)
    ensures Value(BigEndian(n, width)) == n
  {
    if width == 0 {
    } else {
      ValueOfBigEndian(n / 256, width - 1);
      var bs := BigEndian(n, width);
      assert bs[..|bs| - 1] == BigEndian(n / 256, width - 1);
    }
  }

  lemma {:induction false} BigEndianOfValue(bs: seq<byte>)
    ensures Value(bs) < Pow256(|bs|)
    ensures BigEndian(Value(bs), |bs|) == bs
  {
    if bs == [] {
    } else {
      BigEndianOfValue(bs[..|bs| - 1]);
    }
  }

  /** The first byte is the most significant one. */
  lemma {:induction false} LeadingByte(b: byte, bs: seq<byte>)
    ensures Value([b] + bs) == b * Pow256(|bs|) + Value(bs)
  {
    if bs == [] {
      assert [b][..0] == [];
    } else {
      var init := bs[..|bs| - 1];
      LeadingByte(b, init);
      assert ([b] + bs)[..|bs|] == [b] + init;
      assert b * Pow256(|bs|) == b * Pow256(|init|) * 256;
    }
  }

  // ---- decimal strings ----

  predicate IsDigit(c: char) { '0' <= c <= '9' }

  function DigitChar(d: nat): char
    requires d < 10
  {
    (d as char) + '0'
  }

  /** big.Int.String (and %d) of a non-negative number: no sign, no leading zeros. */
  function Decimal(n: nat): (s: string)
    ensures s != [] && forall i :: 0 <= i < |s| ==> IsDigit(s[i])
  {
    if n < 10 then [DigitChar(n)] else Decimal(n / 10) + [DigitChar(n % 10)]
  }

  /** The value of a non-empty string of decimal digits; None for anything else. */
  function ParseDigits(s: string): Option<nat> {
    if s == [] || !IsDigit(s[|s| - 1]) then None
    else
      var d := (s[|s| - 1] - '0') as nat;
      if |s| == 1 then Some(d)
      else
        match ParseDigits(s[..|s| - 1])
        case None => None
        case Some(v) => Some(v * 10 + d)
  }

  lemma {:induction false} ParseDecimal(n: nat)
    ensures ParseDigits(Decimal(n)) == Some(n)
  {
    var s := Decimal(n);
    if n < 10 {
    } else {
      ParseDecimal(n / 10);
      assert s[..|s| - 1] == Decimal(n / 10);
    }
  }

  /** big.Int.SetString(s, 10): an optional sign and at least one digit, nothing else. */
  function SetString(s: string): Option<int> {
    if s != [] && s[0] == '-' then Signed(-1, ParseDigits(s[1..]))
    else if s != [] && s[0] == '+' then Signed(1, ParseDigits(s[1..]))
    else Signed(1, ParseDigits(s))
  }

  function Signed(sign: int, v: Option<nat>): Option<int> {
    if v.None? then None else Some(sign * v.value)
  }

  lemma {:induction false} SetStringOfDecimal(n: nat)
    ensures SetString(Decimal(n)) == Some(n)
  {
    ParseDecimal(n);
    assert IsDigit(Decimal(n)[0]);
  }

  function Pow10(e: nat): nat {
    if e == 0 then 1 else 10 * Pow10(e - 1)
  }

  predicate Digits(s: string) {
    s != "" && forall i :: 0 <= i < |s| ==> IsDigit(s[i])
  }

  /** Exactly the non-empty digit strings have a value. */
  lemma {:induction false} ParsesIffDigits(s: string)
    ensures ParseDigits(s).Some? <==> Digits(s)
  {
    if |s| <= 1 {
    } else {
      ParsesIffDigits(s[..|s| - 1]);
    }
  }

  lemma TimesTen(d: nat, e: nat)
    ensures d * Pow10(e + 1) == 10 * (d * Pow10(e))
  {}

  /** The first digit is the most significant one. */
  lemma {:induction false} LeadingDigit(c: char, s: string)
    requires IsDigit(c) && Digits(s)
    ensures ParseDigits(s).Some? && ParseDigits([c] + s).Some?
    ensures ParseDigits([c] + s).value == (c - '0') as nat * Pow10(|s|) + ParseDigits(s).value
  {
    ParsesIffDigits(s);
    var init, d := s[..|s| - 1], (c - '0') as nat;
    assert ([c] + s)[..|s|] == [c] + init;
    if |s| == 1 {
      assert [c][..0] == "" && Pow10(1) == 10;
      assert ParseDigits([c]) == Some(d);
    } else {
      LeadingDigit(c, init);
      ParsesIffDigits(init);
      TimesTen(d, |init|);
    }
  }

  /** A positive number is printed without leading zeros. */
  lemma {:induction false} NoLeadingZero(n: nat)
    ensures n > 0 ==> Decimal(n)[0] != '0'
  {
    if n < 10 {
    } else {
      NoLeadingZero(n / 10);
    }
  }

  /** Exactly the digit strings with at most one sign in front have a value, and only a minus sign negates it. */
  lemma SetStringExact(s: string)
    ensures var signed := s != "" && (s[0] == '-' || s[0] == '+');
            var digits := if signed then s[1..] else s;
            && (SetString(s).Some? <==> Digits(digits))
            && (Digits(digits) ==>
                  && ParseDigits(digits).Some? && SetString(s).Some?
                  && SetString(s).value == (if s[0] == '-' then -1 else 1) * ParseDigits(digits).value)
  {
    var signed := s != "" && (s[0] == '-' || s[0] == '+');
    ParsesIffDigits(if signed then s[1..] else s);
  }
}
