/**
 Conversions of scalar values in chain/solana-sdk/src/scalar.rs: a big integer to a u64 byte by
 byte, and byte strings to and from hexadecimal text.
 */
module Scalars {
  import opened Common

  // ---------- u64::try_from(&BigInt) ----------

  datatype BigIntOutOfRangeError = Negative | Overflow

  function Pow2(n: nat): (p: nat)
    ensures p > 0
  {
    if n == 0 then 1 else 2 * Pow2(n - 1)
  }


  /** Bitwise or. */
  function Or(a: nat, b: nat): nat {
    if a == 0 && b == 0 then 0
    else 2 * Or(a / 2, b / 2) + if a % 2 == 1 || b % 2 == 1 then 1 else 0
  }

  /** Left shift of a u64: bits beyond the 64th are lost. */
  function Shl(x: nat, k: nat): nat {
    x * Pow2(k) % TWO64
  }

  /** The bytes of a magnitude, least significant first, without superfluous zeros. */
  function BytesLE(m: nat): (bs: seq<nat>)
    ensures bs != [] && forall i :: 0 <= i < |bs| ==> bs[i] < 256
  {
    if m < 256 then [m] else [m % 256] + BytesLE(m / 256)
  }

  lemma {:induction false} OrZero(x: nat)
    ensures Or(x, 0) == x
  {
    if x > 0 {
      OrZero(x / 2);
    }
  }

  function Doubled(x: nat, k: nat): nat {
    if k == 0 then x else 2 * Doubled(x, k - 1)
  }

  lemma {:induction false} DoubledIsProduct(x: nat, k: nat)
    ensures Doubled(x, k) == x * Pow2(k)
  {
    if k > 0 {
      DoubledIsProduct(x, k - 1);
      assert x * Pow2(k) == 2 * (x * Pow2(k - 1));
    }
  }

  lemma {:induction false} OrDoubled(x: nat, k: nat, n: nat)
    requires n < Pow2(k)
    ensures Or(Doubled(x, k), n) == Doubled(x, k) + n
  {
    if k == 0 {
      OrZero(x);
    } else {
      OrDoubled(x, k - 1, n / 2);
      OrStep(Doubled(x, k - 1), n);
    }
  }

  /** On disjoint bits, or is addition. */
  lemma OrDisjoint(x: nat, k: nat, n: nat)
    requires n < Pow2(k)
    ensures x * Pow2(k) >= 0 && Or(x * Pow2(k), n) == x * Pow2(k) + n
  {
    DoubledIsProduct(x, k);
    OrDoubled(x, k, n);
  }

  lemma OrStep(a: nat, n: nat)
    ensures Or(2 * a, n) == 2 * Or(a, n / 2) + n % 2
  {
    assert 2 * a / 2 == a && 2 * a % 2 == 0;
  }

  /** The value of the first `i` bytes. */
  function Place(bs: seq<nat>, i: nat): nat
    requires i <= |bs|
  {
    if i == 0 then 0 else Place(bs, i - 1) + bs[i - 1] * Pow2(8 * (i - 1))
  }

  lemma Pow2Eight(i: nat)
    ensures Pow2(8 * (i + 1)) == 256 * Pow2(8 * i)
  {
    assert 8 * (i + 1) == 8 * i + 8;
    assert Pow2(8 * i + 2) == 4 * Pow2(8 * i);
    assert Pow2(8 * i + 4) == 16 * Pow2(8 * i);
    assert Pow2(8 * i + 6) == 64 * Pow2(8 * i);
  }

  lemma {:induction false} PlaceBelow(bs: seq<nat>, i: nat)
    requires i <= |bs| && forall j :: 0 <= j < |bs| ==> bs[j] < 256
    ensures Place(bs, i) < Pow2(8 * i)
  {
    if i > 0 {
      PlaceBelow(bs, i - 1);
      Pow2Eight(i - 1);
      TimesBelow(bs[i - 1], 256, Pow2(8 * (i - 1)));
    }
  }

  lemma {:induction false} TimesBelow(a: nat, b: nat, p: nat)
    requires a < b
    ensures a * p + p <= b * p
    decreases b - a
  {
    if a + 1 == b {
      assert b * p == a * p + p;
    } else {
      TimesBelow(a, b - 1, p);
      assert b * p == (b - 1) * p + p;
    }
  }

  lemma TimesSwap(a: nat, p: nat)
    ensures a * (256 * p) == 256 * (a * p)
  {
  }

  /** Prepending a byte moves every other byte up one place. */
  lemma {:induction false} PlaceCons(b: nat, bs: seq<nat>, i: nat)
    requires i <= |bs|
    ensures Place([b] + bs, i + 1) == b + 256 * Place(bs, i)
  {
    if i > 0 {
      PlaceCons(b, bs, i - 1);
      Pow2Eight(i - 1);
      var p := Pow2(8 * (i - 1));
      assert ([b] + bs)[i] == bs[i - 1];
      TimesSwap(bs[i - 1], p);
    } else {
      assert Place([b] + bs, 1) == Place([b] + bs, 0) + b * Pow2(0);
    }
  }

  lemma {:induction false} BytesLEValue(m: nat)
    ensures Place(BytesLE(m), |BytesLE(m)|) == m
  {
    if m < 256 {
      assert Place([m], 1) == Place([m], 0) + m * Pow2(0);
    } else {
      BytesLEValue(m / 256);
      PlaceCons(m % 256, BytesLE(m / 256), |BytesLE(m / 256)|);
    }
  }

  lemma {:induction false} BytesLELength(m: nat, k: nat)
    requires k >= 1
    ensures |BytesLE(m)| <= k <==> m < Pow2(8 * k)
  {
    Pow2Eight(k - 1);
    if m < 256 {
    } else if k == 1 {
      assert Pow2(0) == 1;
    } else {
      BytesLELength(m / 256, k - 1);
      QuotientBelow(m, Pow2(8 * (k - 1)));
    }
  }

  lemma QuotientBelow(m: nat, p: nat)
    ensures m / 256 < p <==> m < 256 * p
  {
  }

  lemma SixtyFourBits()
    ensures Pow2(64) == TWO64
  {
    assert Pow2(8) == 256;
    Pow2Eight(1);
    Pow2Eight(2);
    Pow2Eight(3);
    Pow2Eight(4);
    Pow2Eight(5);
    Pow2Eight(6);
    Pow2Eight(7);
  }

  /** The exact value of every integer in the range of a u64, and the proper error for all others. */
  method TryFromBigInt(value: int) returns (r: Result<nat, BigIntOutOfRangeError>)
    ensures r == if value < 0 then Err(Negative) else if value >= TWO64 then Err(Overflow) else Ok(value)
  {
    var negative, bytes := value < 0, BytesLE(if value < 0 then -value else value);
    if negative {
      return Err(Negative);
    }
    SixtyFourBits();
    BytesLELength(value, 8);
    if |bytes| > 8 {
      return Err(Overflow);
    }
    var n, shiftDist := 0, 0;
    for i := 0 to |bytes|
      invariant shiftDist == 8 * i && n == Place(bytes, i)
    {
      PlaceBelow(bytes, i);
      PlaceBelow(bytes, i + 1);
      ShiftFits(bytes, i);
      OrDisjoint(bytes[i], shiftDist, n);
      n := Or(Shl(bytes[i], shiftDist), n);
      shiftDist := shiftDist + 8;
    }
    BytesLEValue(value);
    return Ok(n);
  }

  /** No bit is lost by the shifts of at most eight bytes. */
  lemma ShiftFits(bs: seq<nat>, i: nat)
    requires i < |bs| <= 8 && forall j :: 0 <= j < |bs| ==> bs[j] < 256
    ensures Shl(bs[i], 8 * i) == bs[i] * Pow2(8 * i)
  {
    var p := Pow2(8 * i);
    TimesBelow(bs[i], 256, p);
    Pow2Eight(i);
    Pow2Grows(8 * (i + 1), 64);
    SixtyFourBits();
    assert bs[i] * p < Pow2(64);
  }

  lemma {:induction false} Pow2Grows(a: nat, b: nat)
    requires a <= b
    ensures Pow2(a) <= Pow2(b)
  {
    if a < b {
      Pow2Grows(a, b - 1);
    }
  }

  // ---------- Bytes as hexadecimal text ----------

  datatype FromHexError = OddLength | InvalidHexCharacter(c: char, index: nat)

  function HexDigit(n: nat): (c: char)
    requires n < 16
    ensures IsHex(c) && HexValue(c) == n
  {
    if n < 10 then '0' + n as char else 'a' + (n - 10) as char
  }

  predicate IsHex(c: char) {
    '0' <= c <= '9' || 'a' <= c <= 'f' || 'A' <= c <= 'F'
  }

  function HexValue(c: char): (n: nat)
    requires IsHex(c)
    ensures n < 16
  {
    if '0' <= c <= '9' then (c - '0') as nat
    else if 'a' <= c <= 'f' then (c - 'a') as nat + 10
    else (c - 'A') as nat + 10
  }

  function HexEncode(bytes: seq<Byte>): string {
    if bytes == [] then "" else [HexDigit(bytes[0] / 16), HexDigit(bytes[0] % 16)] + HexEncode(bytes[1..])
  }

  function Display(bytes: seq<Byte>): string {
    "0x" + HexEncode(bytes)
  }

  /** Removes every leading "0x", however often it is repeated. */
  function TrimPrefixes(s: string): string {
    if |s| >= 2 && s[..2] == "0x" then TrimPrefixes(s[2..]) else s
  }

  function DecodeFrom(s: string, at: nat): Result<seq<Byte>, FromHexError>
    requires at <= |s| && (|s| - at) % 2 == 0
    decreases |s| - at
  {
    if at == |s| then Ok([])
    else if !IsHex(s[at]) then Err(InvalidHexCharacter(s[at], at))
    else if !IsHex(s[at + 1]) then Err(InvalidHexCharacter(s[at + 1], at + 1))
    else
      var rest := DecodeFrom(s, at + 2);
      if rest.Err? then rest else Ok([16 * HexValue(s[at]) + HexValue(s[at + 1])] + rest.value)
  }

  function HexDecode(s: string): Result<seq<Byte>, FromHexError> {
    if |s| % 2 != 0 then Err(OddLength) else DecodeFrom(s, 0)
  }

  function Parse(s: string): Result<seq<Byte>, FromHexError> {
    HexDecode(TrimPrefixes(s))
  }

  lemma {:induction false} HexEncodeLength(bytes: seq<Byte>)
    ensures |HexEncode(bytes)| == 2 * |bytes|
    ensures forall i :: 0 <= i < |HexEncode(bytes)| ==> IsHex(HexEncode(bytes)[i])
  {
    if bytes != [] {
      HexEncodeLength(bytes[1..]);
    }
  }

  lemma {:induction false} DecodeEncoded(prefix: string, bytes: seq<Byte>)
    requires |prefix| % 2 == 0
    ensures |HexEncode(bytes)| % 2 == 0
    ensures DecodeFrom(prefix + HexEncode(bytes), |prefix|) == Ok(bytes)
    decreases bytes
  {
    HexEncodeLength(bytes);
    if bytes == [] {
      assert prefix + HexEncode(bytes) == prefix;
    } else {
      var b := bytes[0];
      var two := [HexDigit(b / 16), HexDigit(b % 16)];
      DecodeEncoded(prefix + two, bytes[1..]);
      assert prefix + HexEncode(bytes) == (prefix + two) + HexEncode(bytes[1..]);
      assert bytes == [b] + bytes[1..];
    }
  }

  /** Parsing what was displayed gives the same bytes: the digits never look like another prefix. */
  lemma ParseDisplay(bytes: seq<Byte>)
    ensures Parse(Display(bytes)) == Ok(bytes)
  {
    var hex := HexEncode(bytes);
    HexEncodeLength(bytes);
    assert Display(bytes)[..2] == "0x" && Display(bytes)[2..] == hex;
    assert TrimPrefixes(hex) == hex by {
      if |hex| >= 2 {
        assert hex[..2][1] == hex[1] != 'x';
      }
    }
    DecodeEncoded("", bytes);
    assert "" + hex == hex;
  }

  /** Parsing succeeds exactly on an even number of hexadecimal digits after the prefixes. */
  lemma ParseSucceeds(s: string)
    ensures Parse(s).Ok? <==> |TrimPrefixes(s)| % 2 == 0 && forall i :: 0 <= i < |TrimPrefixes(s)| ==>
              IsHex(TrimPrefixes(s)[i])
  {
    if |TrimPrefixes(s)| % 2 == 0 {
      DecodeSucceeds(TrimPrefixes(s), 0);
    }
  }

  lemma {:induction false} DecodeSucceeds(s: string, at: nat)
    requires at <= |s| && (|s| - at) % 2 == 0
    ensures DecodeFrom(s, at).Ok? <==> forall i :: at <= i < |s| ==> IsHex(s[i])
    decreases |s| - at
  {
    if at < |s| {
      DecodeSucceeds(s, at + 2);
    }
  }
}
