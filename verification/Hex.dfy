/** The hex codec, on the bytes of strings. */
module Hex {
  import opened Words
  import opened Wrappers

  /** `'0'`, `'A'` and `'a'` in ASCII. */
  const ZERO: u8 := 48
  const UPPER_A: u8 := 65
  const LOWER_A: u8 := 97

  predicate IsHexDigit(c: u8) {
    ZERO <= c < ZERO + 10 || UPPER_A <= c < UPPER_A + 6 || LOWER_A <= c < LOWER_A + 6
  }

  function DigitValue(c: u8): (d: nat)
    requires IsHexDigit(c)
    ensures d < 16
  {
    if c >= LOWER_A then c - LOWER_A + 10 else if c >= UPPER_A then c - UPPER_A + 10 else c - ZERO
  }

  /** The lower-case digit of a value, as the formatter writes it. */
  function DigitOf(d: nat): (c: u8)
    requires d < 16
    ensures IsHexDigit(c) && DigitValue(c) == d
  {
    if d < 10 then ZERO + d else LOWER_A + (d - 10)
  }

  function ToLower(c: u8): (r: u8) {
    if UPPER_A <= c < UPPER_A + 26 then c + 32 else c
  }

  ghost predicate IsLower(s: Bytes, r: Bytes) {
    |r| == |s| && forall i | 0 <= i < |s| :: r[i] == ToLower(s[i])
  }

  predicate AllHex(s: Bytes) {
    forall i | 0 <= i < |s| :: IsHexDigit(s[i])
  }

  /** The digits are these characters, and their values their places; capital letters count as small ones. */
  lemma {:induction false} DigitsAreText(d: nat, c: u8)
    ensures d < 16 ==> DigitOf(d) == "0123456789abcdef"[d] as int
    ensures IsHexDigit(c) <==> c as char in "0123456789abcdefABCDEF"
    ensures d < 16 && c == "0123456789ABCDEF"[d] as int ==>
              IsHexDigit(c) && DigitValue(c) == d && ToLower(c) == "0123456789abcdef"[d] as int
    ensures d < 16 && c == "0123456789abcdef"[d] as int ==> IsHexDigit(c) && DigitValue(c) == d && ToLower(c) == c
  {
  }

  /** `{:02x}` of a byte. */
  function Digits(v: u8): (r: Bytes)
    ensures |r| == 2 && IsHexDigit(r[0]) && IsHexDigit(r[1])
    ensures DigitValue(r[0]) == v / 16 && DigitValue(r[1]) == v % 16
  {
    [DigitOf(v / 16), DigitOf(v % 16)]
  }

  /** Two digits for each byte. */
  function Encode(value: Bytes): (r: Bytes)
    ensures |r| == 2 * |value|
  {
    if value == [] then [] else Encode(value[..|value| - 1]) + Digits(value[|value| - 1])
  }

  function Pair(high: u8, low: u8): (v: u8)
    requires IsHexDigit(high) && IsHexDigit(low)
    ensures v / 16 == DigitValue(high) && v % 16 == DigitValue(low)
  {
    16 * DigitValue(high) + DigitValue(low)
  }

  /** The bytes that pairs of digits stand for. */
  function Decode(s: Bytes): (r: Bytes)
    requires |s| % 2 == 0 && AllHex(s)
    ensures |r| == |s| / 2
  {
    if s == [] then [] else Decode(s[..|s| - 2]) + [Pair(s[|s| - 2], s[|s| - 1])]
  }

  lemma {:induction false} DecodeTwoMore(s: Bytes, k: nat)
    requires k + 2 <= |s| && k % 2 == 0 && AllHex(s[..k + 2])
    ensures AllHex(s[..k]) && Decode(s[..k + 2]) == Decode(s[..k]) + [Pair(s[k], s[k + 1])]
  {
    assert s[..k + 2][..k] == s[..k];
  }

  /** `hex_str`. */
  method HexStr(value: Bytes) returns (res: Bytes)
    ensures res == Encode(value)
  {
    res := [];
    for i := 0 to |value|
      invariant res == Encode(value[..i])
    {
      assert value[..i + 1][..i] == value[..i];
      res := res + Digits(value[i]);
    }
    assert value[..|value|] == value;
  }

  /** The byte shifted left by four bits, the high ones falling off. */
  function ShiftLeft4(b: u8): (r: u8)
    ensures r <= 240
  {
    16 * (b % 16)
  }

  /** One round of the accumulator. The low four bits are zero when the digit is or-ed in, so that is an
      addition. */
  method PushDigit(b: u8, c: u8) returns (r: Option<u8>)
    ensures r == if IsHexDigit(c) then Some(ShiftLeft4(b) + DigitValue(c)) else None
  {
    var shifted := ShiftLeft4(b);
    if UPPER_A <= c < UPPER_A + 6 {
      r := Some(shifted + (c - UPPER_A + 10));
    } else if LOWER_A <= c < LOWER_A + 6 {
      r := Some(shifted + (c - LOWER_A + 10));
    } else if ZERO <= c < ZERO + 10 {
      r := Some(shifted + (c - ZERO));
    } else {
      r := None;
    }
  }

  /** The loop's state after `idx` digits: whole pairs in `out`, a digit left over in `b`. */
  ghost predicate SoFar(hex: Bytes, idx: nat, b: u8, out: Bytes)
    requires idx <= |hex|
  {
    && AllHex(hex[..idx])
    && if idx % 2 == 0 then b == 0 && out == Decode(hex[..idx])
       else b == DigitValue(hex[idx - 1]) && AllHex(hex[..idx - 1]) && out == Decode(hex[..idx - 1])
  }

  lemma {:induction false} EvenDigit(hex: Bytes, idx: nat, b: u8, out: Bytes)
    requires idx < |hex| && idx % 2 == 0 && SoFar(hex, idx, b, out) && IsHexDigit(hex[idx])
    ensures SoFar(hex, idx + 1, ShiftLeft4(b) + DigitValue(hex[idx]), out)
  {
    assert hex[..idx + 1] == hex[..idx] + [hex[idx]];
  }

  lemma {:induction false} OddDigit(hex: Bytes, idx: nat, b: u8, out: Bytes)
    requires idx < |hex| && idx % 2 == 1 && SoFar(hex, idx, b, out) && IsHexDigit(hex[idx])
    ensures SoFar(hex, idx + 1, 0, out + [ShiftLeft4(b) + DigitValue(hex[idx])])
  {
    assert hex[..idx + 1] == hex[..idx] + [hex[idx]];
    DecodeTwoMore(hex, idx - 1);
  }

  /** `to_vec`: succeeds exactly on an even number of hex digits. */
  method ToVec(hex: Bytes) returns (r: Option<Bytes>)
    ensures r.Some? <==> |hex| % 2 == 0 && AllHex(hex)
    ensures r.Some? ==> r.value == Decode(hex)
  {
    if |hex| % 2 != 0 {
      return None;
    }
    var out: Bytes := [];
    var b: u8 := 0;
    for idx := 0 to |hex|
      invariant SoFar(hex, idx, b, out)
    {
      var c := hex[idx];
      var pushed := PushDigit(b, c);
      if pushed.None? {
        return None;
      }
      if idx % 2 == 1 {
        OddDigit(hex, idx, b, out);
        out := out + [pushed.value];
        b := 0;
      } else {
        EvenDigit(hex, idx, b, out);
        b := pushed.value;
      }
    }
    assert hex[..|hex|] == hex;
    return Some(out);
  }

  lemma {:induction false} PairOfDigits(v: u8)
    ensures Pair(Digits(v)[0], Digits(v)[1]) == v
  {
  }

  lemma {:induction false} DigitsOfPair(high: u8, low: u8)
    requires IsHexDigit(high) && IsHexDigit(low)
    ensures Digits(Pair(high, low)) == [ToLower(high), ToLower(low)]
  {
  }

  lemma {:induction false} EncodeIsHex(value: Bytes)
    ensures AllHex(Encode(value))
  {
    if value != [] {
      EncodeIsHex(value[..|value| - 1]);
    }
  }

  /** The text of a byte sequence: for each byte its high digit, then its low one. */
  lemma {:induction false} EncodeText(value: Bytes, i: nat)
    requires i < |value|
    ensures Encode(value)[2 * i] == "0123456789abcdef"[value[i] / 16] as int
    ensures Encode(value)[2 * i + 1] == "0123456789abcdef"[value[i] % 16] as int
  {
    DigitsAreText(value[i] / 16, 0);
    DigitsAreText(value[i] % 16, 0);
    if i < |value| - 1 {
      EncodeText(value[..|value| - 1], i);
    }
  }

  /** Decoding what was encoded gives it back. */
  lemma {:induction false} DecodeEncode(value: Bytes)
    ensures AllHex(Encode(value)) && Decode(Encode(value)) == value
  {
    EncodeIsHex(value);
    if value != [] {
      var (front, last) := (value[..|value| - 1], value[|value| - 1]);
      var s := Encode(front);
      DecodeEncode(front);
      PairOfDigits(last);
      assert (s + Digits(last))[..|s|] == s;
    }
  }

  /** Encoding what was decoded gives the input in lower case. */
  lemma {:induction false} EncodeDecode(s: Bytes)
    requires |s| % 2 == 0 && AllHex(s)
    ensures IsLower(s, Encode(Decode(s)))
  {
    if s != [] {
      var (front, high, low) := (s[..|s| - 2], s[|s| - 2], s[|s| - 1]);
      var v := Decode(front);
      EncodeDecode(front);
      DigitsOfPair(high, low);
      assert (v + [Pair(high, low)])[..|v|] == v;
      assert Encode(Decode(s)) == Encode(v) + [ToLower(high), ToLower(low)];
    }
  }
}
