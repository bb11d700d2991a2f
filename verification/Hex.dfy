/** Hexadecimal strings as the `hex` crate writes and reads them. */
module Hex {
  import opened Basics

  function HexChar(d: nat): (c: char)
    requires d < 16
    ensures HexValue(c) == Some(d) && c != 'x' && c != 'X'
  {
    if d < 10 then '0' + d as char else 'a' + (d - 10) as char
  }

  function HexValue(c: char): Option<nat> {
    if '0' <= c <= '9' then Some((c - '0') as nat)
    else if 'a' <= c <= 'f' then Some((c - 'a') as nat + 10)
    else if 'A' <= c <= 'F' then Some((c - 'A') as nat + 10)
    else None
  }

  function Encode(b: Bytes): (s: string)
    ensures |s| == 2 * |b|
  {
    if b == [] then [] else [HexChar(b[0] / 16), HexChar(b[0] % 16)] + Encode(b[1..])
  }

  // Fails on an odd length or a character that is not a hex digit.
  function Decode(s: string): Option<Bytes> {
    if s == [] then Some([])
    else if |s| == 1 then None
    else
      var hi, lo := HexValue(s[0]), HexValue(s[1]);
      if hi.None? || lo.None? || hi.value >= 16 || lo.value >= 16 then None
      else
        var rest := Decode(s[2..]);
        if rest.None? then None else Some([hi.value * 16 + lo.value] + rest.value)
  }

  function Prefixed(b: Bytes): string {
    "0x" + Encode(b)
  }

  // Rust's `trim_start_matches("0x")`: every leading occurrence goes.
  function TrimPrefixes(s: string): string {
    if "0x" <= s then TrimPrefixes(s[2..]) else s
  }

  // `strip_prefix("0x")` or `strip_prefix("0X")`, once.
  function StripPrefix(s: string): string {
    if "0x" <= s || "0X" <= s then s[2..] else s
  }

  lemma {:induction false} DecodeOfEncode(b: Bytes)
    ensures Decode(Encode(b)) == Some(b)
    ensures !("0x" <= Encode(b)) && !("0X" <= Encode(b))
  {
    if b != [] {
      DecodeOfEncode(b[1..]);
      var s := Encode(b);
      assert s[2..] == Encode(b[1..]);
      assert b == [b[0]] + b[1..];
    }
  }

  // Upper-case digits count as lower-case ones.
  function LowerDigits(s: string): (r: string)
    ensures |r| == |s|
  {
    seq(|s|, i requires 0 <= i < |s| => if 'A' <= s[i] <= 'F' then s[i] - 'A' + 'a' else s[i])
  }

  lemma DigitIff(c: char, d: nat)
    requires d < 16
    ensures HexValue(c) == Some(d) <==> (if 'A' <= c <= 'F' then c - 'A' + 'a' else c) == "0123456789abcdef"[d]
    ensures HexChar(d) == "0123456789abcdef"[d]
  {
    assert "0123456789abcdef" == ['0', '1', '2', '3', '4', '5', '6', '7', '8', '9', 'a', 'b', 'c', 'd', 'e', 'f'];
  }

  lemma ByteIff(hi: char, lo: char, x: byte)
    ensures (HexValue(hi) == Some(x / 16) && HexValue(lo) == Some(x % 16))
       <==> LowerDigits([hi, lo]) == [HexChar(x / 16), HexChar(x % 16)]
  {
    DigitIff(hi, x / 16);
    DigitIff(lo, x % 16);
    assert LowerDigits([hi, lo]) == [LowerDigits([hi, lo])[0], LowerDigits([hi, lo])[1]];
  }

  lemma DecodeOne(s: string, b: Bytes)
    requires |s| >= 2 && b != []
    ensures Decode(s) == Some(b) <==> HexValue(s[0]) == Some(b[0] / 16) && HexValue(s[1]) == Some(b[0] % 16) && Decode(s[2..]) == Some(b[1..])
  {
    assert b == [b[0]] + b[1..];
    if Decode(s) == Some(b) {
      var hi, lo := HexValue(s[0]).value, HexValue(s[1]).value;
      assert b[0] == hi * 16 + lo;
    }
  }

  lemma LowerOne(s: string, b: Bytes)
    requires |s| >= 2 && b != []
    ensures LowerDigits(s) == Encode(b) <==>
      LowerDigits([s[0], s[1]]) == [HexChar(b[0] / 16), HexChar(b[0] % 16)] && LowerDigits(s[2..]) == Encode(b[1..])
  {
    var low, head := LowerDigits(s), [HexChar(b[0] / 16), HexChar(b[0] % 16)];
    assert low == LowerDigits([s[0], s[1]]) + LowerDigits(s[2..]);
    assert Encode(b) == head + Encode(b[1..]);
    assert low[..2] == LowerDigits([s[0], s[1]]) && low[2..] == LowerDigits(s[2..]);
    assert Encode(b)[..2] == head && Encode(b)[2..] == Encode(b[1..]);
  }

  // A text reads as `b` exactly when it is what `b` is written as, in either case.
  lemma {:induction false} DecodeIff(s: string, b: Bytes)
    ensures Decode(s) == Some(b) <==> LowerDigits(s) == Encode(b)
    decreases |s|
  {
    if |s| >= 2 && b != [] {
      hide Decode, Encode, LowerDigits, HexValue, HexChar;
      DecodeIff(s[2..], b[1..]);
      DecodeOne(s, b);
      LowerOne(s, b);
      ByteIff(s[0], s[1], b[0]);
    }
  }

  // A prefixed string reads back either way.
  lemma PrefixedReadsBack(b: Bytes)
    ensures Decode(TrimPrefixes(Prefixed(b))) == Some(b)
    ensures Decode(StripPrefix(Prefixed(b))) == Some(b)
  {
    DecodeOfEncode(b);
    var s := Prefixed(b);
    assert s[2..] == Encode(b);
    assert "0x" <= s;
    assert TrimPrefixes(s) == TrimPrefixes(Encode(b)) == Encode(b);
  }

  // A number in lower-case hexadecimal, as `{:x}` writes it.
  function Format(n: nat): (s: string)
    ensures |s| > 0
  {
    if n < 16 then [HexChar(n)] else Format(n / 16) + [HexChar(n % 16)]
  }

  function ParseDigits(s: string): Option<nat> {
    if s == [] then Some(0)
    else
      var high, low := ParseDigits(s[..|s| - 1]), HexValue(s[|s| - 1]);
      if high.None? || low.None? then None else Some(16 * high.value + low.value)
  }

  // `u64::from_str_radix(_, 16)` after one prefix: a plus sign is allowed, an
  // empty number or one of more than 64 bits is not.
  function ParseU64(s: string): Option<nat> {
    var raw := StripPrefix(s);
    var digits := if raw != [] && raw[0] == '+' then raw[1..] else raw;
    var n := ParseDigits(digits);
    if digits == [] || n.None? || n.value >= POW_64 then None else n
  }

  lemma {:induction false} ParsesFormat(n: nat)
    ensures ParseDigits(Format(n)) == Some(n)
    ensures HexValue(Format(n)[0]).Some?
  {
    var s := Format(n);
    if n < 16 {
      assert s[..0] == [];
    } else {
      ParsesFormat(n / 16);
      assert s[..|s| - 1] == Format(n / 16);
    }
  }

  lemma FormatReadsBack(n: nat)
    requires n < POW_64
    ensures ParseU64("0x" + Format(n)) == Some(n)
  {
    ParsesFormat(n);
    var s := "0x" + Format(n);
    assert s[2..] == Format(n);
    assert "0x" <= s;
  }
}
