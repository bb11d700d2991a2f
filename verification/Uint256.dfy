/** 256-bit numbers as decimal text and as 32 big-endian bytes: printing
    (src/model.rs) and parsing (src/enrichment.rs), both digit by digit on a
    byte array in place. */
module Uint256 {
  import opened Basics
  import opened BigEndian
  import opened Decimal
  import Hex

  const WIDTH := 32

  // One digit goes in: multiply the array by ten and add, from the low end.
  // The carry that falls out is what does not fit.
  method MultiplyAdd(bytes: array<byte>, digit: nat) returns (carry: u16)
    requires digit < 10
    modifies bytes
    ensures carry * Pow256(bytes.Length) + Number(bytes[..]) == Number(old(bytes[..])) * 10 + digit
  {
    carry := digit;
    var i := bytes.Length;
    ghost var before := bytes[..];
    assert bytes[i..] == [] && before[i..] == [];
    while i > 0
      invariant 0 <= i <= bytes.Length && carry < 10
      invariant bytes[..i] == before[..i]
      invariant carry * Pow256(bytes.Length - i) + Number(bytes[i..]) == Number(before[i..]) * 10 + digit
    {
      i := i - 1;
      ghost var tail := bytes[i + 1..];
      ghost var carry0 := carry;
      var next: u16 := bytes[i] * 10 + carry;
      bytes[i] := next % 256;
      carry := next / 256;
      CarryStep(before[i], carry0, next, before[i + 1..], tail, digit);
      assert before[i..] == [before[i]] + before[i + 1..];
      assert bytes[i..] == [next % 256] + tail;
    }
    assert before[0..] == before && bytes[0..] == bytes[..];
  }

  lemma CarryStep(b: byte, carry: nat, next: nat, before: Bytes, after: Bytes, digit: nat)
    requires |before| == |after| && carry < 10 && next == b * 10 + carry
    requires carry * Pow256(|after|) + Number(after) == Number(before) * 10 + digit
    ensures next / 256 * Pow256(|after| + 1) + Number([next % 256] + after) == Number([b] + before) * 10 + digit
    ensures next / 256 < 10
  {
    var p := Pow256(|after|);
    NumberSplit([next % 256], after);
    NumberSplit([b], before);
    SingleByte(next % 256);
    SingleByte(b);
    CarryArithmetic(next / 256, next % 256, p, Number(after), b, carry, Number(before), digit);
  }

  lemma CarryArithmetic(q: int, m: int, p: int, after: int, b: int, carry: int, before: int, digit: int)
    requires 256 * q + m == 10 * b + carry
    requires carry * p + after == before * 10 + digit
    ensures q * (256 * p) + (m * p + after) == (b * p + before) * 10 + digit
  {
    calc {
      q * (256 * p) + m * p;
      (256 * q + m) * p;
      (10 * b + carry) * p;
      10 * (b * p) + carry * p;
    }
  }

  // A carry out of the top means the number does not fit.
  lemma CarryOverflows(carry: nat, p: nat, low: nat, value: nat)
    requires carry * p + low == value && low < p
    ensures carry != 0 ==> value >= p
    ensures carry == 0 ==> value == low
  {
    if carry != 0 {
      assert carry * p >= 1 * p;
    }
  }

  // One digit comes out: divide the array by ten, from the high end.
  method DivideByTen(bytes: array<byte>) returns (remainder: u16)
    modifies bytes
    ensures remainder < 10
    ensures Number(old(bytes[..])) == Number(bytes[..]) * 10 + remainder
  {
    remainder := 0;
    var i := 0;
    ghost var before := bytes[..];
    assert bytes[..0] == [] && before[..0] == [];
    while i < bytes.Length
      invariant 0 <= i <= bytes.Length && remainder < 10
      invariant bytes[i..] == before[i..]
      invariant Number(before[..i]) == Number(bytes[..i]) * 10 + remainder
    {
      ghost var head := bytes[..i];
      var current: u16 := remainder * 256 + bytes[i];
      bytes[i] := current / 10;
      remainder := current % 10;
      assert before[..i + 1][..i] == before[..i];
      assert bytes[..i + 1][..i] == head;
      i := i + 1;
    }
    assert before[..i] == before && bytes[..i] == bytes[..];
  }

  datatype ParseError = BadToken | Overflow

  function ParseHex(value: string): Result<Bytes, ParseError> {
    var b := Hex.Decode(Hex.StripPrefix(value));
    if b.Some? && |b.value| == WIDTH then Ok(b.value) else Err(BadToken)
  }

  predicate HasHexPrefix(value: string) {
    "0x" <= value || "0X" <= value
  }

  // With a prefix, exactly 64 hexadecimal digits are accepted, as their bytes.
  lemma HexTextIff(value: string, b: Bytes)
    requires HasHexPrefix(value)
    ensures ParseHex(value) == Ok(b) <==> |value| == 66 && Hex.LowerDigits(value[2..]) == Hex.Encode(b)
  {
    Hex.DecodeIff(value[2..], b);
  }

  // Decimal text: accepted exactly when it is a non-empty digit string whose
  // value fits 256 bits; the bytes are that value.
  method ParseUint256(value: string) returns (r: Result<Bytes, ParseError>)
    ensures "0x" <= value || "0X" <= value ==> r == ParseHex(value)
    ensures "0x" <= value || "0X" <= value ==>
              forall b: Bytes :: r == Ok(b) <==> |value| == 66 && Hex.LowerDigits(value[2..]) == Hex.Encode(b)
    ensures !HasHexPrefix(value) ==>
              (r.Ok? <==> value != "" && IsDigits(value) && Value(value) < Pow256(WIDTH))
    ensures !HasHexPrefix(value) && r.Ok? ==> |r.value| == WIDTH && Number(r.value) == Value(value)
  {
    hide Pow256, Number;
    if HasHexPrefix(value) {
      forall b: Bytes ensures ParseHex(value) == Ok(b) <==> |value| == 66 && Hex.LowerDigits(value[2..]) == Hex.Encode(b) {
        HexTextIff(value, b);
      }
      return ParseHex(value);
    }
    if value == "" {
      return Err(BadToken);
    }
    var bytes := new byte[WIDTH](i => 0);
    NumberZero(bytes[..]);
    var i := 0;
    assert value[..0] == "";
    while i < |value|
      invariant 0 <= i <= |value| && IsDigits(value[..i])
      invariant bytes.Length == WIDTH && fresh(bytes)
      invariant Number(bytes[..]) == Value(value[..i])
    {
      var c := value[i];
      if !('0' <= c <= '9') {
        return Err(BadToken);
      }
      assert value[..i + 1][..i] == value[..i];
      var carry := MultiplyAdd(bytes, DigitValue(c));
      NumberBound(bytes[..]);
      CarryOverflows(carry, Pow256(WIDTH), Number(bytes[..]), Value(value[..i + 1]));
      if carry != 0 {
        ValueGrows(value, i + 1);
        return Err(Overflow);
      }
      i := i + 1;
    }
    assert value[..|value|] == value;
    NumberBound(bytes[..]);
    r := Ok(bytes[..]);
  }

  // A digit string is worth at least any prefix of it.
  lemma {:induction false} ValueGrows(s: string, n: nat)
    requires n <= |s| && IsDigits(s[..n])
    ensures IsDigits(s) ==> Value(s[..n]) <= Value(s)
  {
    if IsDigits(s) {
      if n == |s| {
        assert s[..n] == s;
      } else {
        ValueGrows(s[..|s| - 1], n);
        assert s[..|s| - 1][..n] == s[..n];
      }
    }
  }

  // The digits of a number, lowest first.
  function DigitsUp(n: nat): string {
    if n == 0 then "" else [DigitChar(n % 10)] + DigitsUp(n / 10)
  }

  function Reverse(s: string): string {
    if s == "" then "" else Reverse(s[1..]) + [s[0]]
  }

  lemma {:induction false} ReverseOfDigits(n: nat)
    ensures n > 0 ==> Reverse(DigitsUp(n)) == Format(n)
  {
    if n >= 10 {
      ReverseOfDigits(n / 10);
      assert DigitsUp(n)[1..] == DigitsUp(n / 10);
    } else if n > 0 {
      assert DigitsUp(n / 10) == "";
      assert DigitsUp(n)[1..] == "";
    }
  }

  method ToDecimal(value: Bytes) returns (text: string)
    requires |value| == WIDTH
    ensures text == Format(Number(value))
  {
    hide Number;
    NumberZero(value);
    if forall i :: 0 <= i < |value| ==> value[i] == 0 {
      return "0";
    }
    var working := new byte[WIDTH](i requires 0 <= i < |value| => value[i]);
    assert working[..] == value;
    var digits := "";
    while exists i :: 0 <= i < working.Length && working[i] != 0
      invariant working.Length == WIDTH && fresh(working)
      invariant DigitsUp(Number(value)) == digits + DigitsUp(Number(working[..]))
      decreases Number(working[..])
    {
      ghost var before := Number(working[..]);
      NumberZero(working[..]);
      var remainder := DivideByTen(working);
      assert before / 10 == Number(working[..]) && before % 10 == remainder;
      digits := digits + [DigitChar(remainder)];
    }
    NumberZero(working[..]);
    assert digits + "" == digits;
    ReverseOfDigits(Number(value));
    text := Reverse(digits);
  }

  // Printing and parsing undo each other: a printed number is accepted and
  // denotes the same bytes; a parsed digit string prints without its leading
  // zeros.
  method RoundTrip(x: Bytes) returns (back: Result<Bytes, ParseError>)
    requires |x| == WIDTH
    ensures back == Ok(x)
  {
    hide Pow256, Number;
    var text := ToDecimal(x);
    ValueOfFormat(Number(x));
    NumberBound(x);
    assert text[0] != '0' || |text| == 1;
    back := ParseUint256(text);
    NumberIsUnique(back.value, x);
  }

  method PrintParsed(text: string) returns (r: Option<string>)
    ensures !HasHexPrefix(text) ==>
              (r.Some? <==> text != "" && IsDigits(text) && Value(text) < Pow256(WIDTH))
    ensures !HasHexPrefix(text) && r.Some? ==> r.value == StripZeros(text)
  {
    hide Pow256, Number;
    var parsed := ParseUint256(text);
    if parsed.Err? || |parsed.value| != WIDTH {
      return None;
    }
    var printed := ToDecimal(parsed.value);
    if !HasHexPrefix(text) {
      FormatAfterValue(text);
    }
    r := Some(printed);
  }
}
