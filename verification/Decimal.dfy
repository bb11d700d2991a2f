/** Decimal notation of natural numbers, as Rust's integer formatting and
    parsing use it. */
module Decimal {
  function DigitChar(d: nat): (c: char)
    requires d < 10
    ensures '0' <= c <= '9' && DigitValue(c) == d
  {
    '0' + d as char
  }

  function DigitValue(c: char): nat
    requires '0' <= c <= '9'
  {
    (c - '0') as nat
  }

  predicate IsDigits(s: string) {
    forall i :: 0 <= i < |s| ==> '0' <= s[i] <= '9'
  }

  function Format(n: nat): string {
    if n < 10 then [DigitChar(n)] else Format(n / 10) + [DigitChar(n % 10)]
  }

  function Value(s: string): nat
    requires IsDigits(s)
  {
    if s == [] then 0 else Value(s[..|s| - 1]) * 10 + DigitValue(s[|s| - 1])
  }

  function StripZeros(s: string): string {
    if |s| > 1 && s[0] == '0' then StripZeros(s[1..]) else s
  }

  lemma {:induction false} ValueOfFormat(n: nat)
    ensures Format(n) != [] && IsDigits(Format(n)) && Value(Format(n)) == n
    ensures |Format(n)| > 1 ==> Format(n)[0] != '0'
  {
    if n >= 10 {
      ValueOfFormat(n / 10);
      var s := Format(n / 10);
      assert (s + [DigitChar(n % 10)])[..|s|] == s;
      assert |s| == 1 ==> Value(s) == Value([]) * 10 + DigitValue(s[0]);
    } else {
      assert Format(n)[..0] == [];
    }
  }

  // Canonical strings (no leading zero) are exactly the formatted ones.
  lemma {:induction false} FormatOfValue(s: string)
    requires s != [] && IsDigits(s) && (|s| > 1 ==> s[0] != '0')
    ensures Format(Value(s)) == s
    ensures |s| > 1 ==> Value(s) >= 10
  {
    var n := |s| - 1;
    if n == 0 {
      assert s[..0] == [];
    } else {
      FormatOfValue(s[..n]);
      if n == 1 {
        assert s[..1][..0] == [];
        assert Value(s[..1]) == DigitValue(s[0]);
      }
      assert Value(s) / 10 == Value(s[..n]) && Value(s) % 10 == DigitValue(s[n]);
      assert s == s[..n] + [s[n]];
    }
  }

  lemma {:induction false} LeadingZeroDrops(s: string)
    requires IsDigits(s) && s != [] && s[0] == '0'
    ensures Value(s) == Value(s[1..])
  {
    var n := |s| - 1;
    if n == 0 {
      assert s[..0] == [] && s[1..] == [];
    } else {
      LeadingZeroDrops(s[..n]);
      assert s[..n][1..] == s[1..][..n - 1];
    }
  }

  lemma {:induction false} StripZerosKeepsValue(s: string)
    requires s != [] && IsDigits(s)
    ensures StripZeros(s) != [] && IsDigits(StripZeros(s)) && Value(StripZeros(s)) == Value(s)
    ensures |StripZeros(s)| > 1 ==> StripZeros(s)[0] != '0'
  {
    if |s| > 1 && s[0] == '0' {
      LeadingZeroDrops(s);
      StripZerosKeepsValue(s[1..]);
    }
  }

  // Reading a number and printing it gives the digits without leading zeros.
  lemma FormatAfterValue(s: string)
    requires s != [] && IsDigits(s)
    ensures Format(Value(s)) == StripZeros(s)
  {
    StripZerosKeepsValue(s);
    FormatOfValue(StripZeros(s));
  }
}
