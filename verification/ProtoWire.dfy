/** The Protocol Buffers wire format: base 128 varints and tagged fields
    (Protocol Buffers encoding guide, sections "Base 128 Varints" and "Message
    Structure"). */
module ProtoWire {
  import opened Basics

  function Varint(n: nat): Bytes {
    if n < 128 then [n] else [128 + n % 128] + Varint(n / 128)
  }

  // Reads groups of seven bits up to the first byte below 128; the value and
  // the number of bytes read.
  function Read(s: Bytes): (r: Option<(nat, nat)>)
    ensures r.Some? ==> 1 <= r.value.1 <= |s|
  {
    if s == [] then None
    else if s[0] < 128 then Some((s[0], 1))
    else
      var rest := Read(s[1..]);
      if rest.None? then None else Some((s[0] - 128 + 128 * rest.value.0, rest.value.1 + 1))
  }

  lemma {:induction false} ReadOfVarint(n: nat, rest: Bytes)
    ensures Read(Varint(n) + rest) == Some((n, |Varint(n)|))
  {
    var s := Varint(n) + rest;
    if n >= 128 {
      assert s[1..] == Varint(n / 128) + rest;
      ReadOfVarint(n / 128, rest);
    }
  }

  function Pow128(k: nat): nat {
    if k == 0 then 1 else 128 * Pow128(k - 1)
  }

  lemma {:induction false} VarintLength(n: nat, k: nat)
    requires k > 0 && n < Pow128(k)
    ensures 1 <= |Varint(n)| <= k
  {
    if n >= 128 {
      VarintLength(n / 128, k - 1);
    }
  }

  lemma U64Fits(n: nat)
    requires n < POW_64
    ensures |Varint(n)| <= 10
  {
    assert Pow128(4) == 0x1000_0000;
    assert Pow128(8) == 0x100_0000_0000_0000;
    assert Pow128(10) == 0x40_0000_0000_0000_0000;
    VarintLength(n, 10);
  }

  datatype Field =
    | VarintField(no: nat, value: nat)
    | Fixed64(no: nat, bytes: Bytes)
    | LenField(no: nat, bytes: Bytes)
    | Fixed32(no: nat, bytes: Bytes)
  {
    function WireType(): nat {
      match this
      case VarintField(_, _) => 0
      case Fixed64(_, _) => 1
      case LenField(_, _) => 2
      case Fixed32(_, _) => 5
    }

    function Body(): Bytes {
      match this
      case VarintField(_, v) => Varint(v)
      case LenField(_, b) => Varint(|b|) + b
      case Fixed64(_, b) => b
      case Fixed32(_, b) => b
    }
  }

  // Fits the 64-bit integers of the wire format.
  predicate FieldOk(f: Field) {
    && f.no * 8 + 7 < POW_64
    && match f
       case VarintField(_, v) => v < POW_64
       case LenField(_, b) => |b| < POW_64
       case Fixed64(_, b) => |b| == 8
       case Fixed32(_, b) => |b| == 4
  }

  function EncodeField(f: Field): Bytes {
    Varint(f.no * 8 + f.WireType()) + f.Body()
  }

  function EncodeFields(fs: seq<Field>): Bytes {
    if fs == [] then [] else EncodeField(fs[0]) + EncodeFields(fs[1..])
  }

  lemma KeySplits(f: Field)
    ensures var k := f.no * 8 + f.WireType(); k / 8 == f.no && k % 8 == f.WireType()
  {
  }

  lemma FieldIsNotEmpty(f: Field)
    ensures EncodeField(f) != []
  {
  }

  lemma {:induction false} EncodeConcat(a: seq<Field>, b: seq<Field>)
    ensures EncodeFields(a + b) == EncodeFields(a) + EncodeFields(b)
  {
    hide EncodeField;
    if a == [] {
      assert a + b == b;
    } else {
      EncodeConcat(a[1..], b);
      assert (a + b)[1..] == a[1..] + b;
      ConcatAssociates(EncodeField(a[0]), EncodeFields(a[1..]), EncodeFields(b));
    }
  }

  lemma ConcatAssociates(a: Bytes, b: Bytes, c: Bytes)
    ensures (a + b) + c == a + (b + c)
  {
  }

  // The number spelled by a run of varint bytes, continued or not.
  function Low(t: Bytes): nat {
    if t == [] then 0 else Low(t[..|t| - 1]) + (t[|t| - 1] % 128) * Pow128(|t| - 1)
  }

  lemma GroupArithmetic(p: nat, group: nat, v: nat)
    ensures p * (group + 128 * v) == group * p + (128 * p) * v
  {
  }

  lemma ReadContinued(s: Bytes, n: nat)
    requires n < |s| && s[n] >= 128
    ensures Read(s[n..]) == var r := Read(s[n + 1..]);
      if r.None? then None else Some((s[n] - 128 + 128 * r.value.0, r.value.1 + 1))
  {
    assert s[n..][1..] == s[n + 1..];
  }

  lemma LowSnoc(s: Bytes, n: nat)
    requires n < |s|
    ensures Low(s[..n + 1]) == Low(s[..n]) + (s[n] % 128) * Pow128(n)
  {
    assert s[..n + 1][..n] == s[..n];
  }

  lemma {:induction false} ReadAfter(s: Bytes, k: nat)
    requires k <= |s| && forall j :: 0 <= j < k ==> s[j] >= 128
    ensures Read(s) == var r := Read(s[k..]);
      if r.None? then None else Some((Low(s[..k]) + Pow128(k) * r.value.0, r.value.1 + k))
  {
    hide Read, Low;
    if k == 0 {
      assert s[0..] == s && s[..0] == [];
      EmptyLow();
    } else {
      var n := k - 1;
      ReadAfter(s, n);
      ReadContinued(s, n);
      LowSnoc(s, n);
      var r := Read(s[k..]);
      if r.Some? {
        GroupArithmetic(Pow128(n), s[n] - 128, r.value.0);
      }
    }
  }

  lemma EmptyLow()
    ensures Low([]) == 0
  {
  }

  // How reading ends: at a byte below 128, at the end of the buffer, or not
  // within eleven bytes.
  lemma ReadEnds(s: Bytes, k: nat)
    requires k <= |s| && forall j :: 0 <= j < k ==> s[j] >= 128
    ensures k == |s| ==> Read(s) == None
    ensures k < |s| && s[k] < 128 ==> Read(s) == Some((Low(s[..k + 1]), k + 1))
    ensures k == 11 ==> Read(s).None? || Read(s).value.1 > 11
  {
    hide Read, Low, Pow128;
    ReadAfter(s, k);
    ReadHere(s[k..]);
    if k < |s| {
      LowSnoc(s, k);
    }
  }

  lemma ReadHere(t: Bytes)
    ensures t == [] ==> Read(t) == None
    ensures t != [] && t[0] < 128 ==> Read(t) == Some((t[0], 1))
  {
  }
}
