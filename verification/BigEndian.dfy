/** Numbers as byte strings, most significant byte first. */
module BigEndian {
  import opened Basics

  function Pow256(n: nat): nat {
    if n == 0 then 1 else 256 * Pow256(n - 1)
  }

  // The number a byte string denotes, most significant byte first.
  function Number(b: Bytes): nat {
    if b == [] then 0 else Number(b[..|b| - 1]) * 256 + b[|b| - 1]
  }

  lemma {:induction false} NumberBound(b: Bytes)
    ensures Number(b) < Pow256(|b|)
  {
    if b != [] {
      NumberBound(b[..|b| - 1]);
    }
  }

  lemma {:induction false} NumberSplit(a: Bytes, b: Bytes)
    ensures Number(a + b) == Number(a) * Pow256(|b|) + Number(b)
    decreases |b|
  {
    if b == [] {
      assert a + b == a;
    } else {
      var n := |b| - 1;
      NumberSplit(a, b[..n]);
      assert (a + b)[..|a + b| - 1] == a + b[..n];
      calc {
        Number(a + b);
        (Number(a) * Pow256(n) + Number(b[..n])) * 256 + b[n];
        Number(a) * (256 * Pow256(n)) + (Number(b[..n]) * 256 + b[n]);
      }
    }
  }

  lemma {:induction false} NumberIsUnique(a: Bytes, b: Bytes)
    requires |a| == |b| && Number(a) == Number(b)
    ensures a == b
  {
    if a != [] {
      var n := |a| - 1;
      assert Number(a) % 256 == a[n] && Number(b) % 256 == b[n];
      NumberIsUnique(a[..n], b[..n]);
      assert a == a[..n] + [a[n]] && b == b[..n] + [b[n]];
    }
  }

  lemma {:induction false} NumberZero(b: Bytes)
    ensures Number(b) == 0 <==> forall i :: 0 <= i < |b| ==> b[i] == 0
  {
    if b != [] {
      NumberZero(b[..|b| - 1]);
    }
  }

  lemma SingleByte(b: byte)
    ensures Number([b]) == b
  {
    assert [b][..0] == [];
  }

  // Rust's `to_be_bytes` at a width of `w` bytes.
  function ToBytes(n: nat, w: nat): (b: Bytes)
    ensures |b| == w
  {
    if w == 0 then [] else ToBytes(n / 256, w - 1) + [n % 256]
  }

  lemma {:induction false} NumberOfBytes(n: nat, w: nat)
    requires n < Pow256(w)
    ensures Number(ToBytes(n, w)) == n
  {
    if w > 0 {
      NumberOfBytes(n / 256, w - 1);
      assert ToBytes(n, w)[..w - 1] == ToBytes(n / 256, w - 1);
    }
  }

  lemma Widths()
    ensures Pow256(1) == POW_8 && Pow256(2) == POW_16 && Pow256(4) == POW_32 && Pow256(8) == POW_64
  {
    assert Pow256(3) == 0x100_0000;
    assert Pow256(5) == 0x100_0000_0000;
    assert Pow256(6) == 0x1_0000_0000_0000;
    assert Pow256(7) == 0x100_0000_0000_0000;
  }
}
