/**
 * The byte XOR and the FNV-1a hash of library/xor_uuid.py. Bytes are `bv8`;
 * the hash value is a Python integer, so it is a `nat` here and each step
 * reduces it modulo the given size explicitly.
 */
module XorUuid {
  import opened Common

  const FnvPrime32: nat := 0x01000193
  const Fnv1aInit32: nat := 0x811C9DC5
  const FnvSize32: nat := 0x1_0000_0000

  /** Byte-wise XOR of two byte strings; `zip` stops at the shorter one. */
  function ByteXor(a: seq<bv8>, b: seq<bv8>): (r: seq<bv8>)
    ensures |r| == Min(|a|, |b|)
    ensures forall i :: 0 <= i < |r| ==> r[i] == a[i] ^ b[i]
  {
    if a == [] || b == [] then [] else [a[0] ^ b[0]] + ByteXor(a[1..], b[1..])
  }

  lemma ByteXorCommutes(a: seq<bv8>, b: seq<bv8>)
    ensures ByteXor(a, b) == ByteXor(b, a)
  {
    var x, y := ByteXor(a, b), ByteXor(b, a);
    forall i | 0 <= i < |x|
      ensures x[i] == y[i]
    {
      assert a[i] ^ b[i] == b[i] ^ a[i];
    }
  }

  /** XOR with the same key twice gives the original bytes back. */
  lemma ByteXorSelfInverse(a: seq<bv8>, b: seq<bv8>)
    requires |a| == |b|
    ensures ByteXor(ByteXor(a, b), b) == a
  {
    var x := ByteXor(ByteXor(a, b), b);
    forall i | 0 <= i < |a|
      ensures x[i] == a[i]
    {
      assert (a[i] ^ b[i]) ^ b[i] == a[i];
    }
  }

  /** Python's `h ^ byte` for a non-negative integer: the low eight bits are
      XORed with the byte, the higher bits are kept. */
  function XorByte(h: nat, b: bv8): nat {
    (h / 256) * 256 + (((h % 256) as bv8) ^ b) as nat
  }

  /** One FNV-1a step: XOR the byte in, then multiply by the prime modulo the size. */
  function Step(hval: nat, b: bv8, prime: nat, size: nat): (r: nat)
    requires size > 0
    ensures r < size
  {
    (XorByte(hval, b) * prime) % size
  }

  /** The FNV-1a fold: one step per byte, left to right. */
  function Fold(hval: nat, data: seq<bv8>, prime: nat, size: nat): (r: nat)
    requires size > 0
    ensures data != [] ==> r < size
    decreases |data|
  {
    if data == [] then hval
    else Fold(Step(hval, data[0], prime, size), data[1..], prime, size)
  }

  /** Hashing a concatenation continues from the hash of the first part. */
  lemma {:induction false} FoldAppend(hval: nat, a: seq<bv8>, b: seq<bv8>, prime: nat, size: nat)
    requires size > 0
    ensures Fold(hval, a + b, prime, size) == Fold(Fold(hval, a, prime, size), b, prime, size)
    decreases |a|
  {
    if a == [] {
      assert a + b == b;
    } else {
      var h := Step(hval, a[0], prime, size);
      assert (a + b)[0] == a[0];
      assert (a + b)[1..] == a[1..] + b;
      assert Fold(hval, a + b, prime, size) == Fold(h, a[1..] + b, prime, size);
      assert Fold(hval, a, prime, size) == Fold(h, a[1..], prime, size);
      FoldAppend(h, a[1..], b, prime, size);
    }
  }

  /** `fnva`: the fold as a loop. With no data the initial value comes back
      unchanged, whatever the size; with data and a size of 0 the modulo
      raises ZeroDivisionError (None here). */
  method Fnva(data: seq<bv8>, hvalInit: nat, prime: nat, size: nat) returns (r: Option<nat>)
    ensures data == [] ==> r == Some(hvalInit)
    ensures data != [] && size == 0 ==> r == None
    ensures size > 0 ==> r == Some(Fold(hvalInit, data, prime, size))
  {
    var hval: nat := hvalInit;
    var i := 0;
    while i < |data|
      invariant i <= |data|
      invariant size > 0 || i == 0
      invariant size > 0 ==> Fold(hval, data[i..], prime, size) == Fold(hvalInit, data, prime, size)
      invariant i == 0 ==> hval == hvalInit
    {
      if size == 0 {
        return None;
      }
      assert data[i..][1..] == data[i + 1..];
      hval := Step(hval, data[i], prime, size);
      i := i + 1;
    }
    assert data[i..] == [];
    return Some(hval);
  }

  /** The 32-bit FNV-1a hash: prime 0x01000193 modulo 2^32, from the given
      initial value (the offset basis 0x811C9DC5 by default); for non-empty
      data the result fits in 32 bits. */
  method Fnv1a32(data: seq<bv8>, hvalInit: nat) returns (h: nat)
    ensures h == Fold(hvalInit, data, FnvPrime32, FnvSize32)
    ensures data == [] ==> h == hvalInit
    ensures data != [] ==> h < FnvSize32
  {
    var r := Fnva(data, hvalInit, FnvPrime32, FnvSize32);
    h := r.value;
  }

  /** XOR with a byte keeps every bit above the low eight and XORs the low
      eight with the byte. */
  lemma XorByteBits(h: nat, b: bv8)
    ensures XorByte(h, b) / 256 == h / 256
    ensures (XorByte(h, b) % 256) as bv8 == (h % 256) as bv8 ^ b
  {
    var x := ((h % 256) as bv8) ^ b;
    ByteDigits(h / 256, x as nat);
    assert (x as nat) as bv8 == x;
  }

  /** Splitting `q * 256 + x` into its high part and its low byte. */
  lemma ByteDigits(q: nat, x: nat)
    requires x < 256
    ensures (q * 256 + x) / 256 == q
    ensures (q * 256 + x) % 256 == x
  {
  }

  /** The published FNV-1a test vector: from the offset basis, the hash of
      "a" is 0xE40C292C. */
  lemma Fnv1a32OfA()
    ensures Fold(Fnv1aInit32, [0x61], FnvPrime32, FnvSize32) == 0xE40C292C
  {
    assert XorByte(Fnv1aInit32, 0x61) == 0x811C9DA4 by {
      assert Fnv1aInit32 % 256 == 0xC5;
      assert (0xC5 as bv8) ^ 0x61 == 0xA4;
    }
    assert (0x811C9DA4 * FnvPrime32) % FnvSize32 == 0xE40C292C;
    assert Step(Fnv1aInit32, 0x61, FnvPrime32, FnvSize32) == 0xE40C292C;
    assert [0x61 as bv8][1..] == [];
  }
}
