/**
 * Fixed-width unsigned integers and the big-endian reading of byte strings,
 * shared by the short-code generator (big.Int and its Uint64 reduction) and the
 * user token (binary.BigEndian.Uint32).
 */
module Bytes {
  type uint8 = x: int | 0 <= x < 0x100
  type uint32 = x: int | 0 <= x < 0x1_0000_0000

  /** 2^64: the modulus of Go's uint64. */
  const UINT64_MODULUS: nat := 0x1_0000_0000_0000_0000

  /**
   * 256^n. The width arguments that Low64 and GetUserID rest on are
   * BigEndianBound (n bytes denote less than 256^n) and BigEndianAppend
   * with LowBytes (the low k bytes are the value modulo 256^k).
   */
  function Pow256(n: nat): (r: nat)
    ensures r > 0
  {
    if n == 0 then 1 else 256 * Pow256(n - 1)
  }

  /** The unsigned integer a byte string denotes, most significant byte first. */
  function BigEndian(s: seq<uint8>): nat
  {
    if s == [] then 0 else BigEndian(s[..|s| - 1]) * 256 + s[|s| - 1]
  }

  /** A byte string of length n denotes a number below 256^n. */
  lemma {:induction false} BigEndianBound(s: seq<uint8>)
    ensures BigEndian(s) < Pow256(|s|)
  {
    if s != [] {
      var init := s[..|s| - 1];
      BigEndianBound(init);
      assert BigEndian(init) + 1 <= Pow256(|init|);
      assert (BigEndian(init) + 1) * 256 <= Pow256(|init|) * 256;
    }
  }

  /** Concatenation shifts the high part left by the width of the low part. */
  lemma {:induction false} BigEndianAppend(hi: seq<uint8>, lo: seq<uint8>)
    ensures BigEndian(hi + lo) == BigEndian(hi) * Pow256(|lo|) + BigEndian(lo)
  {
    if lo == [] {
      assert hi + lo == hi;
    } else {
      var init := lo[..|lo| - 1];
      assert (hi + lo)[..|hi + lo| - 1] == hi + init;
      BigEndianAppend(hi, init);
      calc {
        BigEndian(hi + lo);
        BigEndian(hi + init) * 256 + lo[|lo| - 1];
        (BigEndian(hi) * Pow256(|init|) + BigEndian(init)) * 256 + lo[|lo| - 1];
        BigEndian(hi) * (Pow256(|init|) * 256) + (BigEndian(init) * 256 + lo[|lo| - 1]);
        BigEndian(hi) * Pow256(|lo|) + BigEndian(lo);
      }
    }
  }

  /** Euclidean remainder of q * p + r by p, for a remainder already below p. */
  lemma ModOfMultiplePlus(q: nat, p: nat, r: nat)
    requires r < p
    ensures (q * p + r) % p == r
  {
    var x := q * p + r;
    var d := x / p - q;
    assert p * d == r - x % p;
    if d >= 1 {
      MulAtLeast(p, d);
    } else if d <= -1 {
      MulAtLeast(p, -d);
    }
  }

  lemma MulAtLeast(p: nat, d: int)
    requires d >= 1
    ensures p * d >= p
  {
    assert p * d == p + p * (d - 1);
  }

  /**
   * Reducing modulo 256^k keeps exactly the last k bytes: this is what
   * big.Int's Uint64 does to a longer number (k = 8).
   */
  lemma LowBytes(s: seq<uint8>, k: nat)
    requires k <= |s|
    ensures BigEndian(s) % Pow256(k) == BigEndian(s[|s| - k..])
  {
    var hi, lo := s[..|s| - k], s[|s| - k..];
    assert s == hi + lo;
    BigEndianAppend(hi, lo);
    BigEndianBound(lo);
    ModOfMultiplePlus(BigEndian(hi), Pow256(k), BigEndian(lo));
  }

  lemma Pow256Eight()
    ensures Pow256(8) == UINT64_MODULUS
  {
  }

  lemma Pow256Four()
    ensures Pow256(4) == 0x1_0000_0000
  {
  }
}
