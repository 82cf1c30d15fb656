/**
 * Bytes and the big-endian loads and stores of number.h (ld_u8_be ... ld_u64_be,
 * ld_i32_be, st_u8_be ... st_u64_be, st_i32_be), defined directly.
 */
module Bytes {

  type byte = x: int | 0 <= x < 256

  function Pow256(n: nat): (p: nat)
    ensures p >= 1
  {
    if n == 0 then 1 else 256 * Pow256(n - 1)
  }

  /** ld_uN_be: the unsigned big-endian value of a byte string. */
  function LoadBE(s: seq<byte>): (v: nat)
    ensures v < Pow256(|s|)
  {
    if s == [] then 0 else LoadBE(s[..|s| - 1]) * 256 + s[|s| - 1]
  }

  /** st_uN_be / st_i32_be: the low n bytes of v (two's complement for negative v), big-endian. */
  function StoreBE(v: int, n: nat): (s: seq<byte>)
    ensures |s| == n
    decreases n
  {
    if n == 0 then [] else StoreBE(v / 256, n - 1) + [v % 256]
  }

  /** ld_i32_be: a big-endian 32-bit two's complement value. */
  function LoadI32(s: seq<byte>): (v: int)
    requires |s| == 4
    ensures -0x8000_0000 <= v < 0x8000_0000
  {
    var u := LoadBE(s);
    assert Pow256(4) == 0x1_0000_0000;
    if u >= 0x8000_0000 then u - 0x1_0000_0000 else u
  }

  function Zeros(n: nat): (z: seq<byte>)
    ensures |z| == n && forall i :: 0 <= i < n ==> z[i] == 0
  {
    seq(n, _ => 0)
  }

  lemma ModOfSum(v: int, d: nat, a: int, b: int)
    requires d > 0 && v == d * a + b && 0 <= b < d
    ensures v % d == b && v / d == a
  {
    var q, r := v / d, v % d;
    assert v == d * q + r;
    var k := a - q;
    assert d * k == r - b by {
      assert d * a - d * q == r - b;
      assert d * k == d * a - d * q;
    }
    if k >= 1 {
      MulAtLeast(d, k);
    } else if k <= -1 {
      MulAtLeast(d, -k);
    }
  }

  lemma MulAtLeast(d: nat, k: int)
    requires k >= 1
    ensures d * k >= d
  {
    assert d * k == d * (k - 1) + d;
    assert d * (k - 1) >= 0;
  }

  /** Loading what was stored gives back the stored value modulo 256^n. */
  lemma {:induction false} LoadStore(v: int, n: nat)
    ensures LoadBE(StoreBE(v, n)) == v % Pow256(n)
    decreases n
  {
    if n > 0 {
      var q := v / 256;
      var s := StoreBE(v, n);
      assert s[..n - 1] == StoreBE(q, n - 1);
      assert LoadBE(s) == LoadBE(StoreBE(q, n - 1)) * 256 + v % 256;
      LoadStore(q, n - 1);
      ModStep(v, Pow256(n - 1));
    }
  }

  lemma ModStep(v: int, m: nat)
    requires m >= 1
    ensures (v / 256) % m * 256 + v % 256 == v % (256 * m)
  {
    var q, r := v / 256, v % 256;
    var a, b := q / m, q % m;
    assert q == m * a + b;
    assert v == 256 * q + r;
    assert 256 * q == (256 * m) * a + 256 * b by {
      assert 256 * q == 256 * (m * a) + 256 * b;
    }
    ModOfSum(v, 256 * m, a, 256 * b + r);
  }

  /** Storing a value of the right range and loading it back is the identity. */
  lemma LoadStoreInRange(v: int, n: nat)
    requires 0 <= v < Pow256(n)
    ensures LoadBE(StoreBE(v, n)) == v
  {
    LoadStore(v, n);
  }

  /** The signed 32-bit round trip of st_i32_be / ld_i32_be. */
  lemma LoadStoreI32(v: int)
    requires -0x8000_0000 <= v < 0x8000_0000
    ensures LoadI32(StoreBE(v, 4)) == v
  {
    LoadStore(v, 4);
    assert Pow256(4) == 0x1_0000_0000;
    if v < 0 {
      ModOfSum(v, 0x1_0000_0000, -1, v + 0x1_0000_0000);
    } else {
      ModOfSum(v, 0x1_0000_0000, 0, v);
    }
  }
}
