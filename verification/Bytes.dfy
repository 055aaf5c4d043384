/** Byte strings and the little-endian integers that the serializer macros copy to and from them. */
module Bytes {
  import opened Collections

  type Byte = x: int | 0 <= x < 256

  const U16_LIMIT: nat := 0x1_0000
  const U32_LIMIT: nat := 0x1_0000_0000
  const U64_LIMIT: nat := 0x1_0000_0000_0000_0000

  /** The `k` low bytes of `n`, least significant first. */
  function Le(n: nat, k: nat): (bs: seq<Byte>)
    ensures |bs| == k
  {
    if k == 0 then [] else [n % 256] + Le(n / 256, k - 1)
  }

  /** The number whose bytes, least significant first, are `bs`. */
  function FromLe(bs: seq<Byte>): nat
  {
    if |bs| == 0 then 0 else bs[0] + 256 * FromLe(bs[1..])
  }

  function Pow256(k: nat): (p: nat)
    ensures p > 0
  {
    if k == 0 then 1 else 256 * Pow256(k - 1)
  }

  lemma ModStep(n: nat, p: nat)
    requires p > 0
    ensures n % (256 * p) == n % 256 + 256 * ((n / 256) % p)
  {
    var q := n / 256;
    var m := q / p;
    var low := n % 256 + 256 * (q % p);
    assert q == m * p + q % p;
    assert n == 256 * q + n % 256;
    assert n == m * (256 * p) + low by {
      assert 256 * (m * p) == m * (256 * p);
    }
    DivModUnique(n, 256 * p, m, low);
  }

  /** Byte `i` of an integer is its digit `i` to the base 256, the lowest first. */
  lemma {:induction false} LeAt(n: nat, k: nat, i: nat)
    requires i < k
    ensures Le(n, k)[i] == n / Pow256(i) % 256
    decreases k
  {
    if i > 0 {
      LeAt(n / 256, k - 1, i - 1);
      DivTwice(n, Pow256(i - 1));
    }
  }

  lemma DivTwice(n: nat, b: nat)
    requires b > 0
    ensures n / 256 / b == n / (256 * b)
  {
    var q, r := n / 256 / b, n / 256 % b;
    var low := n % 256 + 256 * r;
    assert n / 256 == b * q + r;
    assert n == 256 * (b * q) + low;
    assert 256 * (b * q) == (256 * b) * q;
    DivUnique(n, 256 * b, q, low);
  }

  lemma DivUnique(n: int, d: nat, q: int, r: nat)
    requires r < d && n == d * q + r
    ensures n / d == q
  {
    var p := n / d;
    if p < q {
      MulMono(d, p + 1, q);
    } else if p > q {
      MulMono(d, q + 1, p);
    }
    DivModUnique(n, d, q, r);
  }

  lemma MulMono(d: nat, a: int, b: int)
    requires a <= b
    ensures d * a <= d * b
  {
  }

  lemma {:induction false} LeZero(k: nat)
    ensures Le(0, k) == seq(k, _ => 0)
  {
    if k > 0 {
      LeZero(k - 1);
    }
  }

  lemma {:induction false} FromLeBound(bs: seq<Byte>)
    ensures FromLe(bs) < Pow256(|bs|)
    decreases |bs|
  {
    if bs != [] {
      FromLeBound(bs[1..]);
    }
  }

  /** Reading back a `k`-byte integer keeps exactly its low `8 * k` bits. */
  lemma {:induction false} FromLeOfLe(n: nat, k: nat)
    ensures FromLe(Le(n, k)) == n % Pow256(k)
  {
    if k > 0 {
      FromLeOfLe(n / 256, k - 1);
      ModStep(n, Pow256(k - 1));
    }
  }

  lemma Pow256Widths()
    ensures Pow256(1) == 256
    ensures Pow256(2) == U16_LIMIT
    ensures Pow256(4) == U32_LIMIT
    ensures Pow256(8) == U64_LIMIT
  {
    assert Pow256(2) == 256 * Pow256(1);
    assert Pow256(4) == 256 * Pow256(3);
    assert Pow256(6) == 256 * Pow256(5);
    assert Pow256(8) == 256 * Pow256(7);
  }

  lemma {:induction false} U64RoundTrip(n: nat)
    requires n < U64_LIMIT
    ensures FromLe(Le(n, 8)) == n
  {
    FromLeOfLe(n, 8);
    Pow256Widths();
  }
}
