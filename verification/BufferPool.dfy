/** Sizing and indexing of the buffer pool's hash table, in 64-bit arithmetic. */
module BufferPool {
  import opened Collections

  const HASH_MIN: nat := 16
  const WORD: nat := 0x1_0000_0000_0000_0000
  const HALF: nat := 0x8000_0000_0000_0000

  function Pow2(k: nat): (p: nat)
    ensures p > 0
  {
    if k == 0 then 1 else 2 * Pow2(k - 1)
  }

  /** `num_pages * 2` as the machine computes it. */
  function Wanted(numPages: nat): nat
  {
    2 * numPages % WORD
  }

  /** `n <<= 1` as the machine computes it. */
  function Shifted(n: nat): nat
  {
    2 * n % WORD
  }

  /** The table size after `k` turns of the loop, or when the loop has exited if that comes first. */
  function SizeAfter(n: nat, wanted: nat, k: nat): nat
    decreases k
  {
    if k == 0 || n >= wanted then n else SizeAfter(Shifted(n), wanted, k - 1)
  }

  ghost predicate Exits(wanted: nat)
  {
    exists k: nat :: ExitsBy(wanted, k)
  }

  ghost predicate ExitsBy(wanted: nat, k: nat)
  {
    SizeAfter(HASH_MIN, wanted, k) >= wanted
  }

  /** `n` is the least power of two that is at least `low`. */
  ghost predicate LeastPowerFrom(n: nat, low: nat)
  {
    && (exists k: nat :: n == Pow2(k))
    && n >= low
    && (forall k: nat :: Pow2(k) >= low ==> Pow2(k) >= n)
  }

  function Max(a: nat, b: nat): nat
  {
    if a < b then b else a
  }

  lemma {:induction false} Pow2Monotone(j: nat, k: nat)
    requires j <= k
    ensures Pow2(j) <= Pow2(k)
    decreases k
  {
    if j < k {
      Pow2Monotone(j, k - 1);
    }
  }

  lemma {:induction false} Pow2Gap(j: nat, k: nat)
    requires Pow2(j) < Pow2(k)
    ensures 2 * Pow2(j) <= Pow2(k)
  {
    if k <= j {
      Pow2Monotone(k, j);
    } else {
      Pow2Monotone(j + 1, k);
    }
  }

  lemma Powers()
    ensures Pow2(4) == HASH_MIN && Pow2(63) == HALF && Pow2(64) == WORD
  {
    assert Pow2(2) == 4 && Pow2(4) == 4 * Pow2(2) && Pow2(64) == 2 * Pow2(63);
    hide Pow2;
    Pow2Sum(4, 4);
    Pow2Sum(8, 8);
    Pow2Sum(16, 16);
    Pow2Sum(32, 32);
  }

  lemma {:induction false} Pow2Sum(j: nat, k: nat)
    ensures Pow2(j + k) == Pow2(j) * Pow2(k)
    decreases j
  {
    if j > 0 {
      Pow2Sum(j - 1, k);
    }
  }

  /** A power of two below the wanted size doubles without overflow if the wanted size is at most half the range. */
  lemma DoubleBelow(n: nat, j: nat, wanted: nat)
    requires n == Pow2(j) && n < wanted <= HALF
    ensures Shifted(n) == 2 * n == Pow2(j + 1) && 2 * n <= HALF
  {
    Powers();
    Pow2Gap(j, 63);
  }

  /**
    `buffer_pool_hash_size` wherever its loop terminates: the least power of two that is at least 16 and at least the
    product as computed.
   */
  method HashSize(numPages: nat) returns (n: nat)
    requires numPages < WORD && Wanted(numPages) <= HALF
    ensures LeastPowerFrom(n, Max(16, 2 * numPages % 0x1_0000_0000_0000_0000))
    ensures n <= HALF
  {
    var wanted := 2 * numPages % WORD;
    n := HASH_MIN;
    ghost var j := 4;
    Powers();
    hide Pow2;
    while n < wanted
      invariant n == Pow2(j) && HASH_MIN <= n <= HALF
      invariant n == HASH_MIN || n < 2 * wanted
      decreases HALF - n
    {
      DoubleBelow(n, j, wanted);
      n := 2 * n % WORD;
      j := j + 1;
    }
    forall k: nat | Pow2(k) >= Max(HASH_MIN, wanted)
      ensures Pow2(k) >= n
    {
      if Pow2(k) < n {
        Pow2Gap(k, j);
        assert false;
      }
    }
  }

  // ---------------------------------------------------------------- when the loop exits

  lemma {:induction false} NeverReaches(n: nat, j: nat, wanted: nat, k: nat)
    requires HALF < wanted < WORD && (n == 0 || (n == Pow2(j) && n <= HALF))
    ensures SizeAfter(n, wanted, k) < wanted
    decreases k
  {
    if k > 0 {
      if n == 0 {
        NeverReaches(0, 0, wanted, k - 1);
      } else {
        Powers();
        if n == HALF {
          assert Shifted(n) == 0;
          NeverReaches(0, 0, wanted, k - 1);
        } else {
          Pow2Gap(j, 63);
          assert Shifted(n) == 2 * n == Pow2(j + 1);
          NeverReaches(2 * n, j + 1, wanted, k - 1);
        }
      }
    }
  }

  lemma {:induction false} Reaches(n: nat, j: nat, wanted: nat) returns (k: nat)
    requires wanted <= HALF && n == Pow2(j) && n <= HALF
    ensures SizeAfter(n, wanted, k) >= wanted
    decreases HALF - n
  {
    if n >= wanted {
      k := 0;
    } else {
      DoubleBelow(n, j, wanted);
      var k' := Reaches(2 * n, j + 1, wanted);
      k := k' + 1;
    }
  }

  /** The sizing loop terminates if and only if the product as computed is at most half of the range. */
  lemma SizingExitsIff(numPages: nat)
    requires numPages < WORD
    ensures Exits(Wanted(numPages)) <==> 2 * numPages % 0x1_0000_0000_0000_0000 <= 0x8000_0000_0000_0000
  {
    var wanted := Wanted(numPages);
    Powers();
    if wanted <= HALF {
      var k := Reaches(HASH_MIN, 4, wanted);
      assert ExitsBy(wanted, k);
    } else {
      forall k: nat
        ensures !ExitsBy(wanted, k)
      {
        NeverReaches(HASH_MIN, 4, wanted, k);
      }
    }
  }

  /**
    The loop terminates with twice the number of pages, and not a wrapped product, as the bound of the size exactly
    when there are at most 2^62 pages: above that it runs for ever, or from 2^63 pages on uses a wrapped product.
   */
  lemma SizedForAllPagesIff(numPages: nat)
    requires numPages < WORD
    ensures Exits(Wanted(numPages)) && Wanted(numPages) == 2 * numPages <==> numPages <= 0x4000_0000_0000_0000
  {
    SizingExitsIff(numPages);
  }

  /** When the loop exits, with any number of turns, it has found the least power of two that is large enough. */
  lemma {:induction false} ExitsWithLeast(numPages: nat, k: nat)
    requires numPages < WORD && Wanted(numPages) <= HALF && SizeAfter(16, Wanted(numPages), k) >= Wanted(numPages)
    ensures LeastPowerFrom(SizeAfter(16, Wanted(numPages), k), Max(16, Wanted(numPages)))
  {
    Powers();
    hide Pow2;
    GrowsToLeast(16, 4, Wanted(numPages), k);
  }

  lemma {:induction false} GrowsToLeast(n: nat, j: nat, wanted: nat, k: nat)
    requires n == Pow2(j) && n <= HALF && wanted <= HALF && j >= 4 && (j == 4 || Pow2(j - 1) < wanted)
    requires SizeAfter(n, wanted, k) >= wanted
    ensures LeastPowerFrom(SizeAfter(n, wanted, k), Max(16, wanted))
    decreases k
  {
    if n >= wanted {
      LeastAt(n, j, wanted);
    } else {
      DoubleBelow(n, j, wanted);
      hide Pow2;
      GrowsToLeast(2 * n, j + 1, wanted, k - 1);
    }
  }

  lemma {:induction false} LeastAt(n: nat, j: nat, wanted: nat)
    requires n == Pow2(j) && n >= wanted && j >= 4 && (j == 4 || Pow2(j - 1) < wanted)
    ensures LeastPowerFrom(n, Max(16, wanted))
  {
    Powers();
    hide Pow2;
    Pow2Monotone(4, j);
    forall i: nat | Pow2(i) >= Max(16, wanted)
      ensures Pow2(i) >= n
    {
      if Pow2(i) < n {
        Pow2Gap(i, j);
        DoubleOf(j);
      }
    }
  }

  lemma DoubleOf(j: nat)
    requires j > 0
    ensures Pow2(j) == 2 * Pow2(j - 1)
  {
  }

  // ---------------------------------------------------------------- indexing

  /** Bitwise and, bit by bit. */
  function And(a: nat, b: nat): nat
    decreases a
  {
    if a == 0 || b == 0 then 0
    else (if a % 2 == 1 && b % 2 == 1 then 1 else 0) + 2 * And(a / 2, b / 2)
  }

  /** A block id converted to an unsigned word. */
  function AsWord(id: int): nat
  {
    id % WORD
  }

  /** `buffer_pool_hash`. */
  function Hash(hashSize: nat, id: int): nat
    requires hashSize > 0
  {
    And(AsWord(id), hashSize - 1)
  }

  lemma {:induction false} MaskIsMod(a: nat, k: nat)
    ensures And(a, Pow2(k) - 1) == a % Pow2(k)
    decreases k
  {
    hide And;
    if k > 0 {
      var p := Pow2(k - 1);
      MaskIsMod(a / 2, k - 1);
      AndOdd(a, p - 1);
      ModTwice(a, p);
    } else {
      AndZero(a);
    }
  }

  lemma {:induction false} AndZero(a: nat)
    ensures And(a, 0) == 0
  {
  }

  /** Masking with an odd word keeps the lowest bit and goes on with the others. */
  lemma {:induction false} AndOdd(a: nat, half: nat)
    ensures And(a, 2 * half + 1) == a % 2 + 2 * And(a / 2, half)
  {
    assert (2 * half + 1) / 2 == half && (2 * half + 1) % 2 == 1;
    if a == 0 {
      assert And(a / 2, half) == 0;
    }
  }

  lemma ModTwice(a: nat, p: nat)
    requires p > 0
    ensures a % (2 * p) == a % 2 + 2 * ((a / 2) % p)
  {
    var h := a / 2;
    var q, r := h / p, h % p;
    var low := a % 2 + 2 * r;
    assert h == q * p + r;
    assert a == 2 * h + a % 2;
    assert a == q * (2 * p) + low by {
      assert 2 * (q * p) == q * (2 * p);
    }
    DivModUnique(a, 2 * p, q, low);
  }

  lemma ModMod(id: int, p: nat, c: nat)
    requires p > 0 && c > 0
    ensures (id % (p * c)) % p == id % p
  {
    var w := p * c;
    var q := id / w;
    var r := id % w;
    assert id == q * w + r;
    var s := r % p;
    assert r == (r / p) * p + s;
    assert id == (q * c + r / p) * p + s by {
      assert q * w == (q * c) * p;
    }
    DivModUnique(id, p, q * c + r / p, s);
  }

  /**
    For every table size that is a power of two in range and for every block id, even the invalid one, masking gives
    the id modulo the size, so it is an index into the table.
   */
  lemma {:induction false} HashIsMod(k: nat, id: int)
    requires k <= 64
    ensures Hash(Pow2(k), id) == id % Pow2(k) < Pow2(k)
  {
    hide And, Pow2;
    MaskIsMod(AsWord(id), k);
    Powers();
    Pow2Sum(k, 64 - k);
    ModMod(id, Pow2(k), Pow2(64 - k));
  }
}
