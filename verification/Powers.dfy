/** Powers of two and alignment to them. */
module Powers {

  function Pow2(k: nat): (p: nat)
    ensures p >= 1
  {
    if k == 0 then 1 else 2 * Pow2(k - 1)
  }

  /** The `k` low binary digits of `x` are zero. */
  predicate Aligned(x: nat, k: nat) {
    k == 0 || (x % 2 == 0 && Aligned(x / 2, k - 1))
  }

  lemma ModUnique(x: nat, m: nat, q: nat, r: nat)
    requires m > 0 && x == q * m + r && r < m
    ensures x % m == r && x / m == q
  {
    var d := x / m - q;
    assert x == (x / m) * m + x % m;
    assert d * m == r - x % m;
    Squeeze(d, m, r - x % m);
  }

  lemma Squeeze(d: int, m: nat, s: int)
    requires m > 0 && d * m == s && 0 - m < s < m
    ensures d == 0
  {
    assert d >= 1 ==> d * m >= m;
    assert d <= -1 ==> (-d) * m >= m;
  }

  lemma HalfMod(x: nat, p: nat)
    requires p > 0
    ensures x % (2 * p) == 2 * ((x / 2) % p) + x % 2
  {
    var h := x / 2;
    assert h == (h / p) * p + h % p;
    assert x == (h / p) * (2 * p) + (2 * (h % p) + x % 2);
    ModUnique(x, 2 * p, h / p, 2 * (h % p) + x % 2);
  }

  lemma {:induction false} AlignedIff(x: nat, k: nat)
    ensures Aligned(x, k) <==> x % Pow2(k) == 0
  {
    if k > 0 {
      AlignedIff(x / 2, k - 1);
      HalfMod(x, Pow2(k - 1));
    }
  }

  lemma {:induction false} AlignedSum(x: nat, y: nat, k: nat)
    requires Aligned(x, k) && Aligned(y, k)
    ensures Aligned(x + y, k)
  {
    if k > 0 {
      AlignedSum(x / 2, y / 2, k - 1);
      assert (x + y) / 2 == x / 2 + y / 2;
    }
  }

  lemma {:induction false} AlignedLess(x: nat, k: nat, j: nat)
    requires Aligned(x, k) && j <= k
    ensures Aligned(x, j)
  {
    if j > 0 {
      AlignedLess(x / 2, k - 1, j - 1);
    }
  }

  lemma {:induction false} AlignedPow(k: nat, j: nat)
    requires j <= k
    ensures Aligned(Pow2(k), j)
  {
    hide Pow2, Aligned;
    AlignedStep(Pow2(k), j);
    if j > 0 {
      PowStep(k - 1);
      Halve(Pow2(k - 1));
      AlignedPow(k - 1, j - 1);
    }
  }

  lemma AlignedStep(x: nat, k: nat)
    ensures Aligned(x, k) <==> k == 0 || (x % 2 == 0 && Aligned(x / 2, k - 1))
  {
  }

  lemma Halve(p: nat)
    ensures (2 * p) % 2 == 0 && (2 * p) / 2 == p
  {
  }

  lemma {:induction false} AlignedMinus(x: nat, y: nat, k: nat)
    requires Aligned(x, k) && Aligned(y, k) && y <= x
    ensures Aligned(x - y, k)
  {
    if k > 0 {
      AlignedMinus(x / 2, y / 2, k - 1);
      assert (x - y) / 2 == x / 2 - y / 2;
    }
  }

  lemma {:induction false} AlignedAtLeast(x: nat, k: nat)
    requires Aligned(x, k) && x > 0
    ensures x >= Pow2(k)
  {
    if k > 0 {
      AlignedAtLeast(x / 2, k - 1);
    }
  }

  lemma {:induction false} ZeroAligned(k: nat)
    ensures Aligned(0, k)
  {
    if k > 0 {
      ZeroAligned(k - 1);
    }
  }

  lemma {:induction false} PowMono(j: nat, k: nat)
    requires j <= k
    ensures Pow2(j) <= Pow2(k)
    decreases k
  {
    if j < k {
      PowMono(j, k - 1);
    }
  }

  lemma PowStep(k: nat)
    ensures Pow2(k + 1) == 2 * Pow2(k)
  {
  }

  lemma Pow32()
    ensures Pow2(32) == 0x1_0000_0000
  {
    assert Pow2(8) == 256;
    assert Pow2(16) == 65536;
    assert Pow2(24) == 16777216;
  }

  lemma Pow64()
    ensures Pow2(64) == 0x1_0000_0000_0000_0000
  {
    Pow32();
    assert Pow2(40) == 0x100_0000_0000;
    assert Pow2(48) == 0x1_0000_0000_0000;
    assert Pow2(56) == 0x100_0000_0000_0000;
  }

  lemma ModSmall(x: nat, m: nat)
    requires m > 0
    ensures x % m <= x && x % m < m
  {
  }

  /** `x & !mask` for a mask of `k` ones. */
  function Down(x: nat, k: nat): (r: nat)
    ensures r <= x < r + Pow2(k)
  {
    hide Pow2;
    ModSmall(x, Pow2(k));
    x - x % Pow2(k)
  }

  lemma DownAligned(x: nat, k: nat)
    ensures Aligned(Down(x, k), k)
  {
    hide Pow2, Aligned;
    var p := Pow2(k);
    assert x == (x / p) * p + x % p;
    ModUnique(Down(x, k), p, x / p, 0);
    AlignedIff(Down(x, k), k);
  }

  lemma DownUnique(x: nat, k: nat, r: nat)
    requires Aligned(r, k) && r <= x < r + Pow2(k)
    ensures Down(x, k) == r
  {
    hide Pow2, Aligned;
    var p := Pow2(k);
    AlignedIff(r, k);
    assert r == (r / p) * p;
    ModUnique(x, p, r / p, x - r);
  }
}
