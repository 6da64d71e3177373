/** Powers of two, alignment, and exclusive or on natural numbers. */
module Powers {

  function Pow2(k: nat): (r: nat)
    ensures r >= 1
  {
    if k == 0 then 1 else 2 * Pow2(k - 1)
  }

  lemma {:induction false} Pow2Monotone(j: nat, k: nat)
    requires j <= k
    ensures Pow2(j) <= Pow2(k)
    ensures j < k ==> 2 * Pow2(j) <= Pow2(k)
    decreases k - j
  {
    if j < k {
      Pow2Monotone(j + 1, k);
    }
  }

  lemma {:induction false} Pow2Add(j: nat, k: nat)
    ensures Pow2(j + k) == Pow2(j) * Pow2(k)
  {
    if j > 0 {
      Pow2Add(j - 1, k);
      assert 2 * (Pow2(j - 1) * Pow2(k)) == (2 * Pow2(j - 1)) * Pow2(k);
    }
  }

  lemma DivModUnique(x: int, d: int, q: int, r: int)
    requires d > 0 && x == q * d + r && 0 <= r < d
    ensures x / d == q && x % d == r
  {
    var q', r' := x / d, x % d;
    assert x == q' * d + r';
    if q' > q {
      MulDistribute(q, q' - q, d);
      MulStep(q' - q, d);
    } else if q' < q {
      MulDistribute(q', q - q', d);
      MulStep(q - q', d);
    }
  }

  lemma MulStep(m: int, d: int)
    requires m >= 1 && d > 0
    ensures m * d >= d
  {
  }

  /** The page (or byte) number `a` starts a naturally aligned run of 2^k. */
  predicate Aligned(a: int, k: nat) {
    a % Pow2(k) == 0
  }

  /** Bit k of a, for a natural number a. */
  predicate Bit(a: int, k: nat) {
    (a / Pow2(k)) % 2 == 1
  }

  lemma Pow2Double(k: nat)
    ensures Pow2(k + 1) == 2 * Pow2(k)
  {
  }

  lemma AlignedQuotient(a: int, k: nat) returns (q: int)
    requires Aligned(a, k)
    ensures a == q * Pow2(k)
  {
    q := a / Pow2(k);
  }

  /** Alignment to 2^(k+1) is alignment to 2^k with bit k clear. */
  lemma AlignedNext(a: int, k: nat)
    ensures Aligned(a, k + 1) <==> Aligned(a, k) && !Bit(a, k)
  {
    var d := Pow2(k);
    var q, r := a / d, a % d;
    assert a == q * d + r;
    var h := q / 2;
    if q % 2 == 0 {
      assert q == 2 * h;
      assert q * d == h * (2 * d);
      DivModUnique(a, 2 * d, h, r);
    } else {
      assert q == 2 * h + 1;
      assert q * d == h * (2 * d) + d;
      DivModUnique(a, 2 * d, h, d + r);
    }
  }

  lemma {:induction false} AlignedDown(a: int, j: nat, k: nat)
    requires j <= k && Aligned(a, k)
    ensures Aligned(a, j)
    ensures j < k ==> !Bit(a, j)
    decreases k - j
  {
    if j < k {
      AlignedDown(a, j + 1, k);
      AlignedNext(a, j);
    }
  }

  /** Moving by 2^k keeps alignment to 2^k and flips bit k. */
  lemma AlignedShift(a: int, k: nat)
    ensures Aligned(a + Pow2(k), k) <==> Aligned(a, k)
    ensures Bit(a + Pow2(k), k) <==> !Bit(a, k)
  {
    var d := Pow2(k);
    var q, r := a / d, a % d;
    assert a + d == (q + 1) * d + r;
    DivModUnique(a + d, d, q + 1, r);
  }

  /** Adding an aligned base changes neither the alignment nor the bits below it. */
  lemma AlignedBase(base: int, a: int, k: nat, m: nat)
    requires k <= m && Aligned(base, m)
    ensures Aligned(base + a, k) <==> Aligned(a, k)
    ensures k < m ==> (Bit(base + a, k) <==> Bit(a, k))
  {
    AlignedDown(base, k, m);
    var d := Pow2(k);
    var b, q, r := base / d, a / d, a % d;
    assert base == b * d;
    assert a == q * d + r;
    assert base + a == (b + q) * d + r;
    DivModUnique(base + a, d, b + q, r);
    if k < m {
      assert b % 2 == 0;
    }
  }

  /** Exclusive or, one binary digit at a time. */
  function Xor(a: nat, b: nat): (r: nat) {
    if a == 0 && b == 0 then 0
    else (if a % 2 == b % 2 then 0 else 1) + 2 * Xor(a / 2, b / 2)
  }

  /** The number with bit k inverted. */
  function Flip(a: int, k: nat): (r: int) {
    if Bit(a, k) then a - Pow2(k) else a + Pow2(k)
  }

  lemma {:induction false} XorZero(a: nat)
    ensures Xor(a, 0) == a
  {
    if a > 0 {
      XorZero(a / 2);
    }
  }

  /** Exclusive or with a single bit moves by exactly that bit, up or down. */
  lemma {:induction false} XorIsFlip(a: nat, k: nat)
    ensures Xor(a, Pow2(k)) == Flip(a, k)
  {
    if k == 0 {
      XorZero(a / 2);
    } else {
      XorIsFlip(a / 2, k - 1);
      HalfBit(a, k);
      XorEven(a, Pow2(k - 1));
    }
  }

  lemma {:induction false} XorEven(a: nat, b: nat)
    requires b > 0
    ensures Xor(a, 2 * b) == a % 2 + 2 * Xor(a / 2, b)
  {
    var c := 2 * b;
    assert c / 2 == b && c % 2 == 0;
    assert Xor(a, c) == (if a % 2 == c % 2 then 0 else 1) + 2 * Xor(a / 2, c / 2);
  }

  lemma HalfBit(a: nat, k: nat)
    requires k > 0
    ensures Bit(a, k) <==> Bit(a / 2, k - 1)
  {
    var d := Pow2(k - 1);
    var h := a / 2;
    var q, r := h / d, h % d;
    assert h == q * d + r;
    assert a == q * (2 * d) + (2 * r + a % 2);
    DivModUnique(a, 2 * d, q, 2 * r + a % 2);
  }

  /** Inverting bit s + k of p * 2^s inverts bit k of p. */
  lemma FlipScale(p: nat, s: nat, k: nat)
    ensures Flip(p * Pow2(s), s + k) == Flip(p, k) * Pow2(s)
  {
    Pow2Add(k, s);
    ScaleDiv(p, Pow2(k), Pow2(s));
    if Bit(p, k) {
      MulDistribute(p - Pow2(k), Pow2(k), Pow2(s));
    } else {
      MulDistribute(p, Pow2(k), Pow2(s));
    }
  }

  lemma ScaleDiv(p: nat, d: nat, e: nat)
    requires d > 0 && e > 0 && d * e > 0
    ensures (p * e) / (d * e) == p / d
  {
    var q, r := p / d, p % d;
    assert p == q * d + r;
    assert p * e == q * (d * e) + r * e by {
      MulDistribute(q * d, r, e);
      MulAssociate(q, d, e);
    }
    assert r * e < d * e by {
      MulDistribute(r, d - r, e);
      MulStep(d - r, e);
    }
    DivModUnique(p * e, d * e, q, r * e);
  }

  lemma MulDistribute(x: int, y: int, z: int)
    ensures (x + y) * z == x * z + y * z
  {
  }

  lemma MulAssociate(x: int, y: int, z: int)
    ensures (x * y) * z == x * (y * z)
  {
  }
}
