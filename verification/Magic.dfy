/**
 * Magic numbers for division by a constant: the search of `signedMagic` and
 * `unsignedMagic`, and the exactness of the multiply sequences they feed.
 */
module Magic {
  import opened Word32
  import opened Bits
  import opened Alu

  /** The divisors the magic sequences are for: |d| >= 3, no power of two. */
  predicate NeedsMagic(d: i32) {
    Abs(d) >= 3 && Log2Exact(Abs(d)) == -1
  }

  lemma NotAPow2(d: i32)
    requires NeedsMagic(d)
    ensures 3 <= Abs(d) < TWO31 && !IsPow2(Abs(d))
  {
    Pow2Values();
    Log2ExactCorrect(Abs(d), 31);
    if IsPow2(Abs(d)) {
      var k: nat :| Abs(d) == Pow2(k);
      Log2ExactCorrect(Abs(d), k);
    }
  }

  lemma NoMultipleIsPow2(ad: int, q: int, x: int)
    requires ad >= 1 && !IsPow2(ad) && IsPow2(x)
    ensures q * ad != x
  {
    if q * ad == x {
      if q <= 0 { MulLe(ad, q, 0); }
      var p: nat :| x == Pow2(p);
      DivisorOfPow2(ad, q, p);
    }
  }

  /** |nc| of Hacker's Delight 10-1: one less than a multiple of |d|. */
  function Anc(d: i32): int
    requires d != 0
  {
    var t := TWO31 + U(d) / TWO31;
    t - 1 - t % Abs(d)
  }

  lemma AncFacts(d: i32) returns (q: int)
    requires NeedsMagic(d)
    ensures Anc(d) + 1 == Abs(d) * q && q >= 1
    ensures TWO31 / 2 <= Anc(d) < TWO31 + (if d < 0 then 1 else 0)
    ensures Abs(d) - 1 <= Anc(d)
    ensures TWO31 + (if d < 0 then 1 else 0) < Anc(d) + 1 + Abs(d)
  {
    NotAPow2(d);
    var t := TWO31 + U(d) / TWO31;
    q := t / Abs(d);
    LargestMultiple(t, Abs(d), q, t % Abs(d));
  }

  lemma LargestMultiple(t: int, m: int, q: int, r: int)
    requires 0 < m < t && t == m * q + r && 0 <= r < m
    ensures q >= 1 && m <= t - r && t < 2 * (t - r)
  {
    if q <= 0 { MulLe(m, q, 0); }
    MulLe(m, 1, q);
  }

  /** The distance from 2^p up to the next multiple of `ad`. */
  function Delta(ad: int, p: nat): int
    requires ad > 0
  {
    ad - Pow2(p) % ad
  }

  /** The stopping condition of the search: 2^p > nc * (d - 2^p mod d). */
  predicate Enough(ad: int, anc: int, p: nat)
    requires ad > 0
  {
    Pow2(p) > anc * Delta(ad, p)
  }

  lemma EnoughByQuotients(ad: int, anc: int, p: nat, q1: int, r1: int, q2: int, r2: int)
    requires ad > 0 && anc > 0
    requires q1 * anc + r1 == Pow2(p) && 0 <= r1 < anc
    requires q2 * ad + r2 == Pow2(p) && 0 <= r2 < ad
    ensures Delta(ad, p) == ad - r2
    ensures Pow2(p) / ad == q2
    ensures Enough(ad, anc, p) <==> !(q1 < ad - r2 || (q1 == ad - r2 && r1 == 0))
  {
    DivModUnique(Pow2(p), ad, q2, r2);
    ExceedsMultiple(anc, q1, r1, ad - r2);
  }

  lemma ExceedsMultiple(m: int, q: int, r: int, k: int)
    requires 0 <= r < m
    ensures q * m + r > m * k <==> q > k || (q == k && r > 0)
  {
    if q < k {
      MulLe(m, q + 1, k);
    } else if q > k {
      MulLe(m, k + 1, q);
    }
  }

  lemma EnoughAt62(d: i32)
    requires NeedsMagic(d)
    ensures Enough(Abs(d), Anc(d), 62)
  {
    var _ := AncFacts(d);
    NotAPow2(d);
    var anc, delta := Anc(d), Delta(Abs(d), 62);
    Pow2Values();
    Pow2Add(31, 31);
    ProductBound(anc, delta);
  }

  lemma ProductBound(a: int, b: int)
    requires 0 < a <= TWO31 && 0 <= b < TWO31
    ensures a * b < TWO31 * TWO31
  {
    MulLe(a, b, TWO31 - 1);
    MulLe(TWO31 - 1, a, TWO31);
  }

  /** The first p at which the search may stop. */
  function LeastP(ad: int, anc: int, p: nat): nat
    requires ad > 0
    decreases 62 - p
  {
    if p >= 62 || Enough(ad, anc, p) then p else LeastP(ad, anc, p + 1)
  }

  lemma {:induction false} LeastPIsLeast(d: i32, p: nat)
    requires NeedsMagic(d) && p <= 62
    ensures p <= LeastP(Abs(d), Anc(d), p) <= 62
    ensures Enough(Abs(d), Anc(d), LeastP(Abs(d), Anc(d), p))
    ensures forall q: nat | p <= q < LeastP(Abs(d), Anc(d), p) :: !Enough(Abs(d), Anc(d), q)
    decreases 62 - p
  {
    if p == 62 {
      EnoughAt62(d);
    } else if !Enough(Abs(d), Anc(d), p) {
      LeastPIsLeast(d, p + 1);
    }
  }

  function MagicP(d: i32): (p: nat)
    requires d != 0
  {
    LeastP(Abs(d), Anc(d), 32)
  }

  /** The multiplier (2^p + delta) / |d|, before it is cut to 32 bits. */
  function Multiplier(d: i32): int
    requires d != 0
  {
    Pow2(MagicP(d)) / Abs(d) + 1
  }

  /** What `signedMagic` returns. */
  function SignedM(d: i32): i32
    requires d != 0
  {
    if d < 0 then Wrap(-(Wrap(Multiplier(d)) as int)) else Wrap(Multiplier(d))
  }

  function SignedShift(d: i32): int
    requires d != 0
  {
    MagicP(d) - 32
  }

  /** While the search continues, no doubling of a `uint32_t` wraps. */
  lemma DoublingFits(d: i32, p: nat, q1: int, r1: int, q2: int, r2: int)
    requires NeedsMagic(d) && p >= 31
    requires p == 31 || !Enough(Abs(d), Anc(d), p)
    requires Searching(d, p, q1, r1, q2, r2)
    ensures 0 <= q1 && 2 * q1 + 1 < TWO32 && 2 * r1 < TWO32
    ensures 0 <= q2 && 2 * q2 + 2 < TWO32 && 2 * r2 < TWO32
  {
    var _ := AncFacts(d);
    NotAPow2(d);
    Pow2Values();
    NoMultipleIsPow2(Abs(d), q2, Pow2(p));
    if p > 31 {
      EnoughByQuotients(Abs(d), Anc(d), p, q1, r1, q2, r2);
    }
    QuotientBounds(Abs(d), Anc(d), Pow2(p), q1, r1, q2, r2);
  }

  lemma QuotientBounds(ad: int, anc: int, x: int, q1: int, r1: int, q2: int, r2: int)
    requires 3 <= ad < TWO31 && TWO31 / 2 <= anc <= TWO31 && x > 0
    requires q1 * anc + r1 == x && 0 <= r1 < anc
    requires q2 * ad + r2 == x && 0 < r2 < ad
    requires x == TWO31 || q1 <= ad - r2
    requires x == TWO31 || x <= anc * (ad - r2)
    ensures 0 <= q1 < TWO31 && 0 <= q2 < TWO31 - 1
  {
    if q1 < 0 { MulLe(anc, q1, -1); }
    if q2 < 0 { MulLe(ad, q2, -1); }
    if x == TWO31 {
      if q1 > 2 { MulLe(anc, 3, q1); }
      MulLe(q2, 3, ad);
    } else {
      MulLe(ad - r2, anc, TWO31);
      if q2 >= TWO31 - 1 { MulLe(ad, TWO31 - 1, q2); }
    }
  }

  /** q and r are the quotient and the remainder of 2^p by m. */
  ghost predicate Splits(p: nat, m: int, q: int, r: int) {
    q * m + r == Pow2(p) && 0 <= r < m
  }

  /** The loop's invariant: both quotients and remainders of 2^p. */
  ghost predicate Searching(d: i32, p: nat, q1: int, r1: int, q2: int, r2: int)
    requires d != 0
  {
    Splits(p, Anc(d), q1, r1) && Splits(p, Abs(d), q2, r2)
  }

  /** No p from 32 up to `end` lets the search stop. */
  ghost predicate NoneBefore(d: i32, end: nat)
    requires d != 0
  {
    forall q: nat | 32 <= q < end :: !Enough(Abs(d), Anc(d), q)
  }

  lemma SearchStart(d: i32)
    requires NeedsMagic(d)
    ensures 0 < Anc(d) <= TWO31 && 0 < Abs(d) < TWO31
    ensures 0 <= TWO31 / Anc(d) * Anc(d) <= TWO31 && 0 <= TWO31 / Abs(d) * Abs(d) <= TWO31
    ensures 0 <= TWO31 / Anc(d) < TWO32 && 0 <= TWO31 / Abs(d) < TWO31
    ensures Searching(d, 31, TWO31 / Anc(d), TWO31 - TWO31 / Anc(d) * Anc(d),
                      TWO31 / Abs(d), TWO31 - TWO31 / Abs(d) * Abs(d))
  {
    var _ := AncFacts(d);
    NotAPow2(d);
    Pow2Values();
    QuotientOf(TWO31, Anc(d));
    QuotientOf(TWO31, Abs(d));
    var q1, r1, q2, r2 := TWO31 / Anc(d), TWO31 % Anc(d), TWO31 / Abs(d), TWO31 % Abs(d);
    DoublingFits(d, 31, q1, r1, q2, r2);
  }

  /** One turn of the loop: the doubled quotients and remainders, reduced. */
  lemma SearchStep(d: i32, p: nat, q1: int, r1: int, q2: int, r2: int)
    requires NeedsMagic(d) && Searching(d, p, q1, r1, q2, r2)
    ensures var (a, b) := Reduce(2 * q1, 2 * r1, Anc(d));
            var (c, e) := Reduce(2 * q2, 2 * r2, Abs(d));
            Searching(d, p + 1, a, b, c, e)
  {
    assert Pow2(p + 1) == 2 * Pow2(p);
    ReduceKeeps(q1, r1, Anc(d));
    ReduceKeeps(q2, r2, Abs(d));
  }

  function Reduce(q: int, r: int, m: int): (int, int) {
    if r >= m then (q + 1, r - m) else (q, r)
  }

  lemma ReduceKeeps(q: int, r: int, m: int)
    requires 0 <= r < m
    ensures var (a, b) := Reduce(2 * q, 2 * r, m);
            a * m + b == 2 * (q * m + r) && 0 <= b < m
  {
    assert 2 * q * m == 2 * (q * m);
    assert (2 * q + 1) * m == 2 * q * m + m;
  }

  /** The decision at the end of a turn is whether p is enough. */
  lemma SearchTest(d: i32, p: nat, q1: int, r1: int, q2: int, r2: int)
    requires NeedsMagic(d) && Searching(d, p, q1, r1, q2, r2)
    ensures Pow2(p) / Abs(d) == q2 && 0 <= r2 < Abs(d)
    ensures Enough(Abs(d), Anc(d), p) <==> !(q1 < Abs(d) - r2 || (q1 == Abs(d) - r2 && r1 == 0))
  {
    var _ := AncFacts(d);
    EnoughByQuotients(Abs(d), Anc(d), p, q1, r1, q2, r2);
  }

  /** Where the search stops is where its results are read. */
  lemma SearchEnd(d: i32, p: nat, q1: int, r1: int, q2: int, r2: int)
    requires NeedsMagic(d) && Searching(d, p, q1, r1, q2, r2)
    requires 32 <= p <= 62 && Enough(Abs(d), Anc(d), p) && NoneBefore(d, p)
    ensures SignedShift(d) == p - 32
    ensures SignedM(d) == if d < 0 then -(Wrap(q2 + 1) as int) else Wrap(q2 + 1)
  {
    hide Pow2, Enough, LeastP, Splits, Delta, NeedsMagic, Anc;
    LeastPIsLeast(d, 32);
    SearchTest(d, p, q1, r1, q2, r2);
    MultiplierFacts(d);
  }

  /** `q *= 2; r *= 2; if (r >= m) { q++; r -= m; }` without wrapping. */
  method DoubleMod(q: u32, r: u32, m: u32) returns (q': u32, r': u32)
    requires 2 * q + 1 < TWO32 && 2 * r < TWO32
    ensures (q', r') == Reduce(2 * q, 2 * r, m)
  {
    q' := q * 2;
    r' := r * 2;
    if r' >= m {
      q' := q' + 1;
      r' := r' - m;
    }
  }

  /**
   * The search, in `uint32_t` variables: every assignment stays in range, so
   * nothing wraps, and it ends at the least p >= 32 that is enough.
   */
  method ComputeSignedMagic(d: i32) returns (M: i32, s: int)
    requires NeedsMagic(d)
    ensures M == SignedM(d) && s == SignedShift(d)
  {
    hide Pow2, Multiplier, Delta, NeedsMagic, Splits, Enough, LeastP, SignedM, SignedShift;
    SearchStart(d);
    var two31: u32 := 0x8000_0000;
    var ad: u32 := Abs(d);
    var t: u32 := two31 + U(d) / TWO31;
    var anc: u32 := t - 1 - t % ad;
    var p: nat := 31;
    var q1: u32 := two31 / anc;
    var r1: u32 := two31 - q1 * anc;
    var q2: u32 := two31 / ad;
    var r2: u32 := two31 - q2 * ad;
    var again := true;
    while again
      invariant 31 <= p <= 62
      invariant Searching(d, p, q1, r1, q2, r2)
      invariant NoneBefore(d, if again then p + 1 else p)
      invariant !again ==> p >= 32 && Enough(ad, anc, p)
      invariant q2 + 1 < TWO32
      decreases 62 - p, again
    {
      DoublingFits(d, p, q1, r1, q2, r2);
      SearchStep(d, p, q1, r1, q2, r2);
      EnoughAt62(d);
      p := p + 1;
      q1, r1 := DoubleMod(q1, r1, anc);
      q2, r2 := DoubleMod(q2, r2, ad);
      SearchTest(d, p, q1, r1, q2, r2);
      var delta: u32 := ad - r2;
      again := q1 < delta || (q1 == delta && r1 == 0);
    }
    SearchEnd(d, p, q1, r1, q2, r2);
    M := Wrap(q2 + 1);
    if d < 0 {
      M := -M;
    }
    s := p - 32;
  }

  /** The multiplier fits 32 unsigned bits and is never 2^31. */
  lemma MultiplierFacts(d: i32)
    requires NeedsMagic(d)
    ensures 0 < Multiplier(d) < TWO32 && Multiplier(d) != TWO31
    ensures Multiplier(d) * Abs(d) == Pow2(MagicP(d)) + Delta(Abs(d), MagicP(d))
    ensures 1 <= Delta(Abs(d), MagicP(d)) < Abs(d)
  {
    hide Pow2, LeastP, Enough, NeedsMagic, Anc;
    NotAPow2(d);
    LeastPIsLeast(d, 32);
    var ad: int, p := Abs(d), MagicP(d);
    var x := Pow2(p);
    QuotientOf(x, ad);
    NoMultipleIsPow2(ad, x / ad, x);
    MultiplierFits(d);
    if Multiplier(d) == TWO31 {
      Pow2Values();
      Pow2Add(31, p - 31);
    }
  }

  lemma MultiplierFits(d: i32)
    requires NeedsMagic(d)
    ensures Multiplier(d) < TWO32
  {
    LeastPIsLeast(d, 32);
    var _ := AncFacts(d);
    var ad: int, anc, p := Abs(d), Anc(d), MagicP(d);
    var x, h := Pow2(p), Pow2(p - 1);
    QuotientOf(x, ad);
    QuotientOf(h, ad);
    QuotientOf(h, anc);
    DoublingFits(d, p - 1, h / anc, h % anc, h / ad, h % ad);
    HalfQuotient(ad, h / ad, h % ad, x / ad, x % ad);
  }

  lemma QuotientOf(x: int, m: int)
    requires x > 0 && m > 0
    ensures x / m * m + x % m == x && x / m >= 0
  {
  }

  lemma HalfQuotient(m: int, a: int, b: int, q: int, r: int)
    requires 0 <= b < m && 0 <= r < m && q * m + r == 2 * (a * m + b)
    ensures q <= 2 * a + 1
  {
    if q > 2 * a + 1 { MulLe(m, 2 * a + 2, q); }
  }

  // ---- exactness ------------------------------------------------------------

  /** The register contents after the signed sequence for n / c. */
  function SignedSequence(n: i32, c: i32): i32
    requires c != 0 && SignedShift(c) >= 0
  {
    var shifted := Sra(Corrected(n, c, SignedM(c)), SignedShift(c));
    Add(shifted, Srl(shifted, 31))
  }

  lemma LessScaled(a: int, x: int, y: int)
    requires a > 0
    ensures x < y <==> x * a < y * a
  {
    if x < y { MulLe(a, x + 1, y); } else { MulLe(a, y, x); }
  }

  lemma FloorIs(t: int, P: int, q: int)
    requires P > 0 && q * P <= t
    ensures t / P == q <==> t < (q + 1) * P
  {
    var f, g := t / P, t % P;
    assert t == f * P + g;
    if t < (q + 1) * P {
      DivModUnique(t, P, q, t - q * P);
    }
  }

  /** Where x * m lies among the multiples of P. */
  lemma ProductPosition(x: int, m: int, ad: int, P: int, e: int, q: int, r: int)
    requires ad > 0 && P > 0 && 0 <= r < ad && x == q * ad + r
    requires m * ad == P + e
    ensures x * e >= 0 ==> q * P <= x * m
    ensures x * e > 0 ==> q * P < x * m
    ensures x * m < (q + 1) * P <==> x * e < (ad - r) * P
    ensures x * m <= (q + 1) * P <==> x * e <= (ad - r) * P
  {
    var t, A, B, C, E := x * m, q * P, r * P, ad * P, x * e;
    assert t * ad == x * (m * ad) == x * P + E;
    assert x * P == A * ad + B by { assert x * P == (q * ad + r) * P; }
    assert B >= 0 by { MulLe(P, 0, r); }
    assert (q + 1) * P == A + P;
    assert (A + P) * ad == A * ad + C;
    assert (ad - r) * P == C - B;
    LessScaled(ad, t, A);
    LessScaled(ad, A, t);
    LessScaled(ad, t, A + P);
    LessScaled(ad, A + P, t);
  }

  /** Whether floor(x / |d|) comes out of the multiplier is a question of size. */
  lemma FloorExact(x: int, m: int, ad: int, P: int, e: int, q: int, r: int)
    requires ad > 0 && P > 0 && 0 <= r < ad && x == q * ad + r
    requires m * ad == P + e && x * e >= 0
    ensures x * m / P == q <==> x * e < (ad - r) * P
  {
    ProductPosition(x, m, ad, P, e, q, r);
    FloorIs(x * m, P, q);
  }

  /** For a negative product the floor is one further from zero. */
  lemma FloorExactNegative(x: int, m: int, ad: int, P: int, e: int, q: int, r: int)
    requires ad > 0 && P > 0 && 0 <= r < ad && x == q * ad + r
    requires m * ad == P + e && x * e > 0 && x * e <= (ad - r) * P
    ensures -(x * m) / P == -q - 1
  {
    ProductPosition(x, m, ad, P, e, q, r);
    assert (-q - 1) * P == -((q + 1) * P);
    assert (-q - 1 + 1) * P == -(q * P);
    FloorIs(-(x * m), P, -q - 1);
  }

  /** The error term of a dividend that is small, or not last in its multiple. */
  lemma SmallError(ad: int, anc: int, P: int, e: int, x: int, r: int)
    requires 0 <= r < ad && e > 0 && anc * e < P && 0 <= x <= 2 * anc
    requires x <= anc || r <= ad - 2
    ensures x * e < (ad - r) * P
  {
    if x <= anc {
      MulLe(P, 1, ad - r);
      MulLe(e, x, anc);
    } else {
      MulLe(P, 2, ad - r);
      MulLe(e, x, 2 * anc);
      assert e * (2 * anc) == 2 * (anc * e);
    }
  }

  lemma Division(x: int, m: int)
    requires m > 0
    ensures x == x / m * m + x % m && 0 <= x % m < m
  {
  }

  /**
   * The error term of the multiplier, over every magnitude of a dividend: at
   * most 2^31, and 2^31 itself only when the quotient is negative for d > 0.
   */
  lemma ErrorBound(d: i32, x: int)
    requires NeedsMagic(d) && 0 <= x <= TWO31
    ensures var (P, e) := (Pow2(MagicP(d)), Delta(Abs(d), MagicP(d)));
            && x * e <= (Abs(d) - x % Abs(d)) * P
            && (d < 0 || x < TWO31 ==> x * e < (Abs(d) - x % Abs(d)) * P)
  {
    hide Pow2, LeastP, NeedsMagic, Anc, Multiplier, Delta;
    NotAPow2(d);
    LeastPIsLeast(d, 32);
    MultiplierFacts(d);
    var k := AncFacts(d);
    var ad: int := Abs(d);
    Division(x, ad);
    if x <= Anc(d) || x % ad <= ad - 2 {
      SmallError(ad, Anc(d), Pow2(MagicP(d)), Delta(ad, MagicP(d)), x, x % ad);
    } else {
      LastMultiple(ad, k, x / ad, x, Anc(d));
      assert x == TWO31 && d > 0;
      ExtremeDividend(d, x / ad);
    }
  }

  lemma LastMultiple(ad: int, k: int, q: int, x: int, anc: int)
    requires ad > 0 && anc + 1 == ad * k && x == q * ad + (ad - 1) && x > anc
    ensures x >= anc + ad
  {
    if q + 1 <= k { MulLe(ad, q + 1, k); } else { MulLe(ad, k + 1, q + 1); }
  }

  /** When 2^31 is one short of a multiple of d, the search stops at once. */
  lemma ExtremeDividend(d: i32, q: int)
    requires NeedsMagic(d) && d > 0 && TWO31 == q * d + (d - 1)
    ensures MagicP(d) == 32 && Delta(d, 32) == 2
    ensures TWO31 * 2 == Pow2(32)
  {
    hide Pow2, Log2Exact;
    Pow2Values();
    ExtremeRemainders(d, q);
    assert Anc(d) == TWO31 - d;
    assert Enough(d, Anc(d), 32);
  }

  lemma ExtremeRemainders(d: int, q: int)
    requires d >= 3 && TWO31 == q * d + (d - 1)
    ensures TWO31 % d == d - 1 && TWO32 % d == d - 2
  {
    DivModUnique(TWO31, d, q, d - 1);
    assert (2 * q + 1) * d == 2 * (q * d) + d;
    DivModUnique(TWO32, d, 2 * q + 1, d - 2);
  }

  /** The dividend as the sequence sees it, with the divisor made positive. */
  function Towards(n: int, c: int): int {
    if c > 0 then n else -n
  }

  /** The shifted product of a signed dividend: its quotient, or one below. */
  lemma ShiftedProduct(n: i32, c: i32)
    requires NeedsMagic(c)
    ensures var y := Towards(n, c) * Multiplier(c);
            y / Pow2(MagicP(c)) == (if Towards(n, c) >= 0 then TDiv(n, c) else TDiv(n, c) - 1)
  {
    hide Pow2, MagicP, Multiplier, Delta, NeedsMagic;
    MultiplierFacts(c);
    ErrorBound(c, Abs(n));
    Division(Abs(n), Abs(c));
    SignedFloor(Towards(n, c), Abs(n), Multiplier(c), Abs(c), Pow2(MagicP(c)),
                Delta(Abs(c), MagicP(c)), Abs(n) / Abs(c), Abs(n) % Abs(c));
  }

  lemma SignedFloor(z: int, x: int, m: int, ad: int, P: int, e: int, q: int, r: int)
    requires ad > 0 && P > 0 && 0 <= r < ad && x == q * ad + r
    requires m * ad == P + e && e > 0 && x * e <= (ad - r) * P
    requires (z == x >= 0 && x * e < (ad - r) * P) || z == -x < 0
    ensures z * m / P == if z >= 0 then q else -q - 1
  {
    if z >= 0 {
      MulLe(e, 0, x);
      FloorExact(x, m, ad, P, e, q, r);
    } else {
      MulLe(e, 1, x);
      assert (-x) * m == -(x * m);
      FloorExactNegative(x, m, ad, P, e, q, r);
    }
  }

  /** The high words of n times each of the register images of m and -m. */
  lemma HighWords(n: int, m: int)
    requires -TWO31 <= n < TWO31 && 0 < m < TWO32
    ensures n * (m - TWO32) / TWO32 == n * m / TWO32 - n
    ensures n * (-m) / TWO32 == (-n) * m / TWO32
    ensures n * (TWO32 - m) / TWO32 == (-n) * m / TWO32 + n
    ensures -TWO31 <= n * m / TWO32 < TWO31
    ensures -TWO31 <= (-n) * m / TWO32 < TWO31
  {
    assert n * (m - TWO32) == n * m - n * TWO32;
    assert n * (TWO32 - m) == (-n) * m + n * TWO32;
    assert n * (-m) == (-n) * m;
    HalfProduct(n, m);
    HalfProduct(-n, m);
  }

  lemma HalfProduct(x: int, m: int)
    requires -TWO31 <= x <= TWO31 && 0 < m < TWO32
    ensures -TWO31 * TWO32 < x * m < TWO31 * TWO32
  {
    MulLe(m, x, TWO31);
    MulLe(m, -TWO31, x);
  }

  /** The product's high word, corrected for a multiplier that changed sign. */
  function Corrected(n: i32, c: i32, M: i32): i32 {
    var high := Mulh(n, M);
    if c > 0 && M < 0 then Add(high, n)
    else if c < 0 && M > 0 then Sub(high, n)
    else high
  }

  /** The multiply and its correction give the high word of the full product. */
  lemma CorrectedHighWord(n: i32, c: i32, m: int, M: i32)
    requires 0 < m < TWO32 && m != TWO31
    requires c > 0 ==> M == Wrap(m)
    requires c < 0 ==> M == -(Wrap(m) as int)
    requires c != 0
    ensures Corrected(n, c, M) == Towards(n, c) * m / TWO32
  {
    HighWords(n, m);
    assert Wrap(m) == if m < TWO31 then m else m - TWO32;
    if c > 0 {
      if m < TWO31 {
        assert M == m;
      } else {
        assert M == m - TWO32;
      }
    } else {
      if m < TWO31 {
        assert M == -m;
      } else {
        assert M == TWO32 - m;
      }
    }
  }

  lemma SignBit(w: i32)
    ensures Srl(w, 31) == if w < 0 then 1 else 0
  {
    Pow2Values();
  }

  /**
   * Division by a general constant: for every dividend, `mulh` by the magic
   * number, the conditional add or subtract of the dividend, the shift and the
   * sign add leave the quotient truncated toward zero.
   */
  lemma SignedSequenceDivides(n: i32, c: i32)
    requires NeedsMagic(c)
    ensures 0 <= SignedShift(c) <= 30
    ensures SignedSequence(n, c) == TDiv(n, c)
  {
    hide Pow2, LeastP, Enough, NeedsMagic, Anc, Multiplier, Corrected, TDiv, Delta;
    NotAPow2(c);
    LeastPIsLeast(c, 32);
    MultiplierFacts(c);
    CorrectedHighWord(n, c, Multiplier(c), SignedM(c));
    var s, y := SignedShift(c), Towards(n, c) * Multiplier(c);
    DivDiv(y, TWO32, Pow2(s));
    Pow2Values();
    Pow2Add(32, s);
    ShiftedProduct(n, c);
    SignBit(Sra(Corrected(n, c, SignedM(c)), s));
    TDivSign(n, c);
    DivRemRange(n, c);
  }

  lemma TDivSign(n: i32, c: i32)
    requires c != 0
    ensures Towards(n, c) >= 0 ==> TDiv(n, c) >= 0
    ensures Towards(n, c) <= 0 ==> TDiv(n, c) <= 0
  {
    NaturalQuotient(Abs(n), Abs(c));
  }

  // ---- the unsigned sequence -------------------------------------------------

  /** ceil(2^32 / d). */
  function UnsignedM(d: int): int
    requires d >= 1
  {
    (TWO32 + d - 1) / d
  }

  /** What the rounding up to `UnsignedM` adds to 2^32. */
  function UnsignedError(d: int): int
    requires d >= 1
  {
    UnsignedM(d) * d - TWO32
  }

  lemma UnsignedMFacts(d: int)
    requires 2 <= d < TWO32
    ensures 0 < UnsignedM(d) < TWO32
    ensures 0 <= UnsignedError(d) < d
    ensures TWO32 % d != 0 ==> UnsignedError(d) == d - TWO32 % d
  {
    var x := TWO32 + d - 1;
    Division(x, d);
    Division(TWO32, d);
    CeilRange(x, d, x / d, x % d);
    if TWO32 % d != 0 {
      var q, r := TWO32 / d, TWO32 % d;
      assert (q + 1) * d == q * d + d;
      DivModUnique(x, d, q + 1, r - 1);
    }
  }

  lemma CeilRange(x: int, d: int, q: int, r: int)
    requires 2 <= d < TWO32 && x == TWO32 + d - 1 && x == q * d + r && 0 <= r < d
    ensures 0 < q < TWO32
  {
    if q <= 0 { MulLe(d, q, 0); }
    if q >= TWO32 { MulLe(d, TWO32, q); }
  }

  /** The search over k: it stops at k = 0 for every divisor above 1. */
  method ComputeUnsignedMagic(d: u32) returns (M: u32, s: int)
    requires d >= 1
    ensures d >= 2 ==> M == UnsignedM(d) && s == 0
    ensures d == 1 ==> M == 0 && s == 0
  {
    if d >= 2 { UnsignedMFacts(d); }
    Pow2Values();
    var k := 0;
    while k <= 32
      invariant 0 <= k <= 33
      invariant k > 0 ==> d == 1
    {
      var twoPow := Pow2(32 + k);
      Pow2Monotone(32, 32 + k);
      var m := (twoPow + d - 1) / d;
      if m < TWO32 {
        return m, k;
      }
      k := k + 1;
    }
    return 0, 0;
  }

  /** `mulhu` of the dividend by the unsigned magic number. */
  function UnsignedSequence(n: i32, d: i32): i32
    requires d >= 1
  {
    Mulhu(n, Wrap(UnsignedM(d)))
  }

  /**
   * The unsigned sequence divides a dividend exactly when the error term stays
   * below the gap to the next multiple of d.
   */
  lemma UnsignedSequenceDividesIff(n: i32, d: i32)
    requires d >= 2
    ensures UnsignedSequence(n, d) == U(n) / d
            <==> U(n) * UnsignedError(d) < (d - U(n) % d) * TWO32
  {
    UnsignedMFacts(d);
    var x, m := U(n), UnsignedM(d);
    Division(x, d);
    assert x * UnsignedError(d) >= 0 by { MulLe(UnsignedError(d), 0, x); }
    FloorExact(x, m, d, TWO32, UnsignedError(d), x / d, x % d);
    assert U(Wrap(m)) == m;
    HighUnsigned(x, m, x / d, d);
  }

  lemma HighUnsigned(x: int, m: int, q: int, d: int)
    requires 0 <= x < TWO32 && 0 <= m < TWO32 && d >= 2 && x == q * d + x % d
    ensures 0 <= x * m / TWO32 < TWO32
    ensures 0 <= q < TWO31
    ensures Wrap(x * m / TWO32) == q <==> x * m / TWO32 == q
  {
    MulLe(m, x, TWO32);
    MulLe(m, 0, x);
    if q < 0 { MulLe(d, q, -1); }
    if q >= 0 { MulLe(q, 2, d); }
  }

  /** The dividends that the unsigned sequence is for, in terms of the divisor's error. */
  predicate UnsignedExact(n: i32, d: i32)
    requires d >= 1
  {
    n >= 0 && n * UnsignedError(d) < (d - n % d) * TWO32
  }

  /** On these dividends, and on no other, the unsigned sequence is the signed quotient. */
  lemma UnsignedExactIff(n: i32, d: i32)
    requires d >= 2
    ensures UnsignedSequence(n, d) == TDiv(n, d) <==> UnsignedExact(n, d)
  {
    hide UnsignedM;
    UnsignedSequenceDividesIff(n, d);
    if n < 0 { NegativeFails(n, d); }
  }

  /** A negative dividend, read as unsigned, has a positive quotient. */
  lemma NegativeFails(n: i32, d: i32)
    requires d >= 2 && n < 0
    ensures UnsignedSequence(n, d) > 0 >= TDiv(n, d)
  {
    var x, m := U(n), UnsignedM(d);
    UnsignedMFacts(d);
    hide UnsignedM;
    assert m * d >= TWO32;
    assert U(Wrap(m)) == m;
    HalfMultiplier(m, d);
    HighPositive(x, m, d);
    NonPositiveQuotient(n, d);
  }

  lemma HalfMultiplier(m: int, d: i32)
    requires d >= 2 && m == UnsignedM(d)
    ensures m <= TWO31
  {
    if m > TWO31 {
      MulLe(m, 2, d);
      UnsignedMFacts(d);
      assert m * d < TWO32 + d;
      MulLe(d, TWO31 + 1, m);
      MulLe(TWO31, 2, d);
    }
  }

  lemma HighPositive(x: int, m: int, d: int)
    requires TWO31 <= x < TWO32 && 0 < m <= TWO31 && 2 <= d < TWO31 && m * d >= TWO32
    ensures 0 < x * m / TWO32 < TWO31
  {
    MulLe(m, d, x);
    MulLe(m, x, TWO32);
    MulLe(x, m, TWO31);
    assert x * m < TWO32 * TWO31;
  }

  lemma NonPositiveQuotient(n: int, d: int)
    requires n < 0 && d >= 2
    ensures TDiv(n, d) <= 0
  {
  }

  // ---- where the searches are defined ---------------------------------------------------

  /** No division of `signedMagic` is by zero: those by |d|, and those by anc. */
  predicate SignedSearchDefined(d: i32) {
    Abs(d) != 0 && Anc(d) != 0
  }

  /** `unsignedMagic` divides by its argument. */
  predicate UnsignedSearchDefined(d: i32) {
    U(d) != 0
  }

  /** Both searches are defined for every constant but 0. */
  lemma SearchDefinedIff(d: i32)
    ensures SignedSearchDefined(d) <==> d != 0
    ensures UnsignedSearchDefined(d) <==> d != 0
  {
    if d != 0 {
      var t := TWO31 + U(d) / TWO31;
      assert t % Abs(d) < Abs(d) <= TWO31;
    }
  }

  /**
   * The divisors for which the unsigned sequence is right on every dividend a
   * non-negative `int` can hold: those whose signed search stops at p = 32.
   */
  lemma UnsignedSequenceDividesAllIff(d: i32)
    requires NeedsMagic(d) && d > 0
    ensures (forall n: i32 | n >= 0 :: UnsignedSequence(n, d) == TDiv(n, d))
            <==> SignedShift(d) == 0
  {
    hide Pow2, NeedsMagic, LeastP, UnsignedSequence, UnsignedM, UnsignedError, TDiv, Anc, Enough;
    NotAPow2(d);
    LeastPIsLeast(d, 32);
    var k := AncFacts(d);
    var anc := Anc(d);
    ErrorIsDelta(d);
    if SignedShift(d) == 0 {
      forall n: i32 | n >= 0 ensures UnsignedSequence(n, d) == TDiv(n, d) {
        NonNegativeDivides(n, d);
      }
    } else {
      AncRemainder(d, anc, k);
      Pow2Values();
      UnsignedSequenceDividesIff(anc, d);
      NotEnough(d);
      assert UnsignedSequence(anc, d) != TDiv(anc, d);
    }
  }

  lemma NotEnough(d: i32)
    requires NeedsMagic(d) && d > 0 && SignedShift(d) != 0
    ensures TDiv(Anc(d), d) == Anc(d) / d
    ensures Anc(d) * UnsignedError(d) >= TWO32
  {
    hide Pow2, NeedsMagic, UnsignedError, Delta;
    NotAPow2(d);
    ErrorIsDelta(d);
    Pow2Values();
    var _ := AncFacts(d);
  }

  lemma ErrorIsDelta(d: i32)
    requires NeedsMagic(d) && d > 0
    ensures UnsignedError(d) == Delta(d, 32) && 0 < UnsignedError(d)
  {
    hide Pow2, NeedsMagic, UnsignedM;
    NotAPow2(d);
    Pow2Values();
    Division(TWO32, d);
    NoMultipleIsPow2(d, TWO32 / d, TWO32);
    UnsignedMFacts(d);
  }

  lemma AncRemainder(d: int, anc: int, k: int)
    requires d >= 1 && anc + 1 == d * k
    ensures anc % d == d - 1
  {
    assert (k - 1) * d == d * k - d;
    DivModUnique(anc, d, k - 1, d - 1);
  }

  lemma NonNegativeDivides(n: i32, d: i32)
    requires NeedsMagic(d) && d > 0 && SignedShift(d) == 0 && n >= 0
    ensures UnsignedSequence(n, d) == TDiv(n, d)
  {
    hide Pow2, NeedsMagic, LeastP, UnsignedSequence, UnsignedM, UnsignedError, Delta, Anc, Multiplier;
    NotAPow2(d);
    Pow2Values();
    ErrorIsDelta(d);
    ErrorBound(d, n);
    UnsignedSequenceDividesIff(n, d);
  }

  /** A non-negative dividend that the unsigned sequence divides wrongly. */
  lemma UnsignedSequenceFails()
    ensures NeedsMagic(7)
    ensures UnsignedSequence(2147483645, 7) == 306783378
    ensures TDiv(2147483645, 7) == 306783377
  {
    assert UnsignedM(7) == 613566757;
    assert 2147483645 * 613566757 / TWO32 == 306783378;
  }
}
