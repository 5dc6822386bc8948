/**
 The block reward: a constant plus a decaying part, from a fixed-point table with linear interpolation.
 */
module Reward {
  import opened Digits
  import Ledger

  const BASE_REWARD: nat := 100_000_000
  const DECAY_COMPONENT: nat := 9_900_000_000
  const HALF_LIFE: nat := 6_307_200
  const LUT_SIZE: nat := 4097
  const BUCKET_SIZE: nat := 1540
  const ONE_Q64: nat := 0x1_0000_0000_0000_0000
  const K: nat := 18_443_622_869_203_936_790
  const U128_MAX: nat := 0xFFFF_FFFF_FFFF_FFFF_FFFF_FFFF_FFFF_FFFF

  // ---- The table ----

  /** Entry `i`: powers of K in 64-bit fixed point, rounded down at every step. */
  function Lut(i: nat): nat {
    if i == 0 then ONE_Q64 else Lut(i - 1) * K / ONE_Q64
  }

  lemma FloorMonotone(a: nat, b: nat, d: nat)
    requires a <= b && d > 0
    ensures a / d <= b / d
  {
    var p, q := a / d, b / d;
    assert a == p * d + a % d && b == q * d + b % d;
    if p > q {
      MulMonotone(q + 1, p, d);
      Distribute(q, 1, d);
    }
  }

  lemma NextEntry(x: nat)
    ensures x * K / ONE_Q64 <= x
    ensures (x * K / ONE_Q64) * ONE_Q64 <= x * K < (x * K / ONE_Q64 + 1) * ONE_Q64
  {
    var q := x * K / ONE_Q64;
    assert x * K == q * ONE_Q64 + x * K % ONE_Q64;
    Distribute(q, 1, ONE_Q64);
    MulMonotone(K, ONE_Q64, x);
    QuotientUnique(x * ONE_Q64, ONE_Q64, x, 0);
    FloorMonotone(x * K, x * ONE_Q64, ONE_Q64);
  }

  lemma {:induction false} LutDecreases(i: nat, j: nat)
    requires i <= j
    ensures Lut(j) <= Lut(i) <= ONE_Q64
    decreases j
  {
    if i < j {
      LutDecreases(i, j - 1);
      NextEntry(Lut(j - 1));
    } else if i > 0 {
      LutDecreases(0, i - 1);
      NextEntry(Lut(i - 1));
    }
  }

  lemma LutStep(i: nat)
    ensures Lut(0) == ONE_Q64 && (i > 0 ==> Lut(i) == Lut(i - 1) * K / ONE_Q64)
  {
  }

  method BuildLut() returns (table: array<nat>)
    ensures fresh(table) && table.Length == LUT_SIZE && forall i | 0 <= i < LUT_SIZE :: table[i] == Lut(i)
  {
    hide Lut;
    table := new nat[LUT_SIZE](_ => 0);
    table[0] := ONE_Q64;
    LutStep(0);
    var i := 1;
    while i < LUT_SIZE
      invariant 1 <= i <= LUT_SIZE && forall j | 0 <= j < i :: table[j] == Lut(j)
    {
      LutDecreases(0, i - 1);
      ProductFits(table[i - 1]);
      LutStep(i);
      table[i] := table[i - 1] * K / ONE_Q64;
      i := i + 1;
    }
  }

  /** No entry overflows 128 bits on the way. */
  lemma ProductFits(x: nat)
    requires x <= ONE_Q64
    ensures x * K <= U128_MAX
  {
    MulMonotone(x, ONE_Q64, K);
  }

  // ---- The last entry is at least one half ----

  lemma MulStep(l: nat, y: nat, x: nat, e: nat, x': nat, y': nat)
    requires (x + e) * ONE_Q64 >= l * y && x' == x * K / ONE_Q64 && y' == y * K / ONE_Q64
    ensures (x' + e + 1) * ONE_Q64 >= l * y'
  {
    NextEntry(x);
    NextEntry(y);
    // (x' + 1) * 2^64 > x * K, and l * y' * 2^64 <= l * y * K <= (x + e) * 2^64 * K
    MulMonotone(y' * ONE_Q64, y * K, l);
    MulMonotone(l * y, (x + e) * ONE_Q64, K);
    MulAssoc(l, y, K);
    MulAssoc(l, y', ONE_Q64);
    Cancel(l * y', (x + e) * K);
    Distribute(x, e, K);
    MulMonotone(K, ONE_Q64, e);
    Distribute(x' + 1, e, ONE_Q64);
  }

  lemma Cancel(a: nat, b: nat)
    requires a * ONE_Q64 <= b * ONE_Q64
    ensures a <= b
  {
  }

  /** Powers multiply, up to one unit for every rounding on the way. */
  lemma {:induction false} LutProduct(i: nat, j: nat)
    ensures (Lut(i + j) + j) * ONE_Q64 >= Lut(i) * Lut(j)
    decreases j
  {
    if j == 0 {
      assert Lut(0) == ONE_Q64;
    } else {
      LutProduct(i, j - 1);
      assert i + (j - 1) == i + j - 1;
      MulStep(Lut(i), Lut(j - 1), Lut(i + j - 1), j - 1, Lut(i + j), Lut(j));
    }
  }

  /** From a lower bound at `n` to one at `2n`. */
  lemma SquareStep(n: nat, b: nat, c: nat)
    requires Lut(n) >= b && (c + n - 1) * ONE_Q64 < b * b && n > 0
    ensures Lut(2 * n) >= c
  {
    LutProduct(n, n);
    assert n + n == 2 * n;
    MulMonotone(b, Lut(n), b);
    MulMonotone(b, Lut(n), Lut(n));
    if Lut(2 * n) < c {
      MulMonotone(Lut(2 * n) + n, c + n - 1, ONE_Q64);
    }
  }

  /** Twelve squarings of the first entry stay above one half at the last entry. */
  lemma LastEntry()
    ensures Lut(4096) >= ONE_Q64 / 2
  {
    assert Lut(1) == Lut(0) * K / ONE_Q64 == K;
    hide Lut;
    SquareStep(1, 18443622869203936790, 18440502192808731418);
    SquareStep(2, 18440502192808731418, 18434262423992137266);
    SquareStep(4, 18434262423992137266, 18421789219753179475);
    SquareStep(8, 18421789219753179475, 18396868124856590207);
    SquareStep(16, 18396868124856590207, 18347127029626796276);
    SquareStep(32, 18347127029626796276, 18248047942564105424);
    SquareStep(64, 18248047942564105424, 18051492034775930969);
    SquareStep(128, 18051492034775930969, 17664708925299830903);
    SquareStep(256, 17664708925299830903, 16915827539467639331);
    SquareStep(512, 16915827539467639331, 15511963531430366413);
    SquareStep(1024, 15511963531430366413, 13044091230352169980);
    SquareStep(2048, 13044091230352169980, 9223758693993434954);
  }

  // ---- The reward ----

  /** The interpolated fraction `r` blocks into a half-life. */
  function Interpolate(r: nat): nat
    requires r < HALF_LIFE
  {
    var bucket, frac := r / BUCKET_SIZE, r % BUCKET_SIZE;
    LutDecreases(bucket, bucket + 1);
    InterpolationSafe(Lut(bucket) - Lut(bucket + 1), frac);
    Lut(bucket) - (Lut(bucket) - Lut(bucket + 1)) * frac / BUCKET_SIZE
  }

  /** The correction never exceeds the distance to the next entry. */
  lemma InterpolationSafe(diff: nat, frac: nat)
    requires frac < BUCKET_SIZE
    ensures 0 <= diff * frac / BUCKET_SIZE <= diff
  {
    MulMonotone(frac, BUCKET_SIZE, diff);
    QuotientUnique(diff * BUCKET_SIZE, BUCKET_SIZE, diff, 0);
    FloorMonotone(diff * frac, diff * BUCKET_SIZE, BUCKET_SIZE);
  }

  /** The decaying part. */
  function Decay(height: nat): nat {
    var q, r := height / HALF_LIFE, height % HALF_LIFE;
    if q >= 64 then 0
    else
      PowPositive(2, 64 + q);
      DECAY_COMPONENT * Interpolate(r) / Pow(2, 64 + q)
  }

  function BlockReward(height: nat): nat {
    BASE_REWARD + Decay(height)
  }

  /** The reward as computed: by whole half-lives, table bucket and fraction, with its early returns. */
  method ComputeReward(table: array<nat>, height: nat) returns (reward: nat)
    requires table.Length == LUT_SIZE && forall i | 0 <= i < LUT_SIZE :: table[i] == Lut(i)
    ensures reward == BlockReward(height) && reward <= Ledger.U64_MAX
  {
    hide Lut, Pow;
    RewardBounds(height);
    var q, r := height / HALF_LIFE, height % HALF_LIFE;
    if q >= 128 { return BASE_REWARD; }
    BucketInRange(r);
    var bucket, frac := r / BUCKET_SIZE, r % BUCKET_SIZE;
    LutDecreases(bucket, bucket + 1);
    LutDecreases(0, bucket);
    var lo, hi := table[bucket], table[bucket + 1];
    var diff: nat := lo - hi;
    InterpolationSafe(diff, frac);
    SmallProducts(diff, frac, lo - diff * frac / BUCKET_SIZE);
    var interp: nat := lo - diff * frac / BUCKET_SIZE;
    var product := DECAY_COMPONENT * interp;
    var shift := 64 + q;
    PowPositive(2, shift);
    var decay := if shift >= 128 then 0 else product / Pow(2, shift);
    reward := BASE_REWARD + decay;
  }

  /** The table is never indexed past its end. */
  lemma BucketInRange(r: nat)
    requires r < HALF_LIFE
    ensures r / BUCKET_SIZE + 1 < LUT_SIZE
  {
  }

  /** Both 128-bit products stay in range. */
  lemma SmallProducts(diff: nat, frac: nat, interp: nat)
    requires diff <= ONE_Q64 && frac < BUCKET_SIZE && interp <= ONE_Q64
    ensures diff * frac <= U128_MAX && DECAY_COMPONENT * interp <= U128_MAX
  {
    MulMonotone(diff, ONE_Q64, frac);
    MulMonotone(frac, BUCKET_SIZE, ONE_Q64);
  }

  lemma InterpolateBounds(r: nat)
    requires r < HALF_LIFE
    ensures Lut(r / BUCKET_SIZE + 1) <= Interpolate(r) <= Lut(r / BUCKET_SIZE) <= ONE_Q64
  {
    hide Lut;
    var bucket, frac := r / BUCKET_SIZE, r % BUCKET_SIZE;
    LutDecreases(bucket, bucket + 1);
    InterpolationSafe(Lut(bucket) - Lut(bucket + 1), frac);
  }

  lemma PowGrows(a: nat, b: nat)
    requires a <= b
    ensures 0 < Pow(2, a) <= Pow(2, b)
  {
    hide Pow;
    PowSum(2, a, b - a);
    PowPositive(2, a);
    PowPositive(2, b - a);
    MulMonotone(1, Pow(2, b - a), Pow(2, a));
  }

  lemma Pow64()
    ensures Pow(2, 64) == ONE_Q64
  {
    assert Pow(2, 4) == 2 * Pow(2, 3) && Pow(2, 3) == 2 * Pow(2, 2) && Pow(2, 2) == 2 * Pow(2, 1) && Pow(2, 1) == 2 * Pow(2, 0);
    PowSum(2, 4, 4);
    PowSum(2, 8, 8);
    PowSum(2, 16, 16);
    PowSum(2, 32, 32);
  }

  lemma SmallerQuotient(a: nat, b: nat, d: nat, e: nat)
    requires a <= b && 0 < e <= d
    ensures a / d <= b / e
  {
    var q := a / d;
    assert a == q * d + a % d;
    MulMonotone(e, d, q);
    QuotientUnique(q * e, e, q, 0);
    FloorMonotone(q * e, b, e);
  }

  /** The reward lies between the base and the base plus the full decay component, and fits 64 bits. */
  lemma RewardBounds(height: nat)
    ensures BASE_REWARD <= BlockReward(height) <= BASE_REWARD + DECAY_COMPONENT <= Ledger.U64_MAX
  {
    hide Lut, Pow;
    var q, r := height / HALF_LIFE, height % HALF_LIFE;
    InterpolateBounds(r);
    if q < 64 {
      PowGrows(64, 64 + q);
      Pow64();
      MulMonotone(Interpolate(r), ONE_Q64, DECAY_COMPONENT);
      SmallerQuotient(DECAY_COMPONENT * Interpolate(r), DECAY_COMPONENT * ONE_Q64, Pow(2, 64 + q), ONE_Q64);
      QuotientUnique(DECAY_COMPONENT * ONE_Q64, ONE_Q64, DECAY_COMPONENT, 0);
    }
  }

  /** Within a half-life the interpolation never increases. */
  lemma InterpolateDecreases(r: nat, s: nat)
    requires r <= s < HALF_LIFE
    ensures Interpolate(s) <= Interpolate(r)
  {
    hide Lut;
    var b, c := r / BUCKET_SIZE, s / BUCKET_SIZE;
    InterpolateBounds(r);
    InterpolateBounds(s);
    LutDecreases(b, b + 1);
    if b == c {
      var diff: nat := Lut(b) - Lut(b + 1);
      assert r % BUCKET_SIZE <= s % BUCKET_SIZE;
      MulMonotone(r % BUCKET_SIZE, s % BUCKET_SIZE, diff);
      FloorMonotone(diff * (r % BUCKET_SIZE), diff * (s % BUCKET_SIZE), BUCKET_SIZE);
    } else {
      FloorMonotone(r, s, BUCKET_SIZE);
      LutDecreases(b + 1, c);
    }
  }

  /** Over the end of a half-life: the next one starts no higher, because the last table entry is at least one half. */
  lemma HalfLifeBoundary(q: nat, r: nat, s: nat)
    requires r < HALF_LIFE && s < HALF_LIFE
    ensures Pow(2, 64 + q) > 0 && Pow(2, 65 + q) > 0
    ensures DECAY_COMPONENT * Interpolate(s) / Pow(2, 65 + q) <= DECAY_COMPONENT * Interpolate(r) / Pow(2, 64 + q)
  {
    hide Lut, Pow, Interpolate;
    PowPositive(2, 64 + q);
    PowDouble(64 + q);
    AboveHalf(r);
    InterpolateBounds(s);
    HalfQuotient(DECAY_COMPONENT * Interpolate(s), DECAY_COMPONENT * Interpolate(r), Pow(2, 64 + q));
  }

  lemma PowDouble(n: nat)
    ensures Pow(2, n + 1) == 2 * Pow(2, n)
  {
  }

  lemma AboveHalf(r: nat)
    requires r < HALF_LIFE
    ensures 2 * Interpolate(r) >= ONE_Q64
  {
    hide Lut, Interpolate;
    InterpolateDecreases(r, HALF_LIFE - 1);
    InterpolateBounds(HALF_LIFE - 1);
    LastEntry();
  }

  lemma HalfQuotient(x: nat, y: nat, d: nat)
    requires d > 0 && x <= 2 * y
    ensures x / (2 * d) <= y / d
  {
    FloorMonotone(x, 2 * y, 2 * d);
    var q, r := y / d, y % d;
    assert y == q * d + r;
    assert 2 * y == q * (2 * d) + 2 * r;
    QuotientUnique(2 * y, 2 * d, q, 2 * r);
  }

  /** One block later the reward is never higher. */
  lemma RewardStep(height: nat)
    ensures BlockReward(height + 1) <= BlockReward(height)
  {
    hide Lut, Pow, Interpolate;
    var q, r := height / HALF_LIFE, height % HALF_LIFE;
    NextHeight(height);
    if q < 64 {
      PowPositive(2, 64 + q);
      if r + 1 < HALF_LIFE {
        InterpolateDecreases(r, r + 1);
        MulMonotone(Interpolate(r + 1), Interpolate(r), DECAY_COMPONENT);
        FloorMonotone(DECAY_COMPONENT * Interpolate(r + 1), DECAY_COMPONENT * Interpolate(r), Pow(2, 64 + q));
      } else if q < 63 {
        HalfLifeBoundary(q, r, 0);
      }
    }
  }

  lemma NextHeight(height: nat)
    ensures var q, r := height / HALF_LIFE, height % HALF_LIFE;
            if r + 1 < HALF_LIFE then (height + 1) / HALF_LIFE == q && (height + 1) % HALF_LIFE == r + 1
            else (height + 1) / HALF_LIFE == q + 1 && (height + 1) % HALF_LIFE == 0
  {
  }

  /** The reward never increases with height. */
  lemma {:induction false} RewardNeverIncreases(g: nat, h: nat)
    requires g <= h
    ensures BlockReward(h) <= BlockReward(g)
    decreases h - g
  {
    hide BlockReward;
    if g < h {
      RewardNeverIncreases(g, h - 1);
      RewardStep(h - 1);
    }
  }

  // ---- The value of the reward ----

  /** Every entry is the one before it times K, rounded down in the 64th binary place. */
  lemma LutRecurrence(i: nat)
    ensures Lut(0) == ONE_Q64
    ensures Lut(i + 1) * ONE_Q64 <= Lut(i) * K < (Lut(i + 1) + 1) * ONE_Q64
  {
    LutStep(i + 1);
    NextEntry(Lut(i));
  }

  /** On the grid the fraction is the table entry. */
  lemma OnGrid(b: nat)
    requires BUCKET_SIZE * b < HALF_LIFE
    ensures Interpolate(BUCKET_SIZE * b) == Lut(b)
  {
    hide Lut;
    QuotientUnique(BUCKET_SIZE * b, BUCKET_SIZE, b, 0);
  }

  /** Between two entries it lies on the chord, rounded up: what is taken off the left entry is rounded down. */
  lemma OnChord(r: nat)
    requires r < HALF_LIFE
    ensures var b := r / BUCKET_SIZE;
            && Lut(b + 1) <= Interpolate(r) <= Lut(b)
            && var taken, width: nat := Lut(b) - Interpolate(r), Lut(b) - Lut(b + 1);
            BUCKET_SIZE * taken <= width * (r % BUCKET_SIZE) < BUCKET_SIZE * (taken + 1)
  {
    hide Lut;
    var b := r / BUCKET_SIZE;
    InterpolateBounds(r);
    var n := (Lut(b) - Lut(b + 1)) * (r % BUCKET_SIZE);
    assert n == (n / BUCKET_SIZE) * BUCKET_SIZE + n % BUCKET_SIZE;
  }

  /** The first block pays everything. */
  lemma FirstReward()
    ensures BlockReward(0) == BASE_REWARD + DECAY_COMPONENT == 10_000_000_000
  {
    hide Pow;
    OnGrid(0);
    LutStep(0);
    Pow64();
    QuotientUnique(DECAY_COMPONENT * ONE_Q64, ONE_Q64, DECAY_COMPONENT, 0);
  }

  /** In the first half-life the decaying part is the fraction of the whole, rounded down. */
  lemma FirstHalfLife(r: nat)
    requires r < HALF_LIFE
    ensures var d := BlockReward(r) - BASE_REWARD;
            d * ONE_Q64 <= DECAY_COMPONENT * Interpolate(r) < (d + 1) * ONE_Q64
  {
    hide Lut, Pow, Interpolate;
    Pow64();
    var n := DECAY_COMPONENT * Interpolate(r);
    assert r / HALF_LIFE == 0 && r % HALF_LIFE == r;
    assert n == (n / ONE_Q64) * ONE_Q64 + n % ONE_Q64;
    Distribute(n / ONE_Q64, 1, ONE_Q64);
  }

  /** A half-life later the decaying part is one half, rounded down, at every height. */
  lemma Halves(height: nat)
    ensures BlockReward(height + HALF_LIFE) - BASE_REWARD == (BlockReward(height) - BASE_REWARD) / 2
  {
    hide Lut, Pow, Interpolate;
    var q, r := height / HALF_LIFE, height % HALF_LIFE;
    NextHalfLife(height);
    if q < 64 {
      PowPositive(2, 64 + q);
      PowDouble(64 + q);
      HalfOf(DECAY_COMPONENT * Interpolate(r), Pow(2, 64 + q));
      if q == 63 { VanishesAtLast(r); }
    }
  }

  lemma NextHalfLife(height: nat)
    ensures (height + HALF_LIFE) / HALF_LIFE == height / HALF_LIFE + 1 && (height + HALF_LIFE) % HALF_LIFE == height % HALF_LIFE
  {
  }

  lemma HalfOf(n: nat, d: nat)
    requires d > 0
    ensures n / (2 * d) == (n / d) / 2
  {
    var q, r := n / d, n % d;
    assert n == q * d + r;
    HalfParts(n, d, q, r);
  }

  lemma HalfParts(n: nat, d: nat, q: nat, r: nat)
    requires d > 0 && n == q * d + r && r < d
    ensures n / (2 * d) == q / 2
  {
    var p, s := q / 2, q % 2;
    Distribute(2 * p, s, d);
    MulAssoc(2, p, d);
    MulAssoc(p, 2, d);
    if s == 0 {
      QuotientUnique(n, 2 * d, p, r);
    } else {
      QuotientUnique(n, 2 * d, p, d + r);
    }
  }

  /** In the last half-life that counts nothing is left. */
  lemma VanishesAtLast(r: nat)
    requires r < HALF_LIFE
    ensures Pow(2, 127) > 0 && DECAY_COMPONENT * Interpolate(r) / Pow(2, 127) == 0
  {
    hide Lut, Pow, Interpolate;
    InterpolateBounds(r);
    MulMonotone(Interpolate(r), ONE_Q64, DECAY_COMPONENT);
    Pow64();
    PowSum(2, 64, 63);
    PowGrows(62, 63);
    PowDouble(63);
    assert Pow(2, 64) == 2 * Pow(2, 63);
    QuotientUnique(DECAY_COMPONENT * Interpolate(r), Pow(2, 127), 0, DECAY_COMPONENT * Interpolate(r));
  }
}
