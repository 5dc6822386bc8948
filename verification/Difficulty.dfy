/**
 The 256-bit arithmetic on bytes and limbs, with its exact meaning, and the properties of the retarget rule.
 */
module Difficulty {
  import opened Digits
  import opened WorkSpec

  const ZEROS: seq<nat> := seq(32, _ => 0)
  const ALL_ONES: seq<nat> := seq(32, _ => 255)

  /** 32 bytes, most significant first. */
  type Bytes32 = s: seq<nat> | |s| == 32 && InBase(256, s) witness ZEROS

  // ---- 2 to the power 256 ----

  lemma Pow256()
    ensures Pow(256, 32) == U256_MAX + 1
  {
    assert Pow(256, 2) == 256 * Pow(256, 1) && Pow(256, 1) == 256 * Pow(256, 0);
    PowSum(256, 2, 2);
    PowSum(256, 4, 4);
    PowSum(256, 8, 8);
    PowSum(256, 16, 16);
    assert Pow(256, 4) == 0x1_0000_0000;
    assert Pow(256, 8) == 0x1_0000_0000_0000_0000;
    assert Pow(256, 16) == 0x1_0000_0000_0000_0000_0000_0000_0000_0000;
  }

  function Num(s: Bytes32): (n: U256)
    ensures n == Val(256, s)
  {
    ValBound(256, s);
    Pow256();
    Val(256, s)
  }

  lemma Ends()
    ensures Val(256, []) == 0 && Pow(256, 0) == 1
  {
  }

  lemma AllOnes()
    ensures Num(ALL_ONES) == U256_MAX
  {
    ValMax(256, ALL_ONES);
    Pow256();
  }

  // ---- Addition ----

  lemma AddArith(x: nat, y: nat, carry: nat, p: nat, tail: nat, xs: nat, ys: nat)
    requires tail + carry * p == xs + ys
    ensures var sum := x + y + carry;
            ((sum % 256) * p + tail) + (sum / 256) * (256 * p) == (x * p + xs) + (y * p + ys)
  {
    Carry(256, x + y + carry, p);
    Distribute(x + y, carry, p);
    Distribute(x, y, p);
  }

  lemma AddStep(a: Bytes32, b: Bytes32, tail: seq<nat>, i: nat, carry: nat)
    requires i < 32 && |tail| == 31 - i && carry <= 1 && InBase(256, tail)
    requires Val(256, tail) + carry * Pow(256, 31 - i) == Val(256, a[i + 1..]) + Val(256, b[i + 1..])
    ensures var sum := a[i] + b[i] + carry;
            && sum / 256 <= 1 && InBase(256, [sum % 256] + tail)
            && Val(256, [sum % 256] + tail) + (sum / 256) * Pow(256, 32 - i) == Val(256, a[i..]) + Val(256, b[i..])
  {
    hide Pow, Val;
    ValHead(256, a, i);
    ValHead(256, b, i);
    ValCons(256, (a[i] + b[i] + carry) % 256, tail);
    AddArith(a[i], b[i], carry, Pow(256, 31 - i), Val(256, tail), Val(256, a[i + 1..]), Val(256, b[i + 1..]));
  }

  method AddBytes(a: Bytes32, b: Bytes32) returns (r: Bytes32)
    ensures Num(r) == AddWork(Num(a), Num(b))
  {
    hide Pow, Val;
    var result := new nat[32](_ => 0);
    var carry: nat, i := 0, 32;
    Pow256();
    Ends();
    assert a[32..] == [] && b[32..] == [] && result[32..] == [];
    while i > 0
      invariant 0 <= i <= 32 && carry <= 1 && InBase(256, result[i..])
      invariant Val(256, result[i..]) + carry * Pow(256, 32 - i) == Val(256, a[i..]) + Val(256, b[i..])
    {
      i := i - 1;
      var sum: nat := a[i] + b[i] + carry;
      ghost var tail := result[i + 1..];
      AddStep(a, b, tail, i, carry);
      result[i] := sum % 256;
      carry := sum / 256;
      assert result[i..] == [sum % 256] + tail;
    }
    assert a[0..] == a && b[0..] == b && result[0..] == result[..];
    ValBound(256, result[..]);
    AllOnes();
    r := if carry > 0 then ALL_ONES else result[..];
  }

  // ---- Comparison and subtraction ----

  method AtLeast(a: Bytes32, b: Bytes32) returns (ge: bool)
    ensures ge <==> Num(a) >= Num(b)
  {
    hide Pow, Val;
    for i := 0 to 32
      invariant a[..i] == b[..i]
    {
      SamePrefix(a, b, i);
      if a[i] > b[i] {
        FirstDifference(256, a[i..], b[i..]);
        return true;
      }
      if a[i] < b[i] {
        FirstDifference(256, b[i..], a[i..]);
        return false;
      }
    }
    assert a[..32] == a && b[..32] == b;
    ge := true;
  }

  lemma SamePrefix(a: Bytes32, b: Bytes32, i: nat)
    requires i <= 32 && a[..i] == b[..i]
    ensures Num(a) >= Num(b) <==> Val(256, a[i..]) >= Val(256, b[i..])
  {
    assert a == a[..i] + a[i..] && b == b[..i] + b[i..];
    ValConcat(256, a[..i], a[i..]);
    ValConcat(256, b[..i], b[i..]);
  }

  /** One digit of a subtraction with borrow. */
  function Diff(x: nat, y: nat, borrow: nat): nat
    requires y + borrow <= 256
  {
    if x < y + borrow then x + 256 - y - borrow else x - y - borrow
  }

  function Borrow(x: nat, y: nat, borrow: nat): nat {
    if x < y + borrow then 1 else 0
  }

  lemma SubArith(x: nat, y: nat, borrow: nat, p: nat, tail: nat, xs: nat, ys: nat)
    requires y + borrow <= 256 && tail + ys == xs + borrow * p
    ensures Diff(x, y, borrow) * p + tail + (y * p + ys) == (x * p + xs) + Borrow(x, y, borrow) * (256 * p)
  {
    var d, br := Diff(x, y, borrow), Borrow(x, y, borrow);
    assert d + y + borrow == x + br * 256;
    Distribute(d + y, borrow, p);
    Distribute(d, y, p);
    Distribute(x, br * 256, p);
    MulAssoc(br, 256, p);
  }

  lemma SubStep(x: Bytes32, y: Bytes32, tail: seq<nat>, i: nat, borrow: nat)
    requires i < 32 && |tail| == 31 - i && borrow <= 1 && InBase(256, tail)
    requires Val(256, tail) + Val(256, y[i + 1..]) == Val(256, x[i + 1..]) + borrow * Pow(256, 31 - i)
    ensures var d := Diff(x[i], y[i], borrow);
            && d < 256 && InBase(256, [d] + tail)
            && Val(256, [d] + tail) + Val(256, y[i..]) == Val(256, x[i..]) + Borrow(x[i], y[i], borrow) * Pow(256, 32 - i)
  {
    hide Pow, Val;
    ValHead(256, x, i);
    ValHead(256, y, i);
    ValCons(256, Diff(x[i], y[i], borrow), tail);
    SubArith(x[i], y[i], borrow, Pow(256, 31 - i), Val(256, tail), Val(256, x[i + 1..]), Val(256, y[i + 1..]));
  }

  /** Subtract in place; the difference must not be negative. */
  method SubInPlace(a: array<nat>, b: Bytes32)
    requires a.Length == 32 && InBase(256, a[..]) && Num(a[..]) >= Num(b)
    modifies a
    ensures InBase(256, a[..]) && Num(a[..]) == old(Num(a[..])) - Num(b)
  {
    hide Pow, Val;
    ghost var x: Bytes32 := a[..];
    var borrow: nat, i := 0, 32;
    Ends();
    assert a[32..] == [] && x[32..] == [] && b[32..] == [];
    while i > 0
      invariant 0 <= i <= 32 && borrow <= 1 && a[..i] == x[..i] && InBase(256, a[i..])
      invariant Val(256, a[i..]) + Val(256, b[i..]) == Val(256, x[i..]) + borrow * Pow(256, 32 - i)
    {
      i := i - 1;
      ghost var tail := a[i + 1..];
      assert a[i] == x[i];
      SubStep(x, b, tail, i, borrow);
      var d := Diff(a[i], b[i], borrow);
      borrow := Borrow(a[i], b[i], borrow);
      a[i] := d;
      assert a[i..] == [d] + tail;
    }
    assert a[0..] == a[..] && x[0..] == x && b[0..] == b;
    ValBound(256, a[..]);
  }

  // ---- Long division, one bit at a time ----

  lemma ShiftArith(x: nat, carry: nat, p: nat, tail: nat, xs: nat)
    requires x < 256 && carry <= 1 && tail + carry * p == 2 * xs
    ensures ((2 * x) % 256 + carry) * p + tail + (x / 128) * (256 * p) == 2 * (x * p + xs)
  {
    var lo, hi := (2 * x) % 256, x / 128;
    assert 2 * x == hi * 256 + lo;
    Distribute(lo, carry, p);
    Distribute(hi * 256, lo, p);
    MulAssoc(hi, 256, p);
    MulAssoc(2, x, p);
  }

  lemma ShiftStep(x: Bytes32, tail: seq<nat>, i: nat, carry: nat)
    requires i < 32 && |tail| == 31 - i && carry <= 1 && InBase(256, tail)
    requires Val(256, tail) + carry * Pow(256, 31 - i) == 2 * Val(256, x[i + 1..])
    ensures var d := (2 * x[i]) % 256 + carry;
            && d < 256 && InBase(256, [d] + tail)
            && Val(256, [d] + tail) + (x[i] / 128) * Pow(256, 32 - i) == 2 * Val(256, x[i..])
  {
    hide Pow, Val;
    ValHead(256, x, i);
    ValCons(256, (2 * x[i]) % 256 + carry, tail);
    ShiftArith(x[i], carry, Pow(256, 31 - i), Val(256, tail), Val(256, x[i + 1..]));
  }

  /** `tail` holds the bytes of twice `x` from position `i` on, with `carry` still to go into the next one. */
  ghost predicate Shifted(x: Bytes32, tail: seq<nat>, i: nat, carry: nat) {
    && i <= 32 && |tail| == 32 - i && carry <= 1 && InBase(256, tail)
    && Val(256, tail) + carry * Pow(256, 32 - i) == 2 * Val(256, x[i..])
    && (if tail == [] then carry == 0 else tail[|tail| - 1] % 2 == 0)
  }

  lemma ShiftedNext(x: Bytes32, tail: seq<nat>, i: nat, carry: nat)
    requires i < 32 && Shifted(x, tail, i + 1, carry)
    ensures Shifted(x, [(2 * x[i]) % 256 + carry] + tail, i, x[i] / 128)
  {
    hide Pow, Val;
    ShiftStep(x, tail, i, carry);
  }

  lemma ShiftedStart(x: Bytes32)
    ensures Shifted(x, [], 32, 0)
  {
    Ends();
    assert x[32..] == [];
  }

  lemma ShiftedEnd(x: Bytes32, s: seq<nat>, carry: nat)
    requires Shifted(x, s, 0, carry) && 2 * Num(x) <= U256_MAX
    ensures InBase(256, s) && Num(s) == 2 * Num(x) && s[31] % 2 == 0
  {
    hide Pow, Val;
    Pow256();
    assert x[0..] == x;
  }

  /** Shift left by one bit in place; the top bit must be clear. */
  method ShiftLeft(a: array<nat>)
    requires a.Length == 32 && InBase(256, a[..]) && 2 * Num(a[..]) <= U256_MAX
    modifies a
    ensures InBase(256, a[..]) && Num(a[..]) == 2 * old(Num(a[..])) && a[31] % 2 == 0
  {
    hide Pow, Val, Num, Shifted;
    ghost var x: Bytes32 := a[..];
    var carry: nat, i := 0, 32;
    ShiftedStart(x);
    assert a[32..] == [];
    while i > 0
      invariant 0 <= i <= 32 && a[..i] == x[..i] && Shifted(x, a[i..], i, carry)
    {
      i := i - 1;
      ghost var tail := a[i + 1..];
      assert a[i] == x[i];
      ShiftedNext(x, tail, i, carry);
      var newCarry := a[i] / 128;
      a[i] := (2 * a[i]) % 256 + carry;
      carry := newCarry;
      assert a[i..] == [a[i]] + tail;
    }
    assert a[0..] == a[..];
    ShiftedEnd(x, a[..], carry);
  }

  /** Bit `k` counted from the most significant. */
  function Bit(a: Bytes32, k: nat): nat
    requires k < 256
  {
    PowPositive(2, 7 - k % 8);
    (a[k / 8] / Pow(2, 7 - k % 8)) % 2
  }

  /** The first `k` bits as a number. */
  function Top(n: nat, k: nat): nat
    requires k <= 256
  {
    PowPositive(2, 256 - k);
    n / Pow(2, 256 - k)
  }

  lemma SmallPowers()
    ensures Pow(2, 0) == 1 && Pow(2, 1) == 2 && Pow(2, 2) == 4 && Pow(2, 3) == 8 && Pow(2, 4) == 16
    ensures Pow(2, 5) == 32 && Pow(2, 6) == 64 && Pow(2, 7) == 128 && Pow(2, 8) == 256
  {
    assert Pow(2, 4) == 2 * Pow(2, 3) && Pow(2, 3) == 2 * Pow(2, 2) && Pow(2, 2) == 2 * Pow(2, 1) && Pow(2, 1) == 2 * Pow(2, 0);
    assert Pow(2, 8) == 2 * Pow(2, 7) && Pow(2, 7) == 2 * Pow(2, 6) && Pow(2, 6) == 2 * Pow(2, 5) && Pow(2, 5) == 2 * Pow(2, 4);
  }

  lemma NestedRemainders(n: nat, a: nat, b: nat, q: nat, r: nat, q2: nat, r2: nat)
    requires n == q * a + r && r < a && q == q2 * b + r2 && r2 < b
    ensures n == q2 * (a * b) + (r2 * a + r) && r2 * a + r < a * b
  {
    Distribute(q2 * b, r2, a);
    MulAssoc(q2, b, a);
    assert b * a == a * b;
    MulMonotone(r2 + 1, b, a);
    Distribute(r2, 1, a);
  }

  lemma DivDiv(n: nat, a: nat, b: nat)
    requires a > 0 && b > 0
    ensures a * b > 0 && n / (a * b) == (n / a) / b
  {
    var q, r := n / a, n % a;
    var q2, r2 := q / b, q % b;
    MulPositive(a, b);
    NestedRemainders(n, a, b, q, r, q2, r2);
    QuotientUnique(n, a * b, q2, r2 * a + r);
  }

  lemma DivSum(y: nat, p: nat, x: nat)
    requires p > 0
    ensures (y * p + x) / p == y + x / p && (y * p + x) % p == x % p
  {
    var q, r := x / p, x % p;
    assert x == q * p + r;
    Distribute(y, q, p);
    QuotientUnique(y * p + x, p, y + q, r);
  }

  /** A byte is an even multiple of each of its bits. */
  lemma BitDivides(m: nat) returns (p: nat, t: nat)
    requires m < 8
    ensures p > 0 && p == Pow(2, 7 - m) && 2 * p == Pow(2, 8 - m) && 256 == 2 * p * t
  {
    SmallPowers();
    p, t := Pow(2, 7 - m), Pow(2, m);
    assert m == 0 || m == 1 || m == 2 || m == 3 || m == 4 || m == 5 || m == 6 || m == 7;
  }

  /** Within one byte: the next bit after a leading part. */
  lemma ByteBits(g: nat, x: nat, m: nat)
    requires x < 256 && m < 8
    ensures Pow(2, 8 - m) > 0 && Pow(2, 7 - m) > 0
    ensures (g * 256 + x) / Pow(2, 7 - m) == 2 * ((g * 256 + x) / Pow(2, 8 - m)) + (x / Pow(2, 7 - m)) % 2
  {
    hide Pow;
    var p, t := BitDivides(m);
    var n := g * 256 + x;
    var y := 2 * (g * t);
    assert n == y * p + x by { EvenSplit(g, p, t); }
    DivSum(y, p, x);
    DivDiv(n, p, 2);
    assert n / p == 2 * (n / p / 2) + (n / p) % 2;
    assert (y + x / p) % 2 == (x / p) % 2;
    assert p * 2 == 2 * p;
  }

  lemma EvenSplit(g: nat, p: nat, t: nat)
    requires 256 == 2 * p * t
    ensures g * 256 == 2 * (g * t) * p
  {
  }

  /** The leading bits split at a byte boundary. */
  lemma TopAt(a: Bytes32, i: nat, m: nat)
    requires i < 32 && m <= 8
    ensures Pow(2, 8 - m) > 0 && Top(Num(a), 8 * i + m) == Val(256, a[..i + 1]) / Pow(2, 8 - m)
  {
    hide Val;
    var hi, lo, r := Val(256, a[..i + 1]), Val(256, a[i + 1..]), Pow(256, 31 - i);
    assert a == a[..i + 1] + a[i + 1..];
    ValConcat(256, a[..i + 1], a[i + 1..]);
    ValBound(256, a[i + 1..]);
    PowPositive(256, 31 - i);
    PowPositive(2, 8 - m);
    QuotientUnique(Num(a), r, hi, lo);
    SmallPowers();
    PowPow(2, 8, 31 - i);
    PowSum(2, 8 * (31 - i), 8 - m);
    assert 8 * (31 - i) + (8 - m) == 256 - (8 * i + m);
    DivDiv(Num(a), r, Pow(2, 8 - m));
  }

  lemma NextBit(a: Bytes32, k: nat)
    requires k < 256
    ensures Top(Num(a), k + 1) == 2 * Top(Num(a), k) + Bit(a, k)
  {
    hide Val, Pow, Top;
    var i, m := k / 8, k % 8;
    TopAt(a, i, m);
    TopAt(a, i, m + 1);
    assert a[..i + 1] == a[..i] + [a[i]];
    ValSnoc(256, a[..i], a[i]);
    ByteBits(Val(256, a[..i]), a[i], m);
  }

  /** Or a bit into a byte. */
  function OrBit(x: nat, j: nat): nat {
    PowPositive(2, j);
    if (x / Pow(2, j)) % 2 == 1 then x else x + Pow(2, j)
  }

  /** A byte whose bits from `m` on are clear. */
  predicate ClearFrom(x: nat, m: nat)
    requires m <= 8
  {
    PowPositive(2, 8 - m);
    x < 256 && x % Pow(2, 8 - m) == 0
  }

  lemma OrClear(x: nat, m: nat)
    requires m < 8 && ClearFrom(x, m)
    ensures OrBit(x, 7 - m) == x + Pow(2, 7 - m) && ClearFrom(OrBit(x, 7 - m), m + 1) && ClearFrom(x, m + 1)
  {
    hide Pow;
    var p, t := BitDivides(m);
    var c := x / (2 * p);
    assert x == c * (2 * p);
    EvenMultiple(x, p, c, t);
    DivSum(2 * c, p, 0);
    DivSum(2 * c + 1, p, 0);
    Distribute(2 * c, 1, p);
  }

  lemma EvenMultiple(x: nat, p: nat, c: nat, t: nat)
    requires p > 0 && x == c * (2 * p) && x < 256 && 256 == 2 * p * t
    ensures x == (2 * c) * p && x + p < 256
  {
    if c >= t { MulMonotone(t, c, 2 * p); }
    MulMonotone(c + 1, t, 2 * p);
  }

  /** The quotient so far: clear from bit `k` on, with value `n` at bit `k`. */
  ghost predicate Quotient(q: seq<nat>, k: nat, n: nat)
    requires k <= 256
  {
    && |q| == 32 && InBase(256, q) && Val(256, q) == n * Pow(2, 256 - k)
    && (forall j | 0 <= j < 32 && 8 * j >= k :: q[j] == 0)
    && (k < 256 ==> ClearFrom(q[k / 8], k % 8))
  }

  lemma {:induction false} ValUpdate(s: seq<nat>, i: nat, d: nat)
    requires i < |s|
    ensures Val(256, s[i := s[i] + d]) == Val(256, s) + d * Pow(256, |s| - 1 - i)
  {
    var t := s[i := s[i] + d];
    var p := Pow(256, |s| - 1 - i);
    assert s == s[..i] + s[i..] && t == t[..i] + t[i..] && t[..i] == s[..i] && t[i + 1..] == s[i + 1..];
    ValConcat(256, s[..i], s[i..]);
    ValConcat(256, t[..i], t[i..]);
    ValHead(256, s, i);
    ValHead(256, t, i);
    Distribute(s[i], d, p);
  }

  lemma QuotientSkip(q: seq<nat>, k: nat, n: nat)
    requires k < 256 && Quotient(q, k, n)
    ensures Quotient(q, k + 1, 2 * n)
  {
    hide Val, Pow;
    PowHalf(k);
    MulAssoc(n, 2, Pow(2, 255 - k));
    OrClear(q[k / 8], k % 8);
    NextByte(q, k, n);
  }

  lemma PowHalf(k: nat)
    requires k < 256
    ensures Pow(2, 256 - k) == 2 * Pow(2, 255 - k)
  {
  }

  /** After the last bit of a byte the next byte is still clear. */
  lemma NextByte(q: seq<nat>, k: nat, n: nat)
    requires k < 256 && Quotient(q, k, n)
    ensures k + 1 < 256 && k % 8 == 7 ==> (k + 1) / 8 == k / 8 + 1 && ClearFrom(q[(k + 1) / 8], 0)
    ensures k % 8 < 7 ==> (k + 1) / 8 == k / 8 && (k + 1) % 8 == k % 8 + 1
  {
    hide Val, Pow;
    PowPositive(2, 8);
    if k % 8 == 7 && k + 1 < 256 { assert q[(k + 1) / 8] == 0; }
  }

  lemma QuotientSet(q: seq<nat>, k: nat, n: nat)
    requires k < 256 && Quotient(q, k, n)
    ensures Quotient(q[k / 8 := OrBit(q[k / 8], 7 - k % 8)], k + 1, 2 * n + 1)
  {
    hide Val, Pow;
    var i, m := k / 8, k % 8;
    OrClear(q[i], m);
    ValUpdate(q, i, Pow(2, 7 - m));
    BitWeight(i, m);
    PowHalf(k);
    MulAssoc(n, 2, Pow(2, 255 - k));
    Distribute(2 * n, 1, Pow(2, 255 - k));
    NextByte(q, k, n);
  }

  lemma BitWeight(i: nat, m: nat)
    requires i < 32 && m < 8
    ensures Pow(2, 7 - m) * Pow(256, 31 - i) == Pow(2, 255 - (8 * i + m))
  {
    SmallPowers();
    PowPow(2, 8, 31 - i);
    PowSum(2, 7 - m, 8 * (31 - i));
    assert (7 - m) + 8 * (31 - i) == 255 - (8 * i + m);
  }

  /** The invariant of the division: leading bits of the dividend = quotient times divisor plus remainder. */
  ghost predicate Dividing(a: Bytes32, b: Bytes32, r: seq<nat>, q: seq<nat>, k: nat, n: nat)
    requires k <= 256
  {
    && |r| == 32 && InBase(256, r) && Quotient(q, k, n)
    && Top(Num(a), k) == n * Num(b) + Num(r) && Num(r) < Num(b)
  }

  lemma Pow2Is256()
    ensures Pow(2, 256) == U256_MAX + 1
  {
    SmallPowers();
    PowPow(2, 8, 32);
    Pow256();
  }

  lemma TopSmall(a: Bytes32, k: nat)
    requires k <= 256
    ensures Top(Num(a), k) < Pow(2, k)
  {
    hide Val, Pow;
    PowPositive(2, 256 - k);
    Pow2Is256();
    PowSum(2, k, 256 - k);
    TopBelow(Num(a), Pow(2, 256 - k), Pow(2, k));
  }

  lemma HalfRange(k: nat)
    requires k < 256
    ensures 2 * Pow(2, k) <= U256_MAX + 1
  {
    Pow2Is256();
    hide Pow;
    PowSum(2, k + 1, 255 - k);
    PowPositive(2, 255 - k);
    MulMonotone(1, Pow(2, 255 - k), Pow(2, k + 1));
    PowStep(k);
  }

  lemma PowStep(k: nat)
    ensures Pow(2, k + 1) == 2 * Pow(2, k)
  {
  }

  /** The bit that the shift drops is always clear. */
  lemma NoBitLost(a: Bytes32, b: Bytes32, r: seq<nat>, q: seq<nat>, k: nat, n: nat)
    requires k < 256 && Dividing(a, b, r, q, k, n)
    ensures 2 * Num(r) <= U256_MAX
  {
    hide Val, Pow, Top, Quotient;
    TopSmall(a, k);
    HalfRange(k);
    MulMonotone(0, n, Num(b));
  }

  lemma TopBelow(n: nat, t: nat, p: nat)
    requires t > 0 && n < p * t
    ensures n / t < p
  {
    var q := n / t;
    assert n == q * t + n % t;
    if q >= p { MulMonotone(p, q, t); }
  }

  lemma StepArith(top: nat, bit: nat, n: nat, b: nat, r: nat)
    requires top == n * b + r && r < b && bit <= 1
    ensures 2 * top + bit == (2 * n) * b + (2 * r + bit)
    ensures 2 * r + bit >= b ==> 2 * top + bit == (2 * n + 1) * b + (2 * r + bit - b) && 2 * r + bit - b < b
  {
    MulAssoc(2, n, b);
    Distribute(2 * n, 1, b);
  }

  lemma EvenPlusBit(s: Bytes32, bit: nat)
    requires s[31] % 2 == 0 && bit <= 1
    ensures InBase(256, s[31 := s[31] + bit]) && Val(256, s[31 := s[31] + bit]) == Num(s) + bit
  {
    ValUpdate(s, 31, bit);
    Ends();
  }

  /** Exact quotient for every nonzero divisor. */
  method DivBytes(a: Bytes32, b: Bytes32) returns (r: Bytes32)
    requires Num(b) > 0
    ensures Num(r) == Num(a) / Num(b)
  {
    hide Val, Pow, Num, Top, Quotient, Bit, OrBit;
    var remainder, quotient := new nat[32](_ => 0), new nat[32](_ => 0);
    ghost var n := 0;
    DivisionStart(a, b, remainder[..], quotient[..]);
    for k := 0 to 256
      invariant Dividing(a, b, remainder[..], quotient[..], k, n)
    {
      n := DivBit(a, b, remainder, quotient, k, n);
    }
    DivisionEnd(a, b, remainder[..], quotient[..], n);
    r := quotient[..];
  }

  /** One bit: shift the remainder, bring the next bit in, subtract the divisor if it fits. */
  method DivBit(a: Bytes32, b: Bytes32, remainder: array<nat>, quotient: array<nat>, k: nat, ghost n: nat) returns (ghost n': nat)
    requires remainder != quotient && remainder.Length == 32 && quotient.Length == 32 && k < 256
    requires Dividing(a, b, remainder[..], quotient[..], k, n)
    modifies remainder, quotient
    ensures Dividing(a, b, remainder[..], quotient[..], k + 1, n')
  {
    hide Val, Pow, Top, Quotient, Bit, OrBit;
    NoBitLost(a, b, remainder[..], quotient[..], k, n);
    QuotientShape(quotient[..], k, n);
    NextBit(a, k);
    var bit := Bit(a, k);
    BitSmall(a, k);
    ghost var r0: Bytes32 := remainder[..];
    ghost var q0 := quotient[..];
    StepArith(Top(Num(a), k), bit, n, Num(b), Num(r0));
    ShiftLeft(remainder);
    ghost var r1: Bytes32 := remainder[..];
    EvenPlusBit(r1, bit);
    remainder[31] := remainder[31] + bit;
    assert remainder[..] == r1[31 := r1[31] + bit];
    var fits := AtLeast(remainder[..], b);
    if fits {
      SubInPlace(remainder, b);
      QuotientSet(q0, k, n);
      quotient[k / 8] := OrBit(quotient[k / 8], 7 - k % 8);
      assert quotient[..] == q0[k / 8 := OrBit(q0[k / 8], 7 - k % 8)];
      n' := 2 * n + 1;
    } else {
      QuotientSkip(q0, k, n);
      n' := 2 * n;
    }
  }

  lemma BitSmall(a: Bytes32, k: nat)
    requires k < 256
    ensures Bit(a, k) <= 1
  {
  }

  lemma QuotientShape(q: seq<nat>, k: nat, n: nat)
    requires k <= 256 && Quotient(q, k, n)
    ensures |q| == 32 && InBase(256, q)
  {
  }

  lemma DivisionStart(a: Bytes32, b: Bytes32, r: seq<nat>, q: seq<nat>)
    requires |r| == 32 && |q| == 32 && Num(b) > 0 && (forall i | 0 <= i < 32 :: r[i] == 0) && (forall i | 0 <= i < 32 :: q[i] == 0)
    ensures Dividing(a, b, r, q, 0, 0)
  {
    hide Pow;
    ValZero(256, r);
    ValZero(256, q);
    PowPositive(2, 8);
    SmallPowers();
    PowPow(2, 8, 32);
    Pow256();
    TopBelow(Num(a), Pow(2, 256), 1);
  }

  lemma DivisionEnd(a: Bytes32, b: Bytes32, r: seq<nat>, q: seq<nat>, n: nat)
    requires Dividing(a, b, r, q, 256, n)
    ensures |q| == 32 && InBase(256, q) && Num(q) == Num(a) / Num(b)
  {
    hide Val;
    assert Pow(2, 0) == 1;
    QuotientUnique(Num(a), Num(b), n, Num(r));
  }

  // ---- Work ----

  /** 2 to the power 256 minus a nonzero target. */
  method Complement(target: Bytes32) returns (r: Bytes32)
    requires Num(target) > 0
    ensures Num(r) == U256_MAX + 1 - Num(target)
  {
    hide Val, Pow;
    var result := new nat[32](_ => 0);
    var borrow: nat, i := 0, 32;
    Ends();
    Pow256();
    ZeroSuffix();
    assert result[32..] == [] && target[32..] == [];
    while i > 0
      invariant 0 <= i <= 32 && borrow <= 1 && InBase(256, result[i..])
      invariant Val(256, result[i..]) + Val(256, target[i..]) == borrow * Pow(256, 32 - i)
    {
      i := i - 1;
      ghost var tail := result[i + 1..];
      SubStep(ZEROS, target, tail, i, borrow);
      var d := Diff(0, target[i], borrow);
      borrow := Borrow(0, target[i], borrow);
      result[i] := d;
      assert result[i..] == [d] + tail;
    }
    assert result[0..] == result[..] && target[0..] == target;
    r := result[..];
  }

  lemma ZeroSuffix()
    ensures forall i | 0 <= i <= 32 :: Val(256, ZEROS[i..]) == 0
  {
    forall i | 0 <= i <= 32 ensures Val(256, ZEROS[i..]) == 0 { ValZero(256, ZEROS[i..]); }
  }

  lemma IncrementStep(x: Bytes32, tail: seq<nat>, i: nat, carry: nat)
    requires i < 32 && |tail| == 31 - i && carry <= 1 && InBase(256, tail)
    requires Val(256, tail) + carry * Pow(256, 31 - i) == Val(256, x[i + 1..]) + 1
    ensures var sum := x[i] + carry;
            && sum / 256 <= 1 && InBase(256, [sum % 256] + tail)
            && Val(256, [sum % 256] + tail) + (sum / 256) * Pow(256, 32 - i) == Val(256, x[i..]) + 1
  {
    hide Pow, Val;
    ValHead(256, x, i);
    ValCons(256, (x[i] + carry) % 256, tail);
    AddArith(x[i], 0, carry, Pow(256, 31 - i), Val(256, tail), Val(256, x[i + 1..]), 1);
  }

  /** Add one; overflow gives the maximum. */
  method Increment(x: Bytes32) returns (r: Bytes32)
    ensures Num(r) == Saturate(Num(x) + 1)
  {
    hide Val, Pow;
    var result := new nat[32](i requires 0 <= i < 32 => x[i]);
    var carry: nat, i := 1, 32;
    Ends();
    Pow256();
    assert result[32..] == [] && x[32..] == [];
    while i > 0
      invariant 0 <= i <= 32 && carry <= 1 && result[..i] == x[..i] && InBase(256, result[i..])
      invariant Val(256, result[i..]) + carry * Pow(256, 32 - i) == Val(256, x[i..]) + 1
    {
      i := i - 1;
      ghost var tail := result[i + 1..];
      assert result[i] == x[i];
      IncrementStep(x, tail, i, carry);
      var sum: nat := result[i] + carry;
      result[i] := sum % 256;
      carry := sum / 256;
      assert result[i..] == [sum % 256] + tail;
    }
    assert result[0..] == result[..] && x[0..] == x;
    ValBound(256, result[..]);
    AllOnes();
    r := if carry > 0 then ALL_ONES else result[..];
  }

  lemma ComplementQuotient(m: nat, t: nat)
    requires 0 < t <= m
    ensures (m - t) / t + 1 == m / t
  {
    var q, r := (m - t) / t, (m - t) % t;
    assert m - t == q * t + r;
    Distribute(q, 1, t);
    QuotientUnique(m, t, q + 1, r);
  }

  method WorkBytes(target: Bytes32) returns (work: Bytes32)
    ensures Num(work) == WorkFromTarget(Num(target))
  {
    hide Val, Pow, Num;
    AllOnes();
    ZeroBytes(target);
    if target == ZEROS { return ALL_ONES; }
    var numerator := Complement(target);
    var quotient := DivBytes(numerator, target);
    work := Increment(quotient);
    ComplementQuotient(U256_MAX + 1, Num(target));
  }

  lemma ZeroBytes(s: Bytes32)
    ensures Num(s) == 0 <==> s == ZEROS
  {
    ValZero(256, s);
    ValZero(256, ZEROS);
  }

  // ---- Multiply, then divide, on 64-bit limbs ----

  const LIMB: nat := 0x1_0000_0000_0000_0000
  const U128_MAX: nat := 0xFFFF_FFFF_FFFF_FFFF_FFFF_FFFF_FFFF_FFFF

  type Limb = n: nat | n < LIMB

  /** Bytes `8i` to `8i + 7` as one number. */
  method LimbAt(s: Bytes32, i: nat) returns (limb: Limb)
    requires i < 4
    ensures limb == Val(256, s[8 * i..8 * i + 8])
  {
    hide Val, Pow;
    Ends();
    LimbRange(s[8 * i..8 * i + 8]);
    var v: nat := 0;
    assert s[8 * i..8 * i] == [];
    for j := 0 to 8
      invariant v == Val(256, s[8 * i..8 * i + j])
    {
      assert s[8 * i..8 * i + j + 1] == s[8 * i..8 * i + j] + [s[8 * i + j]];
      ValSnoc(256, s[8 * i..8 * i + j], s[8 * i + j]);
      v := v * 256 + s[8 * i + j];
    }
    limb := v;
  }

  lemma LimbRange(s: seq<nat>)
    requires |s| == 8 && InBase(256, s)
    ensures Val(256, s) < LIMB && Pow(256, 8) == LIMB
  {
    ValBound(256, s);
    assert Pow(256, 2) == 256 * Pow(256, 1) && Pow(256, 1) == 256 * Pow(256, 0);
    PowSum(256, 2, 2);
    PowSum(256, 4, 4);
  }

  /** Four limbs and 32 bytes are the same number. */
  lemma LimbsAreBytes(s: Bytes32, limbs: seq<nat>)
    requires |limbs| == 4 && forall i | 0 <= i < 4 :: limbs[i] == Val(256, s[8 * i..8 * i + 8])
    ensures Val(LIMB, limbs) == Num(s)
  {
    hide Val, Pow;
    LimbRange(s[0..8]);
    var a, b, c, d := s[0..8], s[8..16], s[16..24], s[24..32];
    assert s == ((a + b) + c) + d;
    ValConcat(256, (a + b) + c, d);
    ValConcat(256, a + b, c);
    ValConcat(256, a, b);
    assert limbs == (([limbs[0]] + [limbs[1]]) + [limbs[2]]) + [limbs[3]];
    OneDigit(limbs[0]);
    ValSnoc(LIMB, [limbs[0]], limbs[1]);
    ValSnoc(LIMB, [limbs[0]] + [limbs[1]], limbs[2]);
    ValSnoc(LIMB, ([limbs[0]] + [limbs[1]]) + [limbs[2]], limbs[3]);
    assert limbs[0] == Val(256, s[8 * 0..8 * 0 + 8]) && limbs[1] == Val(256, s[8 * 1..8 * 1 + 8]);
    assert limbs[2] == Val(256, s[8 * 2..8 * 2 + 8]) && limbs[3] == Val(256, s[8 * 3..8 * 3 + 8]);
  }

  lemma OneDigit(d: nat)
    ensures Val(LIMB, [d]) == d
  {
    assert [d][1..] == [];
    assert Pow(LIMB, 0) == 1;
  }

  lemma MulArith(x: nat, num: nat, carry: nat, p: nat, tail: nat, xs: nat)
    requires tail + carry * p == xs * num
    ensures var v := x * num + carry;
            ((v % LIMB) * p + tail) + (v / LIMB) * (LIMB * p) == (x * p + xs) * num
  {
    var v := x * num + carry;
    Carry(LIMB, v, p);
    Distribute(x * num, carry, p);
    Distribute(x * p, xs, num);
    assert (x * num) * p == (x * p) * num;
  }

  lemma ProductBelow(x: nat, y: nat, c: nat, b: nat)
    requires x < b && y < b && c < b
    ensures x * y + c < b * b
  {
    MulMonotone(x, b, y);
    MulMonotone(y, b - 1, b);
    Distribute(b, 1, b);
  }

  /** A limb product plus carry fits 128 bits, and its carry fits a limb. */
  lemma NoOverflow(x: Limb, num: Limb, carry: Limb)
    ensures x * num + carry <= U128_MAX && (x * num + carry) / LIMB < LIMB
  {
    ProductBelow(x, num, carry, LIMB);
    TopBelow(x * num + carry, LIMB, LIMB);
  }

  /** The 320-bit product as five limbs. */
  method MulLimbs(limbs: seq<Limb>, num: Limb) returns (product: seq<Limb>)
    requires |limbs| == 4
    ensures |product| == 5 && Val(LIMB, product) == Val(LIMB, limbs) * num
  {
    hide Val, Pow;
    var out := new Limb[5](_ => 0);
    var carry: Limb, i := 0, 4;
    LimbEnds();
    assert limbs[4..] == [] && out[5..] == [];
    while i > 0
      invariant 0 <= i <= 4
      invariant Val(LIMB, out[i + 1..]) + carry * Pow(LIMB, 4 - i) == Val(LIMB, limbs[i..]) * num
    {
      i := i - 1;
      ghost var tail := out[i + 2..];
      NoOverflow(limbs[i], num, carry);
      var v: nat := limbs[i] * num + carry;
      MulStep(limbs, num, tail, i, carry);
      out[i + 1] := v % LIMB;
      carry := v / LIMB;
      assert out[i + 1..] == [v % LIMB] + tail;
    }
    ghost var tail := out[1..];
    out[0] := carry;
    assert out[..] == [carry] + tail && limbs[0..] == limbs;
    ValCons(LIMB, carry, tail);
    product := out[..];
  }

  lemma LimbEnds()
    ensures Val(LIMB, []) == 0 && Pow(LIMB, 0) == 1
  {
  }

  lemma MulStep(limbs: seq<Limb>, num: Limb, tail: seq<nat>, i: nat, carry: Limb)
    requires |limbs| == 4 && i < 4 && |tail| == 3 - i
    requires Val(LIMB, tail) + carry * Pow(LIMB, 3 - i) == Val(LIMB, limbs[i + 1..]) * num
    ensures var v := limbs[i] * num + carry;
            Val(LIMB, [v % LIMB] + tail) + (v / LIMB) * Pow(LIMB, 4 - i) == Val(LIMB, limbs[i..]) * num
  {
    hide Val, Pow;
    ValHead(LIMB, limbs, i);
    ValCons(LIMB, (limbs[i] * num + carry) % LIMB, tail);
    MulArith(limbs[i], num, carry, Pow(LIMB, 3 - i), Val(LIMB, tail), Val(LIMB, limbs[i + 1..]));
  }

  /** One digit of the division and what it leaves. */
  function NextDigit(rem: nat, d: nat, den: nat): nat
    requires den > 0
  {
    (rem * LIMB + d) / den
  }

  function NextRest(rem: nat, d: nat, den: nat): nat
    requires den > 0
  {
    (rem * LIMB + d) % den
  }

  lemma DivLimbArith(val: nat, q: nat, rem: nat, d: nat, den: nat)
    requires den > 0 && d < LIMB && rem < den && den < LIMB && val == q * den + rem
    ensures rem * LIMB + d <= U128_MAX && NextDigit(rem, d, den) < LIMB && NextRest(rem, d, den) < den
    ensures val * LIMB + d == (q * LIMB + NextDigit(rem, d, den)) * den + NextRest(rem, d, den)
  {
    var cur := rem * LIMB + d;
    MulMonotone(rem + 1, den, LIMB);
    Distribute(rem, 1, LIMB);
    assert cur < den * LIMB;
    TopBelow(cur, den, LIMB);
    assert cur == (cur / den) * den + cur % den;
    Distribute(q * den, rem, LIMB);
    Distribute(q * LIMB, cur / den, den);
    assert (q * den) * LIMB == (q * LIMB) * den;
  }

  lemma DivLimbStep(product: seq<Limb>, q: seq<nat>, rem: nat, i: nat, den: Limb)
    requires 0 < i < |product| && den > 0 && rem < den && Val(LIMB, product[..i]) == Val(LIMB, q) * den + rem
    ensures var digit, rest := NextDigit(rem, product[i], den), NextRest(rem, product[i], den);
            && rem * LIMB + product[i] <= U128_MAX && digit < LIMB && rest < den
            && Val(LIMB, product[..i + 1]) == Val(LIMB, q + [digit]) * den + rest
  {
    hide Val, Pow, NextDigit, NextRest;
    DivLimbArith(Val(LIMB, product[..i]), Val(LIMB, q), rem, product[i], den);
    assert product[..i + 1] == product[..i] + [product[i]];
    ValSnoc(LIMB, product[..i], product[i]);
    ValSnoc(LIMB, q, NextDigit(rem, product[i], den));
  }

  /** Divide five limbs, unless the quotient needs more than four. */
  method DivLimbs(product: seq<Limb>, den: Limb) returns (q: seq<Limb>, overflow: bool)
    requires |product| == 5 && den > 0
    ensures overflow <==> Val(LIMB, product) / den >= Pow(LIMB, 4)
    ensures !overflow ==> |q| == 4 && Val(LIMB, q) == Val(LIMB, product) / den
  {
    hide Val, Pow, NextDigit, NextRest;
    LimbEnds();
    q := [];
    FirstLimb(product, den);
    var rem: nat := NextRest(0, product[0], den);
    if NextDigit(0, product[0], den) > 0 { return q, true; }
    for i := 1 to 5
      invariant |q| == i - 1 && rem < den
      invariant Val(LIMB, product[..i]) == Val(LIMB, q) * den + rem
    {
      DivLimbStep(product, q, rem, i, den);
      q, rem := q + [NextDigit(rem, product[i], den)], NextRest(rem, product[i], den);
    }
    assert product[..5] == product;
    QuotientUnique(Val(LIMB, product), den, Val(LIMB, q), rem);
    ValBound(LIMB, q);
    overflow := false;
  }

  /** The quotient overflows exactly when the top limb alone has one. */
  lemma FirstLimb(product: seq<Limb>, den: Limb)
    requires |product| == 5 && den > 0
    ensures NextDigit(0, product[0], den) > 0 ==> Val(LIMB, product) / den >= Pow(LIMB, 4)
    ensures NextDigit(0, product[0], den) == 0 ==> Val(LIMB, product[..1]) == NextRest(0, product[0], den)
    ensures NextRest(0, product[0], den) < den
  {
    hide Val, Pow;
    assert product[..1] == [product[0]];
    OneDigit(product[0]);
    assert product[0] == (product[0] / den) * den + product[0] % den;
    ValHead(LIMB, product, 0);
    assert product[0..] == product;
    var p := Pow(LIMB, 4);
    if product[0] >= den {
      MulMonotone(den, product[0], p);
      Floor(Val(LIMB, product), den, p);
    } else {
      TopBelow(product[0], den, 1);
    }
  }

  lemma Floor(n: nat, d: nat, p: nat)
    requires d > 0 && n >= d * p
    ensures n / d >= p
  {
    var q := n / d;
    assert n == q * d + n % d;
    if q < p {
      MulMonotone(q + 1, p, d);
      Distribute(q, 1, d);
    }
  }

  /** Limbs back to bytes. */
  method LimbBytes(limb: Limb) returns (s: seq<nat>)
    ensures |s| == 8 && InBase(256, s) && Val(256, s) == limb
  {
    hide Val, Pow;
    var v: nat := limb;
    Ends();
    s := [];
    LimbRange(seq(8, _ => 0));
    for j := 0 to 8
      invariant |s| == j && InBase(256, s) && v * Pow(256, j) + Val(256, s) == limb
    {
      PutByte(v, s);
      s := [v % 256] + s;
      v := v / 256;
    }
    ValBound(256, s);
    AllOut(v, Val(256, s), limb);
  }

  lemma PutByte(v: nat, s: seq<nat>)
    requires InBase(256, s)
    ensures InBase(256, [v % 256] + s)
    ensures (v / 256) * Pow(256, |s| + 1) + Val(256, [v % 256] + s) == v * Pow(256, |s|) + Val(256, s)
  {
    hide Val, Pow;
    ValCons(256, v % 256, s);
    Carry(256, v, Pow(256, |s|));
  }

  lemma AllOut(v: nat, low: nat, limb: Limb)
    requires v * LIMB + low == limb
    ensures v == 0
  {
  }

  /** floor(v * n / d). */
  function Scaled(v: nat, n: nat, d: nat): nat
    requires d > 0
  {
    var product: nat := v * n;
    product / d
  }

  /** min(floor(value * numerator / denominator), 2^256 - 1). */
  method MulDiv(value: Bytes32, numerator: Limb, denominator: Limb) returns (r: Bytes32)
    requires denominator > 0
    ensures Num(r) == Saturate(Scaled(Num(value), numerator, denominator))
  {
    hide Val, Pow, Num;
    AllOnes();
    var limbs: seq<Limb> := [];
    for i := 0 to 4
      invariant |limbs| == i && forall j | 0 <= j < i :: limbs[j] == Val(256, value[8 * j..8 * j + 8])
    {
      var limb := LimbAt(value, i);
      limbs := limbs + [limb];
    }
    LimbsAreBytes(value, limbs);
    var product := MulLimbs(limbs, numerator);
    var q, overflow := DivLimbs(product, denominator);
    FourLimbs();
    if overflow { return ALL_ONES; }
    var b0 := LimbBytes(q[0]);
    var b1 := LimbBytes(q[1]);
    var b2 := LimbBytes(q[2]);
    var b3 := LimbBytes(q[3]);
    r := b0 + b1 + b2 + b3;
    Slices(b0, b1, b2, b3, q);
    LimbsAreBytes(r, q);
  }

  lemma FourLimbs()
    ensures Pow(LIMB, 4) == U256_MAX + 1
  {
    LimbRange(seq(8, _ => 0));
    PowPow(256, 8, 4);
    Pow256();
  }

  lemma Slices(b0: seq<nat>, b1: seq<nat>, b2: seq<nat>, b3: seq<nat>, q: seq<nat>)
    requires |b0| == |b1| == |b2| == |b3| == 8 && |q| == 4
    requires q[0] == Val(256, b0) && q[1] == Val(256, b1) && q[2] == Val(256, b2) && q[3] == Val(256, b3)
    ensures var r := b0 + b1 + b2 + b3;
            q[0] == Val(256, r[0..8]) && q[1] == Val(256, r[8..16]) && q[2] == Val(256, r[16..24]) && q[3] == Val(256, r[24..32])
  {
    hide Val;
    var low, high := b0 + b1, b2 + b3;
    assert low[..8] == b0 && low[8..] == b1;
    assert high[..8] == b2 && high[8..] == b3;
    assert b0 + b1 + b2 + b3 == low + high;
    Halves(low, high);
  }

  lemma Halves(a: seq<nat>, b: seq<nat>)
    requires |a| == |b| == 16
    ensures (a + b)[0..8] == a[..8] && (a + b)[8..16] == a[8..] && (a + b)[16..24] == b[..8] && (a + b)[24..32] == b[8..]
  {
  }

  // ---- Retargeting ----

  method RetargetBytes(oldTarget: Bytes32, actualTime: Limb) returns (r: Bytes32)
    ensures Num(r) == Retarget(Num(oldTarget), actualTime)
  {
    hide Val, Pow, Num;
    var actual := if actualTime == 0 then 1 else actualTime;
    var minTime, maxTime := EXPECTED_TIME / MAX_RETARGET_FACTOR, EXPECTED_TIME * MAX_RETARGET_FACTOR;
    var clamped := Clamp(actual, minTime, maxTime);
    r := MulDiv(oldTarget, clamped, EXPECTED_TIME);
    ZeroBytes(r);
    if r == ZEROS {
      OneBytes();
      r := ZEROS[31 := 1];
    }
  }

  lemma OneBytes()
    ensures InBase(256, ZEROS[31 := 1]) && Num(ZEROS[31 := 1]) == 1
  {
    ValUpdate(ZEROS, 31, 1);
    ValZero(256, ZEROS);
    Ends();
  }

  lemma DivMonotone(a: nat, b: nat, d: nat)
    requires a <= b && d > 0
    ensures a / d <= b / d
  {
    Floor(b, d, a / d);
  }

  /** A quarter of the expected time, rounded down: two seconds short of it in four windows. */
  const SHORTEST: nat := 10_797

  /** The window that counts: the elapsed time, but no less than a quarter of the expected and no more than four times it. */
  function Window(time: nat): (t: nat)
    ensures SHORTEST <= t <= 4 * EXPECTED_TIME
    ensures t == SHORTEST <==> time <= SHORTEST
  {
    Clamp(if time == 0 then 1 else time, EXPECTED_TIME / MAX_RETARGET_FACTOR, EXPECTED_TIME * MAX_RETARGET_FACTOR)
  }

  /**
   A target is never zero, and never more than four times a nonzero one. It is no less than the fraction of the
   old one that the shortest window gives.
   */
  lemma RetargetBounds(target: U256, time: nat)
    ensures Retarget(target, time) > 0
    ensures target > 0 ==> Retarget(target, time) <= 4 * target
    ensures Retarget(target, time) >= target * SHORTEST / EXPECTED_TIME
  {
    var t := Window(time);
    MulMonotone(t, 4 * EXPECTED_TIME, target);
    DivMonotone(target * t, target * (4 * EXPECTED_TIME), EXPECTED_TIME);
    DivExact(target);
    MulMonotone(SHORTEST, t, target);
    DivMonotone(target * SHORTEST, target * t, EXPECTED_TIME);
    AtMostItself(target);
  }

  lemma AtMostItself(target: nat)
    ensures target * SHORTEST / EXPECTED_TIME <= target && target * EXPECTED_TIME / EXPECTED_TIME == target
  {
    QuotientUnique(target * EXPECTED_TIME, EXPECTED_TIME, target, 0);
    DivMonotone(target * SHORTEST, target * EXPECTED_TIME, EXPECTED_TIME);
  }

  /**
   The new target is at least a quarter of the old one if and only if the window was longer than the shortest, or
   the old target is tiny, or its last two bits make up for the two missing seconds.
   */
  lemma RetargetQuarterIff(target: U256, time: nat)
    ensures Retarget(target, time) >= target / 4 <==>
              time > SHORTEST || target < 8 || 2 * (target / 4) <= SHORTEST * (target % 4)
  {
    hide Saturate;
    var t, q := Window(time), target / 4;
    var scaled := target * t / EXPECTED_TIME;
    SaturateKeeps(scaled, q);
    QuotientIff(target * t, EXPECTED_TIME, q);
    if time > SHORTEST {
      MulMonotone(SHORTEST + 1, t, target);
    }
  }

  lemma SaturateKeeps(n: nat, q: nat)
    requires q <= U256_MAX
    ensures Saturate(n) >= q <==> n >= q
    ensures Saturate(n) == 0 <==> n == 0
  {
  }

  lemma QuotientIff(n: nat, d: nat, q: nat)
    requires d > 0
    ensures n / d >= q <==> n >= d * q
  {
    if n >= d * q { Floor(n, d, q); }
    if n / d >= q {
      assert n == (n / d) * d + n % d;
      MulMonotone(q, n / d, d);
    }
  }

  /** A window without elapsed time takes a target below its quarter. */
  lemma RetargetQuarterExample()
    ensures Retarget(43_190_000, 0) < 43_190_000 / 4
  {
    RetargetQuarterIff(43_190_000, 0);
  }

  lemma DivExact(target: nat)
    ensures target * (4 * EXPECTED_TIME) / EXPECTED_TIME == 4 * target
  {
    QuotientUnique(target * (4 * EXPECTED_TIME), EXPECTED_TIME, 4 * target, 0);
  }

  /** A larger target or a slower window never gives a smaller target. */
  lemma RetargetMonotone(a: U256, b: U256, s: nat, t: nat)
    requires a <= b && s <= t
    ensures Retarget(a, s) <= Retarget(b, t)
  {
    var x, y := Window(s), Window(t);
    MulMonotone(a, b, x);
    MulMonotone(x, y, b);
    DivMonotone(a * x, b * y, EXPECTED_TIME);
  }

  /** A window that took the expected time leaves a nonzero target as it is. */
  lemma RetargetSteady(target: U256)
    requires target > 0
    ensures Retarget(target, EXPECTED_TIME) == target
  {
    QuotientUnique(target * EXPECTED_TIME, EXPECTED_TIME, target, 0);
  }

  /**
   Between the limits the new target is the old one times the elapsed over the expected seconds, rounded down; it is
   never more than 256 bits hold, and 1 where that would be nothing.
   */
  lemma RetargetScales(target: U256, time: nat)
    requires 10_797 <= time <= 172_760
    ensures var r := Retarget(target, time);
            && (target * time < 43_190 ==> r == 1)
            && (target * time >= 43_190 * (U256_MAX + 1) ==> r == U256_MAX)
            && (43_190 <= target * time < 43_190 * (U256_MAX + 1) ==> r * 43_190 <= target * time < (r + 1) * 43_190)
  {
    hide Saturate;
    var n := target * time;
    var q := n / EXPECTED_TIME;
    assert n == q * EXPECTED_TIME + n % EXPECTED_TIME;
    SaturateMeans(q);
  }

  lemma SaturateMeans(n: nat)
    ensures n <= U256_MAX ==> Saturate(n) == n
    ensures n > U256_MAX ==> Saturate(n) == U256_MAX
  {
  }

  /** A shorter window counts as 10797 seconds, and a longer one as 172760. */
  lemma RetargetClamps(target: U256, time: nat)
    ensures time < 10_797 ==> Retarget(target, time) == Retarget(target, 10_797)
    ensures time > 172_760 ==> Retarget(target, time) == Retarget(target, 172_760)
  {
  }

  /** Work is the number of times that the target goes into 2 to the power 256, as far as 256 bits hold it. */
  lemma WorkMeans(target: U256)
    ensures target <= 1 ==> WorkFromTarget(target) == U256_MAX
    ensures target > 1 ==>
              var w := WorkFromTarget(target);
              w * target <= U256_MAX + 1 < (w + 1) * target
  {
    if target > 1 {
      var n := U256_MAX + 1;
      var q := n / target;
      assert n == q * target + n % target;
      Distribute(q, 1, target);
      MulMonotone(2, target, q);
      SaturateMeans(q);
    }
  }
}
