/**
 Big-endian digit sequences and their values, in any base.
 */
module Digits {
  function Pow(base: nat, n: nat): nat {
    if n == 0 then 1 else base * Pow(base, n - 1)
  }

  /** Digits below the base. */
  predicate InBase(base: nat, s: seq<nat>) {
    forall i | 0 <= i < |s| :: s[i] < base
  }

  function Val(base: nat, s: seq<nat>): nat {
    if s == [] then 0 else s[0] * Pow(base, |s| - 1) + Val(base, s[1..])
  }

  lemma {:induction false} PowPositive(base: nat, n: nat)
    requires base > 0
    ensures Pow(base, n) > 0
  {
    if n > 0 {
      PowPositive(base, n - 1);
      MulPositive(base, Pow(base, n - 1));
    }
  }

  lemma MulPositive(a: nat, b: nat)
    requires a > 0 && b > 0
    ensures a * b > 0
  {
  }

  lemma MulAssoc(a: int, b: int, c: int)
    ensures (a * b) * c == a * (b * c)
  {
  }

  lemma Distribute(a: int, b: int, c: int)
    ensures (a + b) * c == a * c + b * c && (a - b) * c == a * c - b * c
  {
  }

  lemma MulMonotone(a: nat, b: nat, c: nat)
    requires a <= b
    ensures a * c <= b * c && c * a <= c * b
  {
  }

  lemma {:induction false} PowSum(base: nat, a: nat, b: nat)
    ensures Pow(base, a + b) == Pow(base, a) * Pow(base, b)
  {
    if a > 0 {
      PowSum(base, a - 1, b);
      MulAssoc(base, Pow(base, a - 1), Pow(base, b));
    }
  }

  lemma {:induction false} PowPow(base: nat, a: nat, b: nat)
    ensures Pow(Pow(base, a), b) == Pow(base, a * b)
    decreases b
  {
    if b > 0 {
      PowPow(base, a, b - 1);
      PowSum(base, a, a * (b - 1));
      assert a + a * (b - 1) == a * b;
    } else {
      assert a * b == 0;
    }
  }

  /** The first digit and the rest. */
  lemma ValHead(base: nat, s: seq<nat>, i: nat)
    requires i < |s|
    ensures Val(base, s[i..]) == s[i] * Pow(base, |s| - 1 - i) + Val(base, s[i + 1..])
  {
    assert s[i..][1..] == s[i + 1..];
  }

  lemma ValCons(base: nat, d: nat, tail: seq<nat>)
    ensures Val(base, [d] + tail) == d * Pow(base, |tail|) + Val(base, tail)
    ensures Pow(base, |tail| + 1) == base * Pow(base, |tail|)
  {
    assert ([d] + tail)[1..] == tail;
  }

  lemma {:induction false} ValBound(base: nat, s: seq<nat>)
    requires base > 0 && InBase(base, s)
    ensures Val(base, s) < Pow(base, |s|)
  {
    if s != [] {
      ValBound(base, s[1..]);
      var p := Pow(base, |s| - 1);
      MulMonotone(s[0], base - 1, p);
      Distribute(base, 1, p);
    }
  }

  lemma {:induction false} ValConcat(base: nat, a: seq<nat>, b: seq<nat>)
    ensures Val(base, a + b) == Val(base, a) * Pow(base, |b|) + Val(base, b)
  {
    if a == [] {
      assert a + b == b;
    } else {
      assert (a + b)[1..] == a[1..] + b;
      ValConcat(base, a[1..], b);
      var p, q := Pow(base, |a| - 1), Pow(base, |b|);
      PowSum(base, |a| - 1, |b|);
      MulAssoc(a[0], p, q);
      Distribute(a[0] * p, Val(base, a[1..]), q);
    }
  }

  /** One digit more at the end. */
  lemma ValSnoc(base: nat, s: seq<nat>, d: nat)
    ensures Val(base, s + [d]) == Val(base, s) * base + d
  {
    ValConcat(base, s, [d]);
    assert Pow(base, 1) == base * Pow(base, 0);
    assert Val(base, [d]) == d * Pow(base, 0) + Val(base, [d][1..]);
  }

  lemma {:induction false} ValZero(base: nat, s: seq<nat>)
    requires base > 0 && InBase(base, s)
    ensures Val(base, s) == 0 <==> forall i | 0 <= i < |s| :: s[i] == 0
  {
    if s != [] {
      ValZero(base, s[1..]);
      var p := Pow(base, |s| - 1);
      PowPositive(base, |s| - 1);
      if s[0] > 0 { MulPositive(s[0], p); }
      assert s == [s[0]] + s[1..];
    }
  }

  /** All digits at their maximum. */
  lemma {:induction false} ValMax(base: nat, s: seq<nat>)
    requires base > 0 && forall i | 0 <= i < |s| :: s[i] == base - 1
    ensures Val(base, s) == Pow(base, |s|) - 1
  {
    if s != [] {
      ValMax(base, s[1..]);
      Distribute(base, 1, Pow(base, |s| - 1));
    }
  }

  /** The first digit that differs decides. */
  lemma FirstDifference(base: nat, a: seq<nat>, b: seq<nat>)
    requires base > 0 && |a| == |b| > 0 && InBase(base, a) && InBase(base, b) && a[0] > b[0]
    ensures Val(base, a) > Val(base, b)
  {
    ValBound(base, b[1..]);
    var p := Pow(base, |a| - 1);
    MulMonotone(b[0] + 1, a[0], p);
    Distribute(b[0], 1, p);
  }

  /** Carrying: a digit sum splits into the digit kept and the carry to the next position. */
  lemma Carry(base: nat, sum: nat, p: nat)
    requires base > 0
    ensures sum * p == (sum % base) * p + (sum / base) * (base * p)
  {
    var q, r := sum / base, sum % base;
    assert sum == q * base + r;
    Distribute(q * base, r, p);
    MulAssoc(q, base, p);
  }

  /** Quotient and remainder are determined. */
  lemma QuotientUnique(a: nat, b: nat, q: nat, r: nat)
    requires b > 0 && a == q * b + r && r < b
    ensures a / b == q && a % b == r
  {
    var q', r' := a / b, a % b;
    assert a == q' * b + r';
    if q' < q {
      MulMonotone(q' + 1, q, b);
      Distribute(q', 1, b);
    } else if q' > q {
      MulMonotone(q + 1, q', b);
      Distribute(q, 1, b);
    }
  }
}
