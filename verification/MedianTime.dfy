/**
 The median of the last timestamps of a chain, and what the timestamp rules make of it: it never moves
 back, never overtakes the parent, and always leaves the miner a timestamp to use.
 */
module MedianTime {
  import opened Ledger

  const MTP_WINDOW: nat := 11
  const MAX_TIMESTAMP_GAP: nat := 604_800

  // ---- Order statistics by counting ----

  function CountBelow(ts: seq<nat>, v: nat): (n: nat)
    ensures n <= |ts|
  {
    if ts == [] then 0 else (if ts[0] < v then 1 else 0) + CountBelow(ts[1..], v)
  }

  /** `m` stands at index `|ts| / 2` of the sorted list. */
  ghost predicate IsMedian(ts: seq<nat>, m: nat) {
    CountBelow(ts, m) <= |ts| / 2 < CountBelow(ts, m + 1)
  }

  lemma {:induction false} CountMonotone(ts: seq<nat>, v: nat, w: nat)
    requires v <= w
    ensures CountBelow(ts, v) <= CountBelow(ts, w)
  {
    if ts != [] { CountMonotone(ts[1..], v, w); }
  }

  lemma MedianUnique(ts: seq<nat>, a: nat, b: nat)
    requires IsMedian(ts, a) && IsMedian(ts, b)
    ensures a == b
  {
    if a < b { CountMonotone(ts, a + 1, b); }
    if b < a { CountMonotone(ts, b + 1, a); }
  }

  lemma {:induction false} CountSplit(a: seq<nat>, b: seq<nat>, v: nat)
    ensures CountBelow(a + b, v) == CountBelow(a, v) + CountBelow(b, v)
  {
    if a == [] {
      assert a + b == b;
    } else {
      assert (a + b)[1..] == a[1..] + b;
      CountSplit(a[1..], b, v);
    }
  }

  lemma {:induction false} CountSnoc(ts: seq<nat>, x: nat, v: nat)
    ensures CountBelow(ts + [x], v) == CountBelow(ts, v) + (if x < v then 1 else 0)
  {
    if ts == [] {
      assert ts + [x] == [x];
    } else {
      assert (ts + [x])[1..] == ts[1..] + [x];
      CountSnoc(ts[1..], x, v);
    }
  }

  // ---- Sorting ----

  predicate Ascending(s: seq<nat>) {
    forall i, j | 0 <= i < j < |s| :: s[i] <= s[j]
  }

  lemma CountInserted(s: seq<nat>, i: nat, x: nat, v: nat)
    requires i <= |s|
    ensures CountBelow(s[..i] + [x] + s[i..], v) == CountBelow(s, v) + (if x < v then 1 else 0)
  {
    hide CountBelow;
    CountSplit(s[..i] + [x], s[i..], v);
    CountSnoc(s[..i], x, v);
    CountSplit(s[..i], s[i..], v);
    assert s[..i] + s[i..] == s;
  }

  /** Insert into a sorted list, keeping every count. */
  method InsertSorted(s: seq<nat>, x: nat) returns (r: seq<nat>)
    requires Ascending(s)
    ensures Ascending(r) && |r| == |s| + 1
    ensures forall v :: CountBelow(r, v) == CountBelow(s, v) + (if x < v then 1 else 0)
  {
    hide CountBelow;
    var i := |s|;
    while i > 0 && s[i - 1] > x
      invariant 0 <= i <= |s| && forall j | i <= j < |s| :: s[j] > x
    {
      i := i - 1;
    }
    r := s[..i] + [x] + s[i..];
    forall v ensures CountBelow(r, v) == CountBelow(s, v) + (if x < v then 1 else 0) {
      CountInserted(s, i, x, v);
    }
  }

  /** The element at index `k` of a sorted list, described by counts. */
  lemma SortedIndex(s: seq<nat>, k: nat)
    requires Ascending(s) && k < |s|
    ensures CountBelow(s, s[k]) <= k < CountBelow(s, s[k] + 1)
  {
    hide CountBelow;
    var x, lo, hi := s[k], s[..k], s[k..];
    assert s == lo + hi;
    CountSplit(lo, hi, x);
    CountNone(hi, x);
    var lo', hi' := s[..k + 1], s[k + 1..];
    assert s == lo' + hi';
    CountSplit(lo', hi', x + 1);
    CountAll(lo', x + 1);
  }

  lemma {:induction false} CountNone(s: seq<nat>, v: nat)
    requires forall i | 0 <= i < |s| :: s[i] >= v
    ensures CountBelow(s, v) == 0
  {
    if s != [] { CountNone(s[1..], v); }
  }

  lemma {:induction false} CountAll(s: seq<nat>, v: nat)
    requires forall i | 0 <= i < |s| :: s[i] < v
    ensures CountBelow(s, v) == |s|
  {
    if s != [] { CountAll(s[1..], v); }
  }

  method MedianTimePast(ts: seq<nat>) returns (m: nat)
    requires ts != []
    ensures m == Median(ts) && IsMedian(ts, m)
  {
    var sorted: seq<nat> := [];
    for i := 0 to |ts|
      invariant Ascending(sorted) && |sorted| == i
      invariant forall v :: CountBelow(sorted, v) == CountBelow(ts[..i], v)
    {
      ghost var before := sorted;
      sorted := InsertSorted(sorted, ts[i]);
      forall v ensures CountBelow(sorted, v) == CountBelow(ts[..i + 1], v) {
        CountSnoc(ts[..i], ts[i], v);
        assert ts[..i + 1] == ts[..i] + [ts[i]];
        assert CountBelow(before, v) == CountBelow(ts[..i], v);
      }
    }
    assert ts[..|ts|] == ts;
    m := sorted[|ts| / 2];
    SortedIndex(sorted, |ts| / 2);
    MedianIs(ts, m);
  }

  // ---- The median as a function ----

  lemma MedianExists(ts: seq<nat>)
    requires ts != []
    ensures exists m :: m in ts && IsMedian(ts, m)
  {
    var sorted := Sorting(ts);
    var k := |ts| / 2;
    SortedIndex(sorted, k);
    if sorted[k] !in ts {
      CountAbsent(ts, sorted[k]);
    }
    assert IsMedian(ts, sorted[k]);
  }

  lemma {:induction false} CountAbsent(ts: seq<nat>, v: nat)
    requires v !in ts
    ensures CountBelow(ts, v) == CountBelow(ts, v + 1)
  {
    if ts != [] { CountAbsent(ts[1..], v); }
  }

  ghost function Sorting(ts: seq<nat>): (s: seq<nat>)
    ensures Ascending(s) && |s| == |ts| && forall v :: CountBelow(s, v) == CountBelow(ts, v)
  {
    if ts == [] then []
    else
      var rest := Sorting(ts[1..]);
      var i := Place(rest, ts[0]);
      assert forall v :: CountBelow(rest[..i] + [ts[0]] + rest[i..], v) == CountBelow(ts, v) by {
        forall v ensures CountBelow(rest[..i] + [ts[0]] + rest[i..], v) == CountBelow(ts, v) {
          CountInserted(rest, i, ts[0], v);
        }
      }
      rest[..i] + [ts[0]] + rest[i..]
  }

  ghost function Place(s: seq<nat>, x: nat): (i: nat)
    requires Ascending(s)
    ensures i <= |s| && (forall j | 0 <= j < i :: s[j] <= x) && (forall j | i <= j < |s| :: s[j] > x)
  {
    if s == [] || s[0] > x then 0 else 1 + Place(s[1..], x)
  }

  ghost function Median(ts: seq<nat>): (m: nat)
    requires ts != []
    ensures IsMedian(ts, m) && m in ts
  {
    MedianExists(ts);
    var m :| m in ts && IsMedian(ts, m);
    m
  }

  lemma MedianIs(ts: seq<nat>, m: nat)
    requires ts != [] && IsMedian(ts, m)
    ensures Median(ts) == m
  {
    MedianUnique(ts, Median(ts), m);
  }

  // ---- Windows over a chain's timestamps, oldest first ----

  /** The last timestamps of the chain, most recent first, at most `n`. */
  function Recent(ts: seq<nat>, n: nat): (r: seq<nat>)
    ensures |r| == if n < |ts| then n else |ts|
    ensures r != [] ==> r[0] == ts[|ts| - 1]
    decreases n
  {
    if ts == [] || n == 0 then [] else [ts[|ts| - 1]] + Recent(ts[..|ts| - 1], n - 1)
  }

  /** The last `n` timestamps, newest first. */
  lemma {:induction false} RecentAt(ts: seq<nat>, n: nat, i: nat)
    requires i < n && i < |ts|
    ensures Recent(ts, n)[i] == ts[|ts| - 1 - i]
    decreases n
  {
    if i > 0 { RecentAt(ts[..|ts| - 1], n - 1, i - 1); }
  }

  ghost function Mtp(ts: seq<nat>): nat
    requires ts != []
  {
    Median(Recent(ts, MTP_WINDOW))
  }

  /** Rules 7 and 9 hold at every position after the first. */
  ghost predicate TimestampsOk(ts: seq<nat>) {
    forall i | 0 < i < |ts| :: InWindow(ts[..i], ts[i])
  }

  ghost predicate InWindow(ts: seq<nat>, t: nat)
    requires ts != []
  {
    Mtp(ts) < t <= ts[|ts| - 1] + MAX_TIMESTAMP_GAP
  }

  /** A shorter window counts no more, and at most one less. */
  lemma {:induction false} RecentCount(ts: seq<nat>, n: nat, v: nat)
    ensures CountBelow(Recent(ts, n), v) <= CountBelow(Recent(ts, n + 1), v) <= CountBelow(Recent(ts, n), v) + 1
    decreases n
  {
    if ts != [] && n > 0 {
      RecentCount(ts[..|ts| - 1], n - 1, v);
    } else if ts != [] {
      assert Recent(ts[..|ts| - 1], 0) == [];
    }
  }

  lemma {:induction false} RecentAll(ts: seq<nat>, n: nat)
    requires |ts| <= n
    ensures Recent(ts, n) == Recent(ts, n + 1)
    decreases n
  {
    if ts != [] { RecentAll(ts[..|ts| - 1], n - 1); }
  }

  /** Counts in the window after one more timestamp. */
  lemma NextWindow(ts: seq<nat>, t: nat, v: nat)
    ensures CountBelow(Recent(ts + [t], MTP_WINDOW), v)
              == (if t < v then 1 else 0) + CountBelow(Recent(ts, MTP_WINDOW - 1), v)
  {
    assert (ts + [t])[..|ts|] == ts;
    var w, rest := Recent(ts + [t], MTP_WINDOW), Recent(ts, MTP_WINDOW - 1);
    assert w == [t] + rest;
    assert w[1..] == rest;
  }

  /** A timestamp above the median moves the median forward, and not past that timestamp. */
  lemma MtpAdvances(ts: seq<nat>, t: nat)
    requires ts != [] && Mtp(ts) < t
    ensures Mtp(ts) <= Mtp(ts + [t]) <= t
  {
    hide CountBelow, Recent;
    var m, m' := Mtp(ts), Mtp(ts + [t]);
    var w' := Recent(ts + [t], MTP_WINDOW);
    assert IsMedian(Recent(ts, MTP_WINDOW), m) && IsMedian(w', m');
    RecentCount(ts, MTP_WINDOW - 1, m);
    RecentCount(ts, MTP_WINDOW - 1, m + 1);
    if |ts| < MTP_WINDOW { RecentAll(ts, MTP_WINDOW - 1); }
    NextWindow(ts, t, m);
    NextWindow(ts, t, t + 1);
    CountMonotone(Recent(ts, MTP_WINDOW - 1), m + 1, t + 1);
    if m' < m {
      CountMonotone(w', m' + 1, m);
    } else if m' > t {
      CountMonotone(w', t + 1, m');
    }
  }

  /** In every chain that obeys the timestamp rules the median time past is at most the last timestamp. */
  lemma {:induction false} MtpBelowParent(ts: seq<nat>)
    requires ts != [] && TimestampsOk(ts)
    ensures Mtp(ts) <= ts[|ts| - 1]
  {
    var n := |ts| - 1;
    if n == 0 {
      assert Recent(ts, MTP_WINDOW) == [ts[0]];
      assert Median([ts[0]]) in [ts[0]];
    } else {
      assert InWindow(ts[..n], ts[n]);
      MtpAdvances(ts[..n], ts[n]);
      assert ts[..n] + [ts[n]] == ts;
    }
  }

  /** In every such chain the median time past never decreases, from any block to any later one. */
  lemma {:induction false} MtpNeverDecreases(ts: seq<nat>, i: nat, j: nat)
    requires TimestampsOk(ts) && 0 < i <= j <= |ts|
    ensures Mtp(ts[..i]) <= Mtp(ts[..j])
    decreases j
  {
    hide Mtp;
    if i < j {
      MtpNeverDecreases(ts, i, j - 1);
      assert InWindow(ts[..j - 1], ts[j - 1]);
      MtpAdvances(ts[..j - 1], ts[j - 1]);
      assert ts[..j - 1] + [ts[j - 1]] == ts[..j];
    }
  }

  /** Timestamps grow by at most the gap per block. */
  lemma {:induction false} TimeGrowth(ts: seq<nat>)
    requires ts != [] && TimestampsOk(ts)
    ensures ts[|ts| - 1] <= ts[0] + MAX_TIMESTAMP_GAP * (|ts| - 1)
  {
    hide Mtp, TimestampsOk;
    var n := |ts| - 1;
    if n > 0 {
      TimesBelow(ts, n);
      TimeGrowth(ts[..n]);
    }
  }

  lemma TimesBelow(ts: seq<nat>, n: nat)
    requires TimestampsOk(ts) && 0 < n < |ts|
    ensures TimestampsOk(ts[..n]) && InWindow(ts[..n], ts[n])
  {
    hide Mtp, InWindow;
    var init := ts[..n];
    forall i | 0 < i < |init| ensures InWindow(init[..i], init[i]) {
      assert init[..i] == ts[..i];
    }
  }

  /** The miner's latest timestamp: the parent's plus the gap, saturating. */
  function LatestTime(parent: nat): nat {
    if parent + MAX_TIMESTAMP_GAP > U64_MAX then U64_MAX else parent + MAX_TIMESTAMP_GAP
  }

  /** The miner's clamp of the current time. */
  function ClampTime(now: nat, lo: nat, hi: nat): nat {
    var top := if hi < lo then lo else hi;
    if now < lo then lo else if now > top then top else now
  }

  /** It is the last 64-bit time that the gap rule admits after the parent. */
  lemma LatestMeans(parent: nat, t: nat)
    requires t <= U64_MAX
    ensures t <= LatestTime(parent) <==> t <= parent + MAX_TIMESTAMP_GAP
  {
  }

  /** The clamped time is the current one where that is allowed, and else the nearest that is. */
  lemma ClampNearest(now: nat, lo: nat, hi: nat, t: nat)
    requires lo <= t <= hi
    ensures var c := ClampTime(now, lo, hi);
            && lo <= c <= hi && (lo <= now <= hi ==> c == now)
            && (now <= c <= t || t <= c <= now || c == now)
  {
  }

  /** The miner's interval is empty only when the median time past is the last 64-bit instant. */
  lemma MinerInterval(ts: seq<nat>)
    requires ts != [] && TimestampsOk(ts) && ts[|ts| - 1] <= U64_MAX
    ensures Mtp(ts) + 1 <= LatestTime(ts[|ts| - 1]) <==> Mtp(ts) < U64_MAX
  {
    MtpBelowParent(ts);
  }

  /**
   On a parent that rule 9 lets anything follow, whatever the clock says the clamped timestamp satisfies
   the rules and extends the chain to another one that obeys them.
   */
  lemma MinerTimestamp(ts: seq<nat>, now: nat)
    requires ts != [] && TimestampsOk(ts) && ts[|ts| - 1] + MAX_TIMESTAMP_GAP <= U64_MAX
    ensures var t := ClampTime(now, Mtp(ts) + 1, LatestTime(ts[|ts| - 1]));
            InWindow(ts, t) && TimestampsOk(ts + [t])
  {
    MtpBelowParent(ts);
    var t := ClampTime(now, Mtp(ts) + 1, LatestTime(ts[|ts| - 1]));
    var ts' := ts + [t];
    forall i | 0 < i < |ts'| ensures InWindow(ts'[..i], ts'[i]) {
      assert ts'[..i] == ts[..i];
      if i == |ts| { assert ts'[..i] == ts; }
    }
  }
}
