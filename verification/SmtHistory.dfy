/**
 Whole histories of the compressed tree, and the batch computation of a root from a
 sorted list of leaves: both agree with the naive tree over the resulting map.
 */
module SmtHistory {
  import opened SmtSpec
  import opened SmtArena

  datatype Op = Put(key: Key, value: Hash256) | Delete(key: Key)

  ghost function Step(m: Leaves, op: Op): Leaves {
    match op
    case Put(k, v) => m[k := v]
    case Delete(k) => m - {k}
  }

  /** The map left by a history. */
  ghost function Play(m: Leaves, ops: seq<Op>): Leaves {
    if ops == [] then m else Step(Play(m, ops[..|ops| - 1]), ops[|ops| - 1])
  }

  /** After any history of inserts and removes the root is the naive root of the resulting map. */
  method Run(t: SparseMerkleTree, ops: seq<Op>)
    requires t.Valid()
    modifies t
    ensures t.Valid() && t.Map() == Play(old(t.Map()), ops)
    ensures t.rootHash == NaiveRoot(t.hash2, Play(old(t.Map()), ops), 0)
  {
    ghost var m := t.Map();
    for i := 0 to |ops|
      invariant t.Valid() && t.Map() == Play(m, ops[..i])
    {
      assert ops[..i + 1][..i] == ops[..i];
      match ops[i] {
        case Put(k, v) => t.Insert(k, v);
        case Delete(k) => t.Remove(k);
      }
    }
    assert ops[..|ops|] == ops;
  }

  /** Two histories that lead to the same map lead to the same root and the same leaf count. */
  method RunBoth(h: Combine, ops: seq<Op>, ops': seq<Op>) returns (r: Hash256, r': Hash256, n: nat, n': nat)
    ensures r == NaiveRoot(h, Play(map[], ops), 0) && n == |Play(map[], ops)|
    ensures r' == NaiveRoot(h, Play(map[], ops'), 0) && n' == |Play(map[], ops')|
    ensures Play(map[], ops) == Play(map[], ops') ==> r == r' && n == n'
  {
    var t := new SparseMerkleTree(h);
    Run(t, ops);
    r, n := t.rootHash, t.leafCount;
    var t' := new SparseMerkleTree(h);
    Run(t', ops');
    r', n' := t'.rootHash, t'.leafCount;
  }

  // ---- Batch computation over sorted leaves ----

  type LeafList = seq<(Key, Hash256)>

  /** Most-significant-bit-first order, which is byte order on the keys. */
  ghost predicate Below(a: Key, b: Key) {
    exists i :: 0 <= i < SMT_DEPTH && Agree(a, b, i) && !a[i] && b[i]
  }

  ghost predicate Sorted(s: LeafList) {
    forall i, j | 0 <= i < j < |s| :: Below(s[i].0, s[j].0)
  }

  ghost predicate SharePath(s: LeafList, d: nat, p: Key)
    requires d <= SMT_DEPTH
  {
    forall i | 0 <= i < |s| :: Agree(s[i].0, p, d)
  }

  ghost function ToMap(s: LeafList): Leaves {
    if s == [] then map[] else ToMap(s[..|s| - 1])[s[|s| - 1].0 := s[|s| - 1].1]
  }

  /** Length of the leading run of leaves whose bit is 0. */
  function PartitionPoint(s: LeafList, bit: nat): (n: nat)
    requires bit < SMT_DEPTH
    ensures n <= |s| && (forall i | 0 <= i < n :: !s[i].0[bit]) && (n < |s| ==> s[n].0[bit])
  {
    if s == [] || s[0].0[bit] then 0 else 1 + PartitionPoint(s[1..], bit)
  }

  function ComputeRootRecursive(h: Combine, s: LeafList, depth: nat, bit: nat): Hash256
    requires depth + bit == SMT_DEPTH
    decreases depth
  {
    if s == [] then EmptyHash(h, depth)
    else if depth == 0 then s[0].1
    else
      var n := PartitionPoint(s, bit);
      h(ComputeRootRecursive(h, s[..n], depth - 1, bit + 1), ComputeRootRecursive(h, s[n..], depth - 1, bit + 1))
  }

  lemma {:induction false} ToMapConcat(a: LeafList, b: LeafList)
    ensures ToMap(a + b) == ToMap(a) + ToMap(b)
  {
    if b == [] {
      assert a + b == a;
    } else {
      assert (a + b)[..|a + b| - 1] == a + b[..|b| - 1];
      ToMapConcat(a, b[..|b| - 1]);
    }
  }

  lemma {:induction false} ToMapKeys(s: LeafList)
    ensures forall k :: k in ToMap(s) <==> exists i :: 0 <= i < |s| && s[i].0 == k
  {
    if s != [] {
      var n := |s| - 1;
      ToMapKeys(s[..n]);
      forall k ensures k in ToMap(s) <==> exists i :: 0 <= i < |s| && s[i].0 == k {
        if k in ToMap(s[..n]) {
          var i :| 0 <= i < n && s[..n][i].0 == k;
          assert s[i].0 == k;
        } else if k == s[n].0 {
          assert s[n].0 == k;
        } else {
          forall i | 0 <= i < |s| ensures s[i].0 != k {
            if i < n { assert s[..n][i].0 != k; }
          }
        }
      }
    }
  }

  /** In a sorted list below one path, the leaves with bit 0 come first. */
  lemma SplitBits(s: LeafList, d: nat, p: Key)
    requires d < SMT_DEPTH && Sorted(s) && SharePath(s, d, p)
    ensures forall i | 0 <= i < |s| :: s[i].0[d] == (i >= PartitionPoint(s, d))
  {
    var n := PartitionPoint(s, d);
    forall i | n < i < |s| ensures s[i].0[d] {
      assert Below(s[n].0, s[i].0);
      var j :| 0 <= j < SMT_DEPTH && Agree(s[n].0, s[i].0, j) && !s[n].0[j] && s[i].0[j];
      assert j >= d;
    }
  }

  lemma SplitSorted(s: LeafList, d: nat, p: Key)
    requires d < SMT_DEPTH && Sorted(s) && SharePath(s, d, p)
    ensures var n := PartitionPoint(s, d);
            && Sorted(s[..n]) && SharePath(s[..n], d + 1, WithBit(p, d, false))
            && Sorted(s[n..]) && SharePath(s[n..], d + 1, WithBit(p, d, true))
  {
    SplitBits(s, d, p);
    var n := PartitionPoint(s, d);
    SharePathSlice(s[..n], d, p, false);
    SharePathSlice(s[n..], d, p, true);
  }

  lemma SharePathSlice(s: LeafList, d: nat, p: Key, b: bool)
    requires d < SMT_DEPTH && SharePath(s, d, p) && forall i | 0 <= i < |s| :: s[i].0[d] == b
    ensures SharePath(s, d + 1, WithBit(p, d, b))
  {
  }

  lemma SplitMap(s: LeafList, d: nat, n: nat)
    requires d < SMT_DEPTH && n <= |s|
    requires forall i | 0 <= i < |s| :: s[i].0[d] == (i >= n)
    ensures ToMap(s[..n]) == Side(ToMap(s), d, false) && ToMap(s[n..]) == Side(ToMap(s), d, true)
  {
    assert s == s[..n] + s[n..];
    ToMapConcat(s[..n], s[n..]);
    BitOfKeys(s[..n], d, false);
    BitOfKeys(s[n..], d, true);
    SidesOfUnion(ToMap(s[..n]), ToMap(s[n..]), d);
  }

  lemma BitOfKeys(s: LeafList, d: nat, b: bool)
    requires d < SMT_DEPTH && forall i | 0 <= i < |s| :: s[i].0[d] == b
    ensures forall k | k in ToMap(s) :: k[d] == b
  {
    ToMapKeys(s);
  }

  lemma SidesOfUnion(a: Leaves, b: Leaves, d: nat)
    requires d < SMT_DEPTH
    requires (forall k | k in a :: !k[d]) && (forall k | k in b :: k[d])
    ensures a == Side(a + b, d, false) && b == Side(a + b, d, true)
  {
  }

  /** At full depth a sorted list below one path has a single leaf. */
  lemma SingleAtBottom(s: LeafList, p: Key)
    requires Sorted(s) && SharePath(s, SMT_DEPTH, p) && s != []
    ensures s == [(p, s[0].1)]
  {
    forall i | 0 <= i < |s| ensures s[i].0 == p {
      assert Agree(s[i].0, p, SMT_DEPTH);
    }
    assert |s| > 1 ==> Below(s[0].0, s[1].0);
    assert s[0] == (p, s[0].1);
  }

  /** The recursive batch computation over a sorted leaf list is the naive root of its map. */
  lemma {:induction false} BatchIsNaive(h: Combine, s: LeafList, d: nat, p: Key)
    requires d <= SMT_DEPTH && Sorted(s) && SharePath(s, d, p)
    ensures ComputeRootRecursive(h, s, SMT_DEPTH - d, d) == NaiveRoot(h, ToMap(s), d)
    decreases SMT_DEPTH - d
  {
    ToMapKeys(s);
    if s == [] {
    } else if d == SMT_DEPTH {
      SingleAtBottom(s, p);
      assert s[..0] == [];
      assert ToMap(s) == map[p := s[0].1];
    } else {
      assert s[0].0 in ToMap(s);
      var n := PartitionPoint(s, d);
      SplitSorted(s, d, p);
      SplitBits(s, d, p);
      SplitMap(s, d, n);
      BatchIsNaive(h, s[..n], d + 1, WithBit(p, d, false));
      BatchIsNaive(h, s[n..], d + 1, WithBit(p, d, true));
    }
  }

  /** The incremental tree and the batch computation agree on every sorted listing of a history's map. */
  method IncrementalMatchesBatch(h: Combine, ops: seq<Op>, s: LeafList) returns (r: Hash256)
    requires Sorted(s) && ToMap(s) == Play(map[], ops)
    ensures r == ComputeRootRecursive(h, s, SMT_DEPTH, 0)
  {
    var t := new SparseMerkleTree(h);
    Run(t, ops);
    BatchIsNaive(h, s, 0, ZERO_KEY);
    r := t.rootHash;
  }
}
