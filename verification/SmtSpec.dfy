/**
 The naive full-depth sparse Merkle tree, and the shape of the path-compressed one.

 Keys are bit strings of the fixed length SMT_DEPTH. The node hash is an arbitrary binary
 function `h`: nothing below assumes that it is collision free.
 */
module SmtSpec {

  const SMT_DEPTH: nat := 256

  type Hash256 = nat
  type Key = k: seq<bool> | |k| == SMT_DEPTH witness seq(SMT_DEPTH, _ => false)
  type Combine = (Hash256, Hash256) -> Hash256
  type Leaves = map<Key, Hash256>

  const ZERO: Hash256 := 0

  /** Hash of an empty subtree that is `height` levels tall. */
  function EmptyHash(h: Combine, height: nat): Hash256
    decreases height
  {
    if height == 0 then ZERO else h(EmptyHash(h, height - 1), EmptyHash(h, height - 1))
  }

  /** The two keys agree on their first `d` bits. */
  ghost predicate Agree(p: Key, q: Key, d: nat)
    requires d <= SMT_DEPTH
  {
    forall i | 0 <= i < d :: p[i] == q[i]
  }

  function WithBit(p: Key, d: nat, b: bool): (q: Key)
    requires d < SMT_DEPTH
    ensures q[d] == b && (forall i | 0 <= i < SMT_DEPTH && i != d :: q[i] == p[i])
    ensures p[d] == b ==> q == p
  {
    p[d := b]
  }

  /** All keys of `c` agree with `p` on the first `d` bits. */
  ghost predicate Under(c: Leaves, d: nat, p: Key)
    requires d <= SMT_DEPTH
  {
    forall k | k in c :: Agree(k, p, d)
  }

  /** The leaves of `c` whose bit `d` is `b`. */
  ghost function Side(c: Leaves, d: nat, b: bool): Leaves
    requires d < SMT_DEPTH
  {
    map k | k in c && k[d] == b :: c[k]
  }

  /** The root of the uncompressed tree over `c`, seen from level `d`. */
  ghost function NaiveRoot(h: Combine, c: Leaves, d: nat): Hash256
    requires d <= SMT_DEPTH
    decreases SMT_DEPTH - d
  {
    if c == map[] then EmptyHash(h, SMT_DEPTH - d)
    else if d == SMT_DEPTH then var k :| k in c; c[k]
    else h(NaiveRoot(h, Side(c, d, false), d + 1), NaiveRoot(h, Side(c, d, true), d + 1))
  }

  /** One hashing level: `x` is the child on the key's side, the sibling is empty. */
  function FoldStep(h: Combine, x: Hash256, key: Key, d: nat): Hash256
    requires d < SMT_DEPTH
  {
    var sibling := EmptyHash(h, SMT_DEPTH - d - 1);
    if key[d] then h(sibling, x) else h(x, sibling)
  }

  /** Hash of an extension over bits [lo, hi) whose child hashes to `x`. */
  function Fold(h: Combine, x: Hash256, key: Key, lo: nat, hi: nat): Hash256
    requires lo <= hi <= SMT_DEPTH
    decreases hi - lo
  {
    if lo == hi then x else FoldStep(h, Fold(h, x, key, lo + 1, hi), key, lo)
  }

  /** Folding through empty siblings is what the naive tree does on a shared path. */
  lemma {:induction false} FoldIsNaive(h: Combine, c: Leaves, key: Key, lo: nat, hi: nat)
    requires lo <= hi <= SMT_DEPTH
    requires c != map[] && Under(c, hi, key)
    ensures NaiveRoot(h, c, lo) == Fold(h, NaiveRoot(h, c, hi), key, lo, hi)
    decreases hi - lo
  {
    if lo < hi {
      assert forall k | k in c :: k[lo] == key[lo];
      assert Side(c, lo, key[lo]) == c;
      assert Side(c, lo, !key[lo]) == map[];
      FoldIsNaive(h, c, key, lo + 1, hi);
    }
  }

  /**
   A path-compressed tree, with the arena slot of every node. Hashes are not stored here:
   they are a function of the tree (`TreeHash`).
   */
  datatype Tree =
    | Nil
    | Leaf(at: nat, key: Key, value: Hash256)
    | Branch(at: nat, depth: nat, left: Tree, right: Tree)
    | Ext(at: nat, depth: nat, childDepth: nat, prefix: Key, child: Tree)

  ghost function Contents(t: Tree): Leaves {
    match t
    case Nil => map[]
    case Leaf(_, k, v) => map[k := v]
    case Branch(_, _, l, r) => Contents(l) + Contents(r)
    case Ext(_, _, _, _, c) => Contents(c)
  }

  ghost function Indices(t: Tree): set<nat> {
    match t
    case Nil => {}
    case Leaf(at, _, _) => {at}
    case Branch(at, _, l, r) => {at} + Indices(l) + Indices(r)
    case Ext(at, _, _, _, c) => {at} + Indices(c)
  }

  /** No arena slot is used by two nodes of the tree. */
  ghost predicate Separate(t: Tree) {
    match t
    case Nil => true
    case Leaf(_, _, _) => true
    case Branch(at, _, l, r) =>
      at !in Indices(l) && at !in Indices(r) && Indices(l) !! Indices(r) && Separate(l) && Separate(r)
    case Ext(at, _, _, _, c) => at !in Indices(c) && Separate(c)
  }

  /**
   Canonical form of a nonempty subtree that hangs at level `d` below the first `d` bits of the path `p`: both children
   of a branch are present, an extension never leads to an extension, every leaf
   sits at full depth, and a prefix key is right on every bit above its child.
   */
  ghost predicate Canon(t: Tree, d: nat, p: Key)
    decreases t
  {
    match t
    case Nil => false
    case Leaf(_, k, _) => d == SMT_DEPTH && k == p
    case Branch(_, bd, l, r) =>
      bd == d < SMT_DEPTH && Canon(l, d + 1, WithBit(p, d, false)) && Canon(r, d + 1, WithBit(p, d, true))
    case Ext(_, bd, cd, prefix, c) =>
      bd == d < cd <= SMT_DEPTH && Agree(prefix, p, d) && !c.Ext? && Canon(c, cd, prefix)
  }

  /** The hash a subtree must carry; `Nil` is only meaningful together with a level. */
  ghost function TreeHash(h: Combine, t: Tree): Hash256 {
    match t
    case Nil => ZERO
    case Leaf(_, _, v) => v
    case Branch(_, _, l, r) => h(TreeHash(h, l), TreeHash(h, r))
    case Ext(_, bd, cd, prefix, c) =>
      if bd <= cd <= SMT_DEPTH then Fold(h, TreeHash(h, c), prefix, bd, cd) else ZERO
  }

  /** Only the bits above the level matter for canonicity. */
  lemma {:induction false} CanonPath(t: Tree, d: nat, p: Key, q: Key)
    requires Canon(t, d, p) && d <= SMT_DEPTH && Agree(p, q, d)
    ensures Canon(t, d, q)
    decreases t
  {
    match t
    case Leaf(_, k, _) =>
      assert p == q;
    case Branch(_, _, l, r) =>
      CanonPath(l, d + 1, WithBit(p, d, false), WithBit(q, d, false));
      CanonPath(r, d + 1, WithBit(p, d, true), WithBit(q, d, true));
    case Ext(_, _, _, _, _) =>
  }

  /** The keys of a canonical subtree all lie below its path, and there is at least one. */
  lemma {:induction false} CanonUnder(t: Tree, d: nat, p: Key)
    requires Canon(t, d, p)
    ensures d <= SMT_DEPTH
    ensures Contents(t) != map[]
    ensures Under(Contents(t), d, p)
    decreases t
  {
    match t
    case Leaf(_, k, _) =>
      assert k in Contents(t);
    case Branch(_, _, l, r) =>
      CanonUnder(l, d + 1, WithBit(p, d, false));
      CanonUnder(r, d + 1, WithBit(p, d, true));
      var k0 :| k0 in Contents(l);
      assert k0 in Contents(t);
    case Ext(_, _, cd, prefix, c) =>
      CanonUnder(c, cd, prefix);
  }

  /** In a canonical branch the two children are exactly the two sides of its contents. */
  lemma BranchSides(t: Tree, d: nat, p: Key)
    requires Canon(t, d, p) && t.Branch?
    ensures Contents(t.left) == Side(Contents(t), d, false)
    ensures Contents(t.right) == Side(Contents(t), d, true)
  {
    CanonUnder(t.left, d + 1, WithBit(p, d, false));
    CanonUnder(t.right, d + 1, WithBit(p, d, true));
    assert forall k | k in Contents(t.left) :: !k[d];
    assert forall k | k in Contents(t.right) :: k[d];
  }

  /** Looking a key up in a branch means looking it up on the key's side. */
  lemma DescendBranch(t: Tree, d: nat, key: Key)
    requires Canon(t, d, key) && t.Branch?
    ensures var s := if key[d] then t.right else t.left;
            Canon(s, d + 1, key) && (key in Contents(t) <==> key in Contents(s))
            && (key in Contents(t) ==> Contents(t)[key] == Contents(s)[key])
  {
    BranchSides(t, d, key);
  }

  /** A key that leaves the prefix of an extension is not below it; one that does not is below its child. */
  lemma DescendExtension(t: Tree, d: nat, key: Key, i: nat)
    requires Canon(t, d, key) && t.Ext? && d <= i <= t.childDepth && Agree(key, t.prefix, i)
    ensures i < t.childDepth && key[i] != t.prefix[i] ==> key !in Contents(t)
    ensures i == t.childDepth ==> Canon(t.child, i, key)
  {
    CanonUnder(t.child, t.childDepth, t.prefix);
    if i == t.childDepth {
      CanonPath(t.child, i, t.prefix, key);
    } else {
      assert forall k | k in Contents(t) :: k[i] == t.prefix[i];
    }
  }

  /** The compressed tree carries the hash of the naive tree over the same leaves. */
  lemma {:induction false} TreeHashIsNaive(h: Combine, t: Tree, d: nat, p: Key)
    requires Canon(t, d, p)
    ensures d <= SMT_DEPTH && TreeHash(h, t) == NaiveRoot(h, Contents(t), d)
    decreases t
  {
    CanonUnder(t, d, p);
    match t
    case Leaf(_, _, _) =>
    case Branch(_, _, l, r) =>
      BranchSides(t, d, p);
      TreeHashIsNaive(h, l, d + 1, WithBit(p, d, false));
      TreeHashIsNaive(h, r, d + 1, WithBit(p, d, true));
    case Ext(_, _, cd, prefix, c) =>
      CanonUnder(c, cd, prefix);
      TreeHashIsNaive(h, c, cd, prefix);
      FoldIsNaive(h, Contents(t), prefix, d, cd);
  }

  lemma BranchSize(t: Tree, d: nat, p: Key)
    requires Canon(t, d, p) && t.Branch?
    ensures |Contents(t)| == |Contents(t.left)| + |Contents(t.right)|
  {
    BranchSides(t, d, p);
    assert Contents(t).Keys == Contents(t.left).Keys + Contents(t.right).Keys;
    assert Contents(t.left).Keys !! Contents(t.right).Keys;
    assert |Contents(t).Keys| == |Contents(t.left).Keys| + |Contents(t.right).Keys|;
  }

  lemma BranchIndices(at: nat, l: set<nat>, r: set<nat>)
    requires at !in l && at !in r && l !! r
    ensures |{at} + l + r| == 1 + |l| + |r| && {at} + l + {} == {at} + l
  {
    assert |l + r| == |l| + |r|;
    assert {at} + l + r == {at} + (l + r);
  }

  /** A canonical tree over n leaves has at most 4n - 2 nodes, and 4n - 3 below an extension. */
  lemma {:induction false} NodeBound(t: Tree, d: nat, p: Key)
    requires Canon(t, d, p) && Separate(t)
    ensures |Indices(t)| <= 4 * |Contents(t)| - 2
    ensures !t.Ext? ==> |Indices(t)| <= 4 * |Contents(t)| - 3
    decreases t
  {
    match t
    case Leaf(_, _, _) =>
      assert Contents(t).Keys == {t.key};
    case Branch(at, _, l, r) =>
      NodeBound(l, d + 1, WithBit(p, d, false));
      NodeBound(r, d + 1, WithBit(p, d, true));
      BranchSize(t, d, p);
      BranchIndices(at, Indices(l), Indices(r));
    case Ext(at, _, cd, prefix, c) =>
      NodeBound(c, cd, prefix);
      BranchIndices(at, Indices(c), {});
  }
}
