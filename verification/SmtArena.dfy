/**
 The path-compressed sparse Merkle tree as it is stored: an arena of nodes with a free
 list and cached hashes, changed in place by insertion and removal.
 */
module SmtArena {
  import opened SmtSpec

  type NodeIdx = nat
  const NULL: NodeIdx := 0

  datatype Node =
    | LeafNode(key: Key, value: Hash256)
    | BranchNode(bitDepth: nat, left: NodeIdx, right: NodeIdx, hash: Hash256)
    | ExtNode(bitDepth: nat, childDepth: nat, prefix: Key, child: NodeIdx, hash: Hash256)

  function NodeHash(n: Node): Hash256 {
    if n.LeafNode? then n.value else n.hash
  }

  ghost function Root(t: Tree): NodeIdx {
    if t.Nil? then NULL else t.at
  }

  /** The arena holds the tree `t`, every cached hash included. */
  ghost predicate Stored(h: Combine, a: seq<Node>, t: Tree) {
    match t
    case Nil => true
    case Leaf(at, k, v) => 0 < at < |a| && a[at] == LeafNode(k, v)
    case Branch(at, d, l, r) =>
      && 0 < at < |a| && a[at] == BranchNode(d, Root(l), Root(r), TreeHash(h, t))
      && Stored(h, a, l) && Stored(h, a, r)
    case Ext(at, bd, cd, prefix, c) =>
      && 0 < at < |a| && a[at] == ExtNode(bd, cd, prefix, Root(c), TreeHash(h, t))
      && Stored(h, a, c)
  }

  lemma StoredHash(h: Combine, a: seq<Node>, t: Tree)
    requires Stored(h, a, t) && !t.Nil?
    ensures 0 < Root(t) < |a| && NodeHash(a[Root(t)]) == TreeHash(h, t)
  {
  }

  lemma {:induction false} StoredFrame(h: Combine, a: seq<Node>, b: seq<Node>, t: Tree)
    requires Stored(h, a, t)
    requires forall i | i in Indices(t) && i < |a| :: i < |b| && a[i] == b[i]
    ensures Stored(h, b, t)
  {
    match t
    case Nil =>
    case Leaf(at, _, _) => assert at in Indices(t);
    case Branch(at, _, l, r) =>
      assert at in Indices(t);
      StoredFrame(h, a, b, l);
      StoredFrame(h, a, b, r);
    case Ext(at, _, _, _, c) =>
      assert at in Indices(t);
      StoredFrame(h, a, b, c);
  }

  /**
   Between two arena states, the subtree `t` was replaced by `t1` and nothing else happened:
   all other live slots kept their node, and `t1` took none of them.
   */
  ghost predicate Replaced(a: seq<Node>, live: set<nat>, t: Tree, a1: seq<Node>, live1: set<nat>, t1: Tree) {
    && live1 == (live - Indices(t)) + Indices(t1)
    && Indices(t1) !! (live - Indices(t))
    && forall i | i in live - Indices(t) :: i < |a| && i < |a1| && a1[i] == a[i]
  }

  /** Allocation only: every live slot is still live and holds the same node. */
  ghost predicate Grew(a: seq<Node>, live: set<nat>, a1: seq<Node>, live1: set<nat>) {
    live <= live1 && forall i | i in live :: i < |a| && i < |a1| && a1[i] == a[i]
  }

  /** A subtree outside the replaced one survives unchanged. */
  lemma Untouched(h: Combine, a: seq<Node>, live: set<nat>, t: Tree, a1: seq<Node>, live1: set<nat>, t1: Tree, s: Tree)
    requires Replaced(a, live, t, a1, live1, t1)
    requires Stored(h, a, s) && Indices(s) <= live && Indices(s) !! Indices(t)
    ensures Stored(h, a1, s) && Indices(s) <= live1 && Indices(s) !! Indices(t1)
  {
    StoredFrame(h, a, a1, s);
  }

  /** The slots of a branch after one of its children was replaced, possibly by nothing. */
  lemma BranchSlots(a: seq<Node>, live: set<nat>, t: Tree, a1: seq<Node>, live1: set<nat>, l: Tree, r: Tree)
    requires t.Branch? && Separate(t) && Indices(t) <= live
    requires || (r == t.right && Replaced(a, live, t.left, a1, live1, l))
             || (l == t.left && Replaced(a, live, t.right, a1, live1, r))
    ensures t.at < |a1| && t.at in live1 && t.at !in Indices(l) && t.at !in Indices(r) && Indices(l) !! Indices(r)
    ensures live1 == (live - Indices(t)) + {t.at} + Indices(l) + Indices(r)
    ensures (Indices(l) + Indices(r)) !! (live - Indices(t))
    ensures forall i | i in live - Indices(t) :: i < |a| && i < |a1| && a1[i] == a[i]
  {
    assert Indices(t) == {t.at} + Indices(t.left) + Indices(t.right);
    assert Indices(t) == {t.at} + Indices(t.right) + Indices(t.left);
    hide Indices;
    if r == t.right && Replaced(a, live, t.left, a1, live1, l) {
      SlotAlgebra(live, t.at, Indices(t.left), Indices(r), live1, Indices(l));
    } else {
      SlotAlgebra(live, t.at, Indices(t.right), Indices(l), live1, Indices(r));
    }
    assert t.at in live - Indices(t.left) && t.at in live - Indices(t.right);
  }

  /** With one side gone, only the branch's own slot has to be given up. */
  lemma SoleSlots(a: seq<Node>, live: set<nat>, t: Tree, a1: seq<Node>, live1: set<nat>, l: Tree, r: Tree, s: Tree)
    requires t.Branch? && Separate(t) && Indices(t) <= live
    requires || (r == t.right && Replaced(a, live, t.left, a1, live1, l))
             || (l == t.left && Replaced(a, live, t.right, a1, live1, r))
    requires (l.Nil? && s == r) || (r.Nil? && s == l)
    ensures t.at in live && t.at in live1 && t.at !in Indices(s)
    ensures live1 - {t.at} == (live - Indices(t)) + Indices(s) && Indices(s) !! (live - Indices(t))
    ensures forall i | i in live - Indices(t) :: i < |a| && i < |a1| && a1[i] == a[i]
  {
    BranchSlots(a, live, t, a1, live1, l, r);
    assert t.at in Indices(t) && Indices(Nil) == {};
    hide Indices, Separate, Replaced;
  }

  lemma SlotAlgebra(live: set<nat>, at: nat, go: set<nat>, stay: set<nat>, live1: set<nat>, go1: set<nat>)
    requires at in live && at !in go && at !in stay && stay <= live && stay !! go
    requires live1 == (live - go) + go1 && go1 !! (live - go)
    ensures at in live1 && at !in go1 && go1 !! stay
    ensures var rest := live - ({at} + go + stay);
            && live1 == rest + {at} + go1 + stay && live1 == rest + {at} + stay + go1
            && go1 !! rest && stay !! rest && rest <= live - go
  {
  }

  /** Storing a branch again after one of its children was replaced. */
  lemma BranchAfter(h: Combine, a: seq<Node>, live: set<nat>, t: Tree, a1: seq<Node>, live1: set<nat>, l: Tree, r: Tree)
    requires t.Branch? && Stored(h, a, t) && Separate(t) && Indices(t) <= live
    requires Stored(h, a1, l) && Separate(l) && Stored(h, a1, r) && Separate(r)
    requires || (r == t.right && Replaced(a, live, t.left, a1, live1, l))
             || (l == t.left && Replaced(a, live, t.right, a1, live1, r))
    ensures t.at < |a1| && t.at in live1 && t.at !in Indices(l) && t.at !in Indices(r) && Indices(l) !! Indices(r)
    ensures var t1 := Branch(t.at, t.depth, l, r);
            var a2 := a1[t.at := BranchNode(t.depth, Root(l), Root(r), TreeHash(h, t1))];
            && Stored(h, a2, t1) && Separate(t1) && Indices(t1) <= live1
            && Replaced(a, live, t, a2, live1, t1)
  {
    var t1 := Branch(t.at, t.depth, l, r);
    BranchSlots(a, live, t, a1, live1, l, r);
    var a2 := a1[t.at := BranchNode(t.depth, Root(l), Root(r), TreeHash(h, t1))];
    StoredFrame(h, a1, a2, l);
    StoredFrame(h, a1, a2, r);
  }

  /** Storing an extension again, with new bounds, after its child was replaced. */
  lemma ExtAfter(h: Combine, a: seq<Node>, live: set<nat>, t: Tree, a1: seq<Node>, live1: set<nat>, c: Tree, cd: nat, prefix: Key)
    requires t.Ext? && Stored(h, a, t) && Separate(t) && Indices(t) <= live
    requires Stored(h, a1, c) && Separate(c)
    requires Replaced(a, live, t.child, a1, live1, c)
    ensures t.at < |a1| && t.at in live1 && t.at !in Indices(c)
    ensures var t1 := Ext(t.at, t.depth, cd, prefix, c);
            var a2 := a1[t.at := ExtNode(t.depth, cd, prefix, Root(c), TreeHash(h, t1))];
            && Stored(h, a2, t1) && Separate(t1) && Indices(t1) <= live1
            && Replaced(a, live, t, a2, live1, t1)
  {
    var t1 := Ext(t.at, t.depth, cd, prefix, c);
    assert t.at in live - Indices(t.child);
    var a2 := a1[t.at := ExtNode(t.depth, cd, prefix, Root(c), TreeHash(h, t1))];
    StoredFrame(h, a1, a2, c);
  }

  /** Canonical form and contents of a branch after insertion into the key's side. */
  lemma BranchInserted(t: Tree, key: Key, value: Hash256, l: Tree, r: Tree)
    requires t.Branch? && Canon(t, t.depth, key)
    requires !key[t.depth] ==> r == t.right && Canon(l, t.depth + 1, key) && Contents(l) == Contents(t.left)[key := value]
    requires key[t.depth] ==> l == t.left && Canon(r, t.depth + 1, key) && Contents(r) == Contents(t.right)[key := value]
    ensures var t1 := Branch(t.at, t.depth, l, r);
            Canon(t1, t.depth, key) && Contents(t1) == Contents(t)[key := value]
  {
    BranchSides(t, t.depth, key);
    assert key !in Contents(if key[t.depth] then t.left else t.right);
    UpdateUnion(Contents(t.left), Contents(t.right), key, value);
  }

  /** The branch that an extension splits into is canonical and holds the new leaf. */
  lemma SplitCanon(t: Tree, key: Key, value: Hash256, diverge: nat, fresh': Tree, rest: Tree, at: nat)
    requires t.Ext? && Canon(t, t.depth, key) && t.depth <= diverge < t.childDepth
    requires Agree(key, t.prefix, diverge) && key[diverge] != t.prefix[diverge]
    requires Canon(fresh', diverge + 1, key) && Contents(fresh') == map[key := value]
    requires Canon(rest, diverge + 1, t.prefix) && Contents(rest) == Contents(t.child)
    ensures var t1 := if key[diverge] then Branch(at, diverge, rest, fresh') else Branch(at, diverge, fresh', rest);
            Canon(t1, diverge, key) && Contents(t1) == Contents(t)[key := value]
  {
    var b := key[diverge];
    var q := WithBit(key, diverge, !b);
    CanonPath(rest, diverge + 1, t.prefix, q);
    CanonUnder(t.child, t.childDepth, t.prefix);
    assert forall k | k in Contents(t.child) :: k[diverge] == t.prefix[diverge];
    SingleUnion(Contents(t.child), key, value);
  }

  lemma SingleUnion(c: Leaves, key: Key, value: Hash256)
    ensures c + map[key := value] == c[key := value]
    ensures key !in c ==> map[key := value] + c == c[key := value]
  {
  }

  lemma UpdateUnion(a: Leaves, b: Leaves, key: Key, value: Hash256)
    ensures a + b[key := value] == (a + b)[key := value]
    ensures key !in b ==> a[key := value] + b == (a + b)[key := value]
  {
  }

  /** The allocated slots minus the free ones are the live ones. */
  lemma LiveCount(n: nat, free: seq<nat>, live: set<nat>)
    requires forall i, j | 0 <= i < j < |free| :: free[i] != free[j]
    requires forall i | 0 <= i < |free| :: 1 <= free[i] < n
    requires forall i :: i in live <==> 1 <= i < n && i !in free
    requires n >= 1
    ensures |live| == n - 1 - |free|
  {
    var freed := Elements(free);
    DistinctSize(free);
    assert Slots(n - 1) == live + freed && live !! freed;
    assert |live + freed| == |live| + |freed|;
  }

  /** Canonical form and contents of a branch after removal from the key's side. */
  lemma BranchRemoved(t: Tree, key: Key, l: Tree, r: Tree)
    requires t.Branch? && Canon(t, t.depth, key)
    requires !key[t.depth] ==> r == t.right && (l.Nil? || Canon(l, t.depth + 1, key)) && Contents(l) == Contents(t.left) - {key}
    requires key[t.depth] ==> l == t.left && (r.Nil? || Canon(r, t.depth + 1, key)) && Contents(r) == Contents(t.right) - {key}
    ensures Contents(l) + Contents(r) == Contents(t) - {key}
    ensures l.Nil? || Canon(l, t.depth + 1, WithBit(key, t.depth, false))
    ensures r.Nil? || Canon(r, t.depth + 1, WithBit(key, t.depth, true))
    ensures l.Nil? ==> !r.Nil? && Contents(r) == Contents(t) - {key}
    ensures r.Nil? ==> !l.Nil? && Contents(l) == Contents(t) - {key}
  {
    BranchSides(t, t.depth, key);
    assert key !in Contents(if key[t.depth] then t.left else t.right);
    RemoveUnion(Contents(t.left), Contents(t.right), key);
    EmptyUnion(Contents(l), Contents(r));
  }

  lemma BranchWhole(t: Tree, key: Key)
    requires t.Branch? && t.depth < SMT_DEPTH
    requires Canon(t.left, t.depth + 1, WithBit(key, t.depth, false)) && Canon(t.right, t.depth + 1, WithBit(key, t.depth, true))
    ensures Canon(t, t.depth, key) && Contents(t) == Contents(t.left) + Contents(t.right)
  {
  }

  lemma NilFacts(h: Combine, a: seq<Node>, t: Tree)
    requires Stored(h, a, t)
    ensures (Root(t) == NULL <==> t.Nil?) && (t.Nil? ==> Contents(t) == map[])
  {
  }

  lemma RemoveUnion(a: Leaves, b: Leaves, key: Key)
    ensures key !in b ==> (a - {key}) + b == (a + b) - {key}
    ensures key !in a ==> a + (b - {key}) == (a + b) - {key}
  {
  }

  lemma EmptyUnion(a: Leaves, b: Leaves)
    ensures a == map[] ==> a + b == b
    ensures b == map[] ==> a + b == a
  {
  }

  /** A branch freed after losing one child, then replaced by what its other child became. */
  lemma Collapsed(a: seq<Node>, live: set<nat>, t: Tree, a1: seq<Node>, live1: set<nat>, s: Tree,
                  a2: seq<Node>, live2: set<nat>, t1: Tree)
    requires live1 == (live - Indices(t)) + Indices(s) && Indices(s) !! (live - Indices(t))
    requires forall i | i in live - Indices(t) :: i < |a| && i < |a1| && a1[i] == a[i]
    requires Replaced(a1, live1, s, a2, live2, t1)
    ensures Replaced(a, live, t, a2, live2, t1)
  {
    assert live1 - Indices(s) == live - Indices(t);
  }

  const ZERO_KEY: Key := seq(SMT_DEPTH, _ => false)

  /** Top-level facts about a tree that was just changed at `key`. */
  lemma TopChanged(h: Combine, t1: Tree, key: Key)
    requires Canon(t1, 0, key)
    ensures Canon(t1, 0, ZERO_KEY) && TreeHash(h, t1) == NaiveRoot(h, Contents(t1), 0)
  {
    CanonPath(t1, 0, key, ZERO_KEY);
    TreeHashIsNaive(h, t1, 0, key);
  }

  lemma UpdateSize(c: Leaves, key: Key, value: Hash256)
    ensures |c[key := value]| == |c| + (if key in c then 0 else 1)
    ensures |c - {key}| == |c| - (if key in c then 1 else 0)
  {
    assert c[key := value].Keys == c.Keys + {key};
    assert (c - {key}).Keys == c.Keys - {key};
  }

  /** The first bit in [lo, hi) where the two keys differ, or hi. */
  method CommonPrefix(key: Key, prefix: Key, lo: nat, hi: nat) returns (i: nat)
    requires lo <= hi <= SMT_DEPTH && Agree(key, prefix, lo)
    ensures lo <= i <= hi && Agree(key, prefix, i)
    ensures i < hi ==> key[i] != prefix[i]
  {
    i := lo;
    while i < hi && key[i] == prefix[i]
      invariant lo <= i <= hi && Agree(key, prefix, i)
    {
      i := i + 1;
    }
  }

  class SparseMerkleTree {
    const hash2: Combine
    var arena: seq<Node>
    var free: seq<NodeIdx>
    var root: NodeIdx
    var rootHash: Hash256
    var leafCount: nat
    ghost var live: set<nat>
    ghost var tree: Tree

    /** Slot 0 is the null sentinel; the other slots are either live or listed once as free. */
    ghost predicate Partitioned()
      reads `arena, `free, `live
    {
      && |arena| >= 1
      && (forall i, j | 0 <= i < j < |free| :: free[i] != free[j])
      && (forall i | 0 <= i < |free| :: 1 <= free[i] < |arena|)
      && (forall i :: i in live <==> 1 <= i < |arena| && i !in free)
    }

    ghost predicate Holds(t: Tree)
      reads `arena, `live
    {
      Stored(hash2, arena, t) && Separate(t) && Indices(t) <= live
    }

    /** The arena holds exactly the canonical tree `t`. */
    ghost predicate Rooted(t: Tree)
      reads `arena, `free, `live, `root
    {
      && Partitioned()
      && Holds(t) && root == Root(t) && live == Indices(t)
      && (t.Nil? || Canon(t, 0, ZERO_KEY))
    }

    ghost predicate Valid()
      reads this
    {
      && Rooted(tree)
      && rootHash == NaiveRoot(hash2, Contents(tree), 0)
      && leafCount == |Contents(tree)|
    }

    ghost function Map(): Leaves
      reads this
    {
      Contents(tree)
    }

    constructor (h: Combine)
      ensures Valid() && hash2 == h && Map() == map[]
    {
      hash2 := h;
      arena := [LeafNode(ZERO_KEY, ZERO)];
      free := [];
      root := NULL;
      rootHash := EmptyHash(h, SMT_DEPTH);
      leafCount := 0;
      live := {};
      tree := Nil;
    }

    method Alloc(node: Node) returns (idx: NodeIdx)
      requires Partitioned()
      modifies this`arena, this`free, this`live
      ensures Partitioned() && idx != NULL
      ensures idx !in old(live) && live == old(live) + {idx}
      ensures idx < |arena| && arena[idx] == node
      ensures |arena| >= |old(arena)|
      ensures forall i | i in old(live) :: i < |old(arena)| && arena[i] == old(arena[i])
    {
      if |free| > 0 {
        idx := free[|free| - 1];
        free := free[..|free| - 1];
        arena := arena[idx := node];
      } else {
        idx := |arena|;
        arena := arena + [node];
      }
      live := live + {idx};
      assert old(|free| > 0) ==> old(free) == free + [idx];
    }

    method FreeNode(idx: NodeIdx)
      requires Partitioned() && (idx == NULL || idx in live)
      modifies this`free, this`live
      ensures Partitioned() && live == old(live) - {idx}
    {
      if idx != NULL {
        free := free + [idx];
      }
      live := live - {idx};
    }

    /** Number of live nodes: at most 4n - 2 over n >= 1 leaves, none over an empty map. */
    method NodeCount() returns (n: nat)
      requires Valid()
      ensures n == |live|
      ensures Map() == map[] ==> n == 0
      ensures Map() != map[] ==> n <= 4 * |Map()| - 2
    {
      LiveCount(|arena|, free, live);
      n := |arena| - 1 - |free|;
      if !tree.Nil? {
        CanonUnder(tree, 0, ZERO_KEY);
        NodeBound(tree, 0, ZERO_KEY);
      }
    }

    function LogicalDepth(idx: NodeIdx): nat
      requires idx < |arena|
      reads this
    {
      if idx == NULL then 0 else
      match arena[idx]
      case LeafNode(_, _) => SMT_DEPTH
      case BranchNode(bd, _, _, _) => bd
      case ExtNode(bd, _, _, _, _) => bd
    }

    function SubtreeHash(idx: NodeIdx, atDepth: nat): Hash256
      requires idx < |arena| && atDepth <= SMT_DEPTH
      reads this
    {
      if idx == NULL then EmptyHash(hash2, SMT_DEPTH - atDepth) else
      NodeHash(arena[idx])
    }

    function ComputeBranchHash(left: NodeIdx, right: NodeIdx, bitDepth: nat): Hash256
      requires left < |arena| && right < |arena| && bitDepth < SMT_DEPTH
      reads this
    {
      hash2(SubtreeHash(left, bitDepth + 1), SubtreeHash(right, bitDepth + 1))
    }

    method FoldHash(childHash: Hash256, key: Key, lo: nat, hi: nat) returns (h: Hash256)
      requires lo <= hi <= SMT_DEPTH
      ensures h == Fold(hash2, childHash, key, lo, hi)
    {
      h := childHash;
      var d := hi;
      while d > lo
        invariant lo <= d <= hi
        invariant h == Fold(hash2, childHash, key, d, hi)
      {
        d := d - 1;
        var sibling := EmptyHash(hash2, SMT_DEPTH - d - 1);
        h := if key[d] then hash2(sibling, h) else hash2(h, sibling);
      }
    }

    /** Some key stored below `idx`. */
    method AnyKey(idx: NodeIdx, ghost t: Tree, ghost d: nat, ghost p: Key) returns (key: Key)
      requires Stored(hash2, arena, t) && idx == Root(t) && Canon(t, d, p)
      ensures key in Contents(t)
      decreases t
    {
      match arena[idx]
      case LeafNode(k, _) => key := k;
      case BranchNode(_, left, right, _) =>
        if left != NULL {
          key := AnyKey(left, t.left, d + 1, WithBit(p, d, false));
        } else {
          assert false;
        }
      case ExtNode(_, cd, _, child, _) =>
        key := AnyKey(child, t.child, cd, t.prefix);
    }

    /** Wrap a leaf or branch in an extension that starts at `target`. */
    method WrapInExtension(idx: NodeIdx, target: nat, ghost t: Tree, ghost d: nat, ghost p: Key)
      returns (r: NodeIdx, ghost t1: Tree)
      requires Partitioned() && Holds(t) && idx == Root(t)
      requires Canon(t, d, p) && !t.Ext? && target <= d
      modifies this`arena, this`free, this`live
      ensures Partitioned() && Holds(t1) && r == Root(t1)
      ensures Canon(t1, target, p) && Contents(t1) == Contents(t)
      ensures Replaced(old(arena), old(live), t, arena, live, t1)
      ensures Grew(old(arena), old(live), arena, live)
    {
      var nodeDepth := LogicalDepth(idx);
      if target >= nodeDepth {
        return idx, t;
      }
      CanonUnder(t, d, p);
      var key := AnyKey(idx, t, d, p);
      CanonPath(t, d, p, key);
      r, t1 := AllocExtension(target, nodeDepth, key, idx, t);
    }

    /** A new extension node over a nonempty subtree. */
    method AllocExtension(bd: nat, cd: nat, prefix: Key, child: NodeIdx, ghost c: Tree) returns (r: NodeIdx, ghost t1: Tree)
      requires Partitioned() && Holds(c) && child == Root(c) && !c.Nil? && bd < cd <= SMT_DEPTH
      modifies this`arena, this`free, this`live
      ensures Partitioned() && Holds(t1) && t1 == Ext(r, bd, cd, prefix, c)
      ensures Replaced(old(arena), old(live), c, arena, live, t1)
      ensures Grew(old(arena), old(live), arena, live)
    {
      StoredHash(hash2, arena, c);
      var h := FoldHash(SubtreeHash(child, cd), prefix, bd, cd);
      r := Alloc(ExtNode(bd, cd, prefix, child, h));
      t1 := Ext(r, bd, cd, prefix, c);
      StoredFrame(hash2, old(arena), arena, c);
    }

    /** Insert below `idx`; the key lies on the path to this subtree. */
    method InsertAt(idx: NodeIdx, depth: nat, key: Key, value: Hash256, ghost t: Tree)
      returns (r: NodeIdx, ghost t1: Tree)
      requires Partitioned() && Holds(t) && idx == Root(t) && depth <= SMT_DEPTH
      requires t.Nil? || Canon(t, depth, key)
      modifies this`arena, this`free, this`live
      ensures Partitioned() && Holds(t1) && r == Root(t1)
      ensures Canon(t1, depth, key) && Contents(t1) == Contents(t)[key := value]
      ensures t.Leaf? || t.Branch? ==> !t1.Ext?
      ensures Replaced(old(arena), old(live), t, arena, live, t1)
      decreases t
    {
      if idx == NULL {
        var leaf := Alloc(LeafNode(key, value));
        ghost var lt := Leaf(leaf, key, value);
        r, t1 := WrapInExtension(leaf, depth, lt, SMT_DEPTH, key);
        return;
      }
      match arena[idx]
      case LeafNode(existing, _) =>
        if existing == key {
          arena := arena[idx := LeafNode(key, value)];
          r, t1 := idx, Leaf(idx, key, value);
        } else {
          assert false; // a leaf is only reached at full depth, where the keys agree
        }
      case BranchNode(bd, left, right, _) =>
        r, t1 := InsertBelowBranch(idx, key, value, t);
      case ExtNode(bd, cd, prefix, child, _) =>
        var diverge := CommonPrefix(key, prefix, bd, cd);
        if diverge == cd {
          r, t1 := InsertBelowExtension(idx, key, value, t);
        } else {
          r, t1 := SplitExtension(idx, key, value, diverge, t);
        }
    }

    /** Write a branch back, hash included, after one of its children was replaced. */
    method StoreBranch(idx: NodeIdx, bd: nat, left: NodeIdx, right: NodeIdx,
                       ghost a: seq<Node>, ghost was: set<nat>, ghost t: Tree, ghost l: Tree, ghost r: Tree)
      returns (ghost t1: Tree)
      requires Partitioned() && t.Branch? && idx == t.at && bd == t.depth < SMT_DEPTH
      requires Stored(hash2, a, t) && Separate(t) && Indices(t) <= was
      requires left == Root(l) && right == Root(r) && !l.Nil? && !r.Nil?
      requires Holds(l) && Holds(r)
      requires || (r == t.right && Replaced(a, was, t.left, arena, live, l))
               || (l == t.left && Replaced(a, was, t.right, arena, live, r))
      modifies this`arena
      ensures t1 == Branch(idx, bd, l, r)
      ensures Partitioned() && Holds(t1) && Replaced(a, was, t, arena, live, t1)
    {
      BranchAfter(hash2, a, was, t, arena, live, l, r);
      StoredHash(hash2, arena, l);
      StoredHash(hash2, arena, r);
      t1 := Branch(idx, bd, l, r);
      var h := ComputeBranchHash(left, right, bd);
      arena := arena[idx := BranchNode(bd, left, right, h)];
    }

    /** The branch arm of `InsertAt`. */
    method InsertBelowBranch(idx: NodeIdx, key: Key, value: Hash256, ghost t: Tree)
      returns (r: NodeIdx, ghost t1: Tree)
      requires Partitioned() && Holds(t) && idx == Root(t)
      requires t.Branch? && Canon(t, t.depth, key)
      modifies this`arena, this`free, this`live
      ensures Partitioned() && Holds(t1) && r == Root(t1)
      ensures Canon(t1, t.depth, key) && Contents(t1) == Contents(t)[key := value]
      ensures t1.Branch?
      ensures Replaced(old(arena), old(live), t, arena, live, t1)
      decreases t, 1
    {
      var bd := arena[idx].bitDepth;
      var newLeft, newRight;
      ghost var l: Tree, rt: Tree;
      newLeft, newRight, l, rt := InsertIntoSide(idx, key, value, t);
      BranchInserted(t, key, value, l, rt);
      r := idx;
      t1 := StoreBranch(idx, bd, newLeft, newRight, old(arena), old(live), t, l, rt);
    }

    /** Insert into the key's side of a branch; the branch node itself is not yet rewritten. */
    method InsertIntoSide(idx: NodeIdx, key: Key, value: Hash256, ghost t: Tree)
      returns (newLeft: NodeIdx, newRight: NodeIdx, ghost l: Tree, ghost r: Tree)
      requires Partitioned() && Holds(t) && idx == Root(t)
      requires t.Branch? && Canon(t, t.depth, key)
      modifies this`arena, this`free, this`live
      ensures Partitioned() && Holds(l) && Holds(r) && newLeft == Root(l) && newRight == Root(r)
      ensures !l.Nil? && !r.Nil?
      ensures !key[t.depth] ==>
        && r == t.right && Canon(l, t.depth + 1, key) && Contents(l) == Contents(t.left)[key := value]
        && Replaced(old(arena), old(live), t.left, arena, live, l)
      ensures key[t.depth] ==>
        && l == t.left && Canon(r, t.depth + 1, key) && Contents(r) == Contents(t.right)[key := value]
        && Replaced(old(arena), old(live), t.right, arena, live, r)
      decreases t, 0
    {
      var bd, left, right := arena[idx].bitDepth, arena[idx].left, arena[idx].right;
      newLeft, newRight, l, r := left, right, t.left, t.right;
      if !key[bd] {
        newLeft, l := InsertAt(left, bd + 1, key, value, t.left);
        Untouched(hash2, old(arena), old(live), t.left, arena, live, l, t.right);
      } else {
        newRight, r := InsertAt(right, bd + 1, key, value, t.right);
        Untouched(hash2, old(arena), old(live), t.right, arena, live, r, t.left);
      }
    }

    /** Write an extension back, hash included, after its child was replaced. */
    method StoreExtension(idx: NodeIdx, bd: nat, cd: nat, prefix: Key, child: NodeIdx,
                          ghost a: seq<Node>, ghost was: set<nat>, ghost t: Tree, ghost c: Tree)
      returns (ghost t1: Tree)
      requires Partitioned() && t.Ext? && idx == t.at && bd == t.depth < cd <= SMT_DEPTH
      requires Stored(hash2, a, t) && Separate(t) && Indices(t) <= was
      requires child == Root(c) && !c.Nil? && Holds(c)
      requires Replaced(a, was, t.child, arena, live, c)
      modifies this`arena
      ensures t1 == Ext(idx, bd, cd, prefix, c)
      ensures Partitioned() && Holds(t1) && Replaced(a, was, t, arena, live, t1)
    {
      ExtAfter(hash2, a, was, t, arena, live, c, cd, prefix);
      StoredHash(hash2, arena, c);
      t1 := Ext(idx, bd, cd, prefix, c);
      var h := FoldHash(SubtreeHash(child, cd), prefix, bd, cd);
      arena := arena[idx := ExtNode(bd, cd, prefix, child, h)];
    }

    /** The extension arm of `InsertAt` when the key matches the whole prefix. */
    method InsertBelowExtension(idx: NodeIdx, key: Key, value: Hash256, ghost t: Tree)
      returns (r: NodeIdx, ghost t1: Tree)
      requires Partitioned() && Holds(t) && idx == Root(t)
      requires t.Ext? && Canon(t, t.depth, key) && Agree(key, t.prefix, t.childDepth)
      modifies this`arena, this`free, this`live
      ensures Partitioned() && Holds(t1) && r == Root(t1)
      ensures Canon(t1, t.depth, key) && Contents(t1) == Contents(t)[key := value]
      ensures Replaced(old(arena), old(live), t, arena, live, t1)
      decreases t, 0
    {
      var bd, cd, prefix, child := arena[idx].bitDepth, arena[idx].childDepth, arena[idx].prefix, arena[idx].child;
      CanonPath(t.child, cd, prefix, key);
      var newChild;
      ghost var c1: Tree;
      newChild, c1 := InsertAt(child, cd, key, value, t.child);
      CanonPath(c1, cd, key, prefix);
      r := idx;
      t1 := StoreExtension(idx, bd, cd, prefix, newChild, old(arena), old(live), t, c1);
    }

    /** The branch at the split point, over the new leaf and what remains of the extension. */
    method SplitBranch(key: Key, value: Hash256, diverge: nat, cd: nat, prefix: Key, child: NodeIdx, ghost t: Tree)
      returns (branch: NodeIdx, ghost b: Tree)
      requires Partitioned() && Holds(t)
      requires t.Ext? && Canon(t, t.depth, key) && child == Root(t.child) && cd == t.childDepth && prefix == t.prefix
      requires t.depth <= diverge < cd
      requires Agree(key, prefix, diverge) && key[diverge] != prefix[diverge]
      modifies this`arena, this`free, this`live
      ensures Partitioned() && Holds(b) && branch == Root(b)
      ensures b.Branch? && Canon(b, diverge, key) && Contents(b) == Contents(t)[key := value]
      ensures Replaced(old(arena), old(live), t.child, arena, live, b)
    {
      var wrapped, remaining;
      ghost var fresh': Tree, rest: Tree;
      wrapped, remaining, fresh', rest := SplitSides(key, value, diverge, cd, prefix, child, t);
      if key[diverge] {
        branch, b := AllocBranch(remaining, wrapped, diverge, rest, fresh');
      } else {
        branch, b := AllocBranch(wrapped, remaining, diverge, fresh', rest);
      }
      SplitCanon(t, key, value, diverge, fresh', rest, branch);
    }

    /** The new leaf, wrapped below the split point, and what remains of the extension. */
    method SplitSides(key: Key, value: Hash256, diverge: nat, cd: nat, prefix: Key, child: NodeIdx, ghost t: Tree)
      returns (wrapped: NodeIdx, remaining: NodeIdx, ghost fresh': Tree, ghost rest: Tree)
      requires Partitioned() && Holds(t)
      requires t.Ext? && Canon(t, t.depth, key) && child == Root(t.child) && cd == t.childDepth && prefix == t.prefix
      requires t.depth <= diverge < cd
      modifies this`arena, this`free, this`live
      ensures Partitioned() && Holds(fresh') && Holds(rest)
      ensures wrapped == Root(fresh') && remaining == Root(rest)
      ensures Canon(fresh', diverge + 1, key) && Contents(fresh') == map[key := value]
      ensures Canon(rest, diverge + 1, prefix) && Contents(rest) == Contents(t.child)
      ensures Indices(fresh') !! Indices(rest)
      ensures live == (old(live) - Indices(t.child)) + Indices(fresh') + Indices(rest)
      ensures (Indices(fresh') + Indices(rest)) !! (old(live) - Indices(t.child))
      ensures forall i | i in old(live) - Indices(t.child) :: i < |old(arena)| && i < |arena| && arena[i] == old(arena[i])
    {
      var newLeaf := Alloc(LeafNode(key, value));
      ghost var leaf := Leaf(newLeaf, key, value);
      StoredFrame(hash2, old(arena), arena, t.child);
      assert Indices(leaf) == {newLeaf};
      remaining, rest := ShortenExtension(diverge + 1, cd, prefix, child, t.child);
      ghost var a1, live1 := arena, live;
      ghost var others := old(live) - Indices(t.child);
      assert newLeaf !in Indices(rest) && Indices(rest) !! others;
      assert live1 == others + {newLeaf} + Indices(rest);
      wrapped, fresh' := WrapInExtension(newLeaf, diverge + 1, leaf, SMT_DEPTH, key);
      Untouched(hash2, a1, live1, leaf, arena, live, fresh', rest);
    }

    /** A new branch node over two disjoint subtrees. */
    method AllocBranch(left: NodeIdx, right: NodeIdx, bd: nat, ghost l: Tree, ghost r: Tree)
      returns (branch: NodeIdx, ghost b: Tree)
      requires Partitioned() && Holds(l) && Holds(r) && Indices(l) !! Indices(r)
      requires left == Root(l) && right == Root(r) && !l.Nil? && !r.Nil? && bd < SMT_DEPTH
      modifies this`arena, this`free, this`live
      ensures Partitioned() && Holds(b) && b == Branch(branch, bd, l, r)
      ensures branch !in old(live) && live == old(live) + {branch}
      ensures Grew(old(arena), old(live), arena, live)
    {
      StoredHash(hash2, arena, l);
      StoredHash(hash2, arena, r);
      var h := ComputeBranchHash(left, right, bd);
      branch := Alloc(BranchNode(bd, left, right, h));
      StoredFrame(hash2, old(arena), arena, l);
      StoredFrame(hash2, old(arena), arena, r);
      b := Branch(branch, bd, l, r);
    }

    /** What remains of an extension whose first bits were cut off: a shorter one, or just its child. */
    method ShortenExtension(bd: nat, cd: nat, prefix: Key, child: NodeIdx, ghost c: Tree)
      returns (r: NodeIdx, ghost t1: Tree)
      requires Partitioned() && Holds(c) && child == Root(c)
      requires bd <= cd && Canon(c, cd, prefix) && !c.Ext?
      modifies this`arena, this`free, this`live
      ensures Partitioned() && Holds(t1) && r == Root(t1)
      ensures Canon(t1, bd, prefix) && Contents(t1) == Contents(c)
      ensures Replaced(old(arena), old(live), c, arena, live, t1)
      ensures Grew(old(arena), old(live), arena, live)
    {
      CanonUnder(c, cd, prefix);
      if bd < cd {
        r, t1 := AllocExtension(bd, cd, prefix, child, c);
      } else {
        r, t1 := child, c;
      }
    }

    /** The extension arm of `InsertAt` when the key leaves the prefix at bit `diverge`. */
    method SplitExtension(idx: NodeIdx, key: Key, value: Hash256, diverge: nat, ghost t: Tree)
      returns (r: NodeIdx, ghost t1: Tree)
      requires Partitioned() && Holds(t) && idx == Root(t)
      requires t.Ext? && Canon(t, t.depth, key)
      requires t.depth <= diverge < t.childDepth
      requires Agree(key, t.prefix, diverge) && key[diverge] != t.prefix[diverge]
      modifies this`arena, this`free, this`live
      ensures Partitioned() && Holds(t1) && r == Root(t1)
      ensures Canon(t1, t.depth, key) && Contents(t1) == Contents(t)[key := value]
      ensures Replaced(old(arena), old(live), t, arena, live, t1)
    {
      var bd, cd, prefix, child := arena[idx].bitDepth, arena[idx].childDepth, arena[idx].prefix, arena[idx].child;
      var branch;
      ghost var b: Tree;
      branch, b := SplitBranch(key, value, diverge, cd, prefix, child, t);
      if diverge > bd {
        r := idx;
        t1 := StoreExtension(idx, bd, diverge, key, branch, old(arena), old(live), t, b);
      } else {
        FreeNode(idx);
        r, t1 := branch, b;
      }
    }

    /** Remove `key`, which is present below `idx`. */
    method RemoveAt(idx: NodeIdx, depth: nat, key: Key, ghost t: Tree) returns (r: NodeIdx, ghost t1: Tree)
      requires Partitioned() && Holds(t) && idx == Root(t)
      requires Canon(t, depth, key) && key in Contents(t)
      modifies this`arena, this`free, this`live
      ensures Partitioned() && Holds(t1) && r == Root(t1)
      ensures t1.Nil? || Canon(t1, depth, key)
      ensures Contents(t1) == Contents(t) - {key}
      ensures Replaced(old(arena), old(live), t, arena, live, t1)
      decreases t
    {
      match arena[idx]
      case LeafNode(_, _) =>
        FreeNode(idx);
        r, t1 := NULL, Nil;
      case BranchNode(_, _, _, _) =>
        r, t1 := RemoveBelowBranch(idx, depth, key, t);
      case ExtNode(bd, cd, prefix, child, _) =>
        CanonUnder(t.child, cd, prefix);
        CanonPath(t.child, cd, prefix, key);
        var newChild;
        ghost var c1: Tree;
        newChild, c1 := RemoveAt(child, cd, key, t.child);
        if newChild == NULL {
          FreeNode(idx);
          r, t1 := NULL, Nil;
        } else {
          CanonPath(c1, cd, key, prefix);
          r, t1 := TryMergeExtension(idx, bd, cd, prefix, newChild, key, old(arena), old(live), t, c1);
        }
    }

    /** The branch arm of `RemoveAt`: a branch that lost a child collapses into an extension. */
    method RemoveBelowBranch(idx: NodeIdx, depth: nat, key: Key, ghost t: Tree) returns (r: NodeIdx, ghost t1: Tree)
      requires Partitioned() && Holds(t) && idx == Root(t)
      requires t.Branch? && Canon(t, depth, key) && key in Contents(t)
      modifies this`arena, this`free, this`live
      ensures Partitioned() && Holds(t1) && r == Root(t1)
      ensures Canon(t1, depth, key)
      ensures Contents(t1) == Contents(t) - {key}
      ensures Replaced(old(arena), old(live), t, arena, live, t1)
      decreases t, 1
    {
      var bd := arena[idx].bitDepth;
      assert bd == t.depth == depth < SMT_DEPTH;
      hide Contents, Canon, Stored, Separate, Indices, Replaced, SparseMerkleTree.Partitioned;
      var newLeft, newRight;
      ghost var l: Tree, rt: Tree;
      newLeft, newRight, l, rt := RemoveFromSide(idx, key, t);
      BranchRemoved(t, key, l, rt);
      r, t1 := Rejoin(idx, bd, newLeft, newRight, key, old(arena), old(live), t, l, rt);
    }

    /** Store a branch again, or, where one side is gone, let the other side take its place. */
    method Rejoin(idx: NodeIdx, bd: nat, newLeft: NodeIdx, newRight: NodeIdx, ghost key: Key,
                  ghost a: seq<Node>, ghost was: set<nat>, ghost t: Tree, ghost l: Tree, ghost rt: Tree)
      returns (r: NodeIdx, ghost t1: Tree)
      requires Partitioned() && t.Branch? && idx == t.at && bd == t.depth < SMT_DEPTH
      requires Stored(hash2, a, t) && Separate(t) && Indices(t) <= was
      requires Holds(l) && Holds(rt) && newLeft == Root(l) && newRight == Root(rt) && (l.Nil? ==> !rt.Nil?)
      requires || (rt == t.right && Replaced(a, was, t.left, arena, live, l))
               || (l == t.left && Replaced(a, was, t.right, arena, live, rt))
      requires l.Nil? || Canon(l, bd + 1, WithBit(key, bd, false))
      requires rt.Nil? || Canon(rt, bd + 1, WithBit(key, bd, true))
      modifies this`arena, this`free, this`live
      ensures Partitioned() && Holds(t1) && r == Root(t1)
      ensures Canon(t1, bd, key) && Contents(t1) == Contents(l) + Contents(rt)
      ensures Replaced(a, was, t, arena, live, t1)
    {
      hide Contents, Canon, Stored, Separate, Indices, Replaced, SparseMerkleTree.Partitioned;
      NilFacts(hash2, arena, l);
      NilFacts(hash2, arena, rt);
      EmptyUnion(Contents(l), Contents(rt));
      if newLeft == NULL {
        SoleSlots(a, was, t, arena, live, l, rt, rt);
        r, t1 := Collapse(idx, newRight, bd, key, WithBit(key, bd, true), a, was, t, rt);
      } else if newRight == NULL {
        SoleSlots(a, was, t, arena, live, l, rt, l);
        r, t1 := Collapse(idx, newLeft, bd, key, WithBit(key, bd, false), a, was, t, l);
      } else {
        r := idx;
        t1 := StoreBranch(idx, bd, newLeft, newRight, a, was, t, l, rt);
        BranchWhole(t1, key);
      }
    }

    /** Remove the key from its side of a branch; the branch node itself is not yet rewritten. */
    method RemoveFromSide(idx: NodeIdx, key: Key, ghost t: Tree)
      returns (newLeft: NodeIdx, newRight: NodeIdx, ghost l: Tree, ghost r: Tree)
      requires Partitioned() && Holds(t) && idx == Root(t)
      requires t.Branch? && Canon(t, t.depth, key) && key in Contents(t)
      modifies this`arena, this`free, this`live
      ensures Partitioned() && Holds(l) && Holds(r) && newLeft == Root(l) && newRight == Root(r)
      ensures !key[t.depth] ==>
        && r == t.right && (l.Nil? || Canon(l, t.depth + 1, key)) && Contents(l) == Contents(t.left) - {key}
        && Replaced(old(arena), old(live), t.left, arena, live, l)
      ensures key[t.depth] ==>
        && l == t.left && (r.Nil? || Canon(r, t.depth + 1, key)) && Contents(r) == Contents(t.right) - {key}
        && Replaced(old(arena), old(live), t.right, arena, live, r)
      decreases t, 0
    {
      var bd, left, right := arena[idx].bitDepth, arena[idx].left, arena[idx].right;
      BranchSides(t, bd, key);
      newLeft, newRight, l, r := left, right, t.left, t.right;
      if !key[bd] {
        newLeft, l := RemoveAt(left, bd + 1, key, t.left);
        Untouched(hash2, old(arena), old(live), t.left, arena, live, l, t.right);
      } else {
        newRight, r := RemoveAt(right, bd + 1, key, t.right);
        Untouched(hash2, old(arena), old(live), t.right, arena, live, r, t.left);
      }
    }

    /** Free a branch whose other child is gone and hang the survivor in its place. */
    method Collapse(idx: NodeIdx, child: NodeIdx, depth: nat, ghost key: Key, ghost q: Key,
                    ghost a: seq<Node>, ghost was: set<nat>, ghost t: Tree, ghost s: Tree)
      returns (r: NodeIdx, ghost t1: Tree)
      requires Partitioned() && t.Branch? && idx == t.at && idx in live && idx !in Indices(s) && idx in was
      requires Holds(s) && child == Root(s) && Canon(s, depth + 1, q)
      requires depth < SMT_DEPTH && Agree(key, q, depth)
      requires live - {idx} == (was - Indices(t)) + Indices(s) && Indices(s) !! (was - Indices(t))
      requires forall i | i in was - Indices(t) :: i < |a| && i < |arena| && arena[i] == a[i]
      modifies this`arena, this`free, this`live
      ensures Partitioned() && Holds(t1) && r == Root(t1)
      ensures Canon(t1, depth, key) && Contents(t1) == Contents(s)
      ensures Replaced(a, was, t, arena, live, t1)
    {
      FreeNode(idx);
      ghost var a1, live1 := arena, live;
      r, t1 := PrependExtension(child, depth, s, q);
      Collapsed(a, was, t, a1, live1, s, arena, live, t1);
      CanonPath(t1, depth, q, key);
    }

    /** Lengthen the path to the surviving child of a collapsed branch by the branch's own bit. */
    method PrependExtension(child: NodeIdx, lo: nat, ghost t: Tree, ghost p: Key) returns (r: NodeIdx, ghost t1: Tree)
      requires Partitioned() && Holds(t) && child == Root(t)
      requires Canon(t, lo + 1, p)
      modifies this`arena, this`free, this`live
      ensures Partitioned() && Holds(t1) && r == Root(t1)
      ensures Canon(t1, lo, p) && Contents(t1) == Contents(t)
      ensures Replaced(old(arena), old(live), t, arena, live, t1)
    {
      CanonUnder(t, lo + 1, p);
      var childKey := AnyKey(child, t, lo + 1, p);
      var depth := LogicalDepth(child);
      match arena[child]
      case ExtNode(_, cd, prefix, inner, _) =>
        r, t1 := LengthenExtension(child, lo, t, p);
      case _ =>
        CanonPath(t, lo + 1, p, childKey);
        r, t1 := AllocExtension(lo, depth, childKey, child, t);
    }

    /** The arm of `PrependExtension` for a child that is itself an extension. */
    method LengthenExtension(child: NodeIdx, lo: nat, ghost t: Tree, ghost p: Key) returns (r: NodeIdx, ghost t1: Tree)
      requires Partitioned() && Holds(t) && child == Root(t)
      requires Canon(t, lo + 1, p) && t.Ext?
      modifies this`arena
      ensures Partitioned() && Holds(t1) && r == Root(t1)
      ensures Canon(t1, lo, p) && Contents(t1) == Contents(t)
      ensures Replaced(old(arena), old(live), t, arena, live, t1)
    {
      var cd, prefix, inner := arena[child].childDepth, arena[child].prefix, arena[child].child;
      StoredHash(hash2, arena, t.child);
      var h := FoldHash(SubtreeHash(inner, cd), prefix, lo, cd);
      arena := arena[child := ExtNode(lo, cd, prefix, inner, h)];
      StoredFrame(hash2, old(arena), arena, t.child);
      r, t1 := child, Ext(child, lo, cd, prefix, t.child);
    }

    /** Put an extension back over its shrunken child, absorbing an extension that appeared below it. */
    method TryMergeExtension(idx: NodeIdx, bd: nat, cd: nat, prefix: Key, newChild: NodeIdx, ghost p: Key,
                             ghost a: seq<Node>, ghost was: set<nat>, ghost t: Tree, ghost c: Tree)
      returns (r: NodeIdx, ghost t1: Tree)
      requires Partitioned() && t.Ext? && idx == t.at && bd == t.depth && cd == t.childDepth && prefix == t.prefix
      requires Stored(hash2, a, t) && Separate(t) && Indices(t) <= was
      requires Canon(t, bd, p) && Canon(c, cd, prefix)
      requires newChild == Root(c) && Holds(c)
      requires Replaced(a, was, t.child, arena, live, c)
      modifies this`arena, this`free, this`live
      ensures Partitioned() && Holds(t1) && r == Root(t1)
      ensures Canon(t1, bd, p) && Contents(t1) == Contents(c)
      ensures Replaced(a, was, t, arena, live, t1)
    {
      r := idx;
      match arena[newChild]
      case ExtNode(_, innerDepth, innerPrefix, inner, _) =>
        t1 := MergeExtensions(idx, bd, cd, prefix, newChild, p, a, was, t, c);
      case LeafNode(leafKey, _) =>
        t1 := StoreExtension(idx, bd, SMT_DEPTH, leafKey, newChild, a, was, t, c);
      case BranchNode(_, _, _, _) =>
        t1 := StoreExtension(idx, bd, cd, prefix, newChild, a, was, t, c);
    }

    /** The arm of `TryMergeExtension` that absorbs an extension below the extension at `idx`. */
    method MergeExtensions(idx: NodeIdx, bd: nat, cd: nat, prefix: Key, newChild: NodeIdx, ghost p: Key,
                           ghost a: seq<Node>, ghost was: set<nat>, ghost t: Tree, ghost c: Tree)
      returns (ghost t1: Tree)
      requires Partitioned() && t.Ext? && idx == t.at && bd == t.depth && cd == t.childDepth && prefix == t.prefix
      requires Indices(t) <= was && idx !in Indices(t.child)
      requires Canon(t, bd, p) && Canon(c, cd, prefix) && c.Ext?
      requires newChild == Root(c) && Holds(c)
      requires Replaced(a, was, t.child, arena, live, c)
      modifies this`arena, this`free, this`live
      ensures Partitioned() && Holds(t1) && idx == Root(t1)
      ensures Canon(t1, bd, p) && Contents(t1) == Contents(c)
      ensures Replaced(a, was, t, arena, live, t1)
    {
      var innerDepth, innerPrefix, inner := arena[newChild].childDepth, arena[newChild].prefix, arena[newChild].child;
      assert idx in was - Indices(t.child);
      StoredHash(hash2, arena, c.child);
      var h := FoldHash(SubtreeHash(inner, innerDepth), innerPrefix, bd, innerDepth);
      FreeNode(newChild);
      arena := arena[idx := ExtNode(bd, innerDepth, innerPrefix, inner, h)];
      StoredFrame(hash2, old(arena), arena, c.child);
      t1 := Ext(idx, bd, innerDepth, innerPrefix, c.child);
    }

    /** Look a key up by walking down from the root. */
    method FindLeaf(key: Key) returns (found: bool, value: Hash256)
      requires Valid()
      ensures found == (key in Map())
      ensures found ==> value == Map()[key]
    {
      var idx := root;
      ghost var t, d := tree, 0;
      if !tree.Nil? {
        CanonPath(tree, 0, ZERO_KEY, key);
      }
      found, value := false, ZERO;
      while idx != NULL
        invariant idx == Root(t) && Stored(hash2, arena, t)
        invariant t.Nil? || Canon(t, d, key)
        invariant key in Map() <==> key in Contents(t)
        invariant key in Map() ==> Map()[key] == Contents(t)[key]
        decreases t
      {
        match arena[idx]
        case LeafNode(k, v) =>
          if k == key {
            found, value := true, v;
          }
          return;
        case BranchNode(bd, left, right, _) =>
          DescendBranch(t, d, key);
          idx := if key[bd] then right else left;
          t, d := if key[bd] then t.right else t.left, d + 1;
        case ExtNode(bd, cd, prefix, child, _) =>
          var i := CommonPrefix(key, prefix, bd, cd);
          DescendExtension(t, d, key, i);
          if i < cd {
            return;
          }
          idx := child;
          t, d := t.child, cd;
      }
    }

    /** Insert or overwrite a leaf: the root hash is that of the naive tree over the updated map. */
    method Insert(key: Key, value: Hash256)
      requires Valid()
      modifies this
      ensures Valid()
      ensures Map() == old(Map())[key := value]
      ensures rootHash == NaiveRoot(hash2, old(Map())[key := value], 0)
    {
      hide SparseMerkleTree.Rooted, SparseMerkleTree.SubtreeHash, Contents, NaiveRoot;
      var present, _ := FindLeaf(key);
      UpdateSize(Map(), key, value);
      ghost var t1 := InsertRoot(key, value);
      rootHash := SubtreeHash(root, 0);
      tree := t1;
      if !present {
        leafCount := leafCount + 1;
      }
    }

    method InsertRoot(key: Key, value: Hash256) returns (ghost t1: Tree)
      requires Rooted(tree)
      modifies this`arena, this`free, this`live, this`root
      ensures Rooted(t1) && Contents(t1) == Contents(tree)[key := value]
      ensures root < |arena| && SubtreeHash(root, 0) == NaiveRoot(hash2, Contents(t1), 0)
    {
      if !tree.Nil? {
        CanonPath(tree, 0, ZERO_KEY, key);
      }
      root, t1 := InsertAt(root, 0, key, value, tree);
      StoredHash(hash2, arena, t1);
      TopChanged(hash2, t1, key);
    }

    /** Remove a leaf if it is there; an absent key leaves everything as it was. */
    method Remove(key: Key)
      requires Valid()
      modifies this
      ensures Valid()
      ensures Map() == old(Map()) - {key}
      ensures rootHash == NaiveRoot(hash2, old(Map()) - {key}, 0)
    {
      hide SparseMerkleTree.Rooted, SparseMerkleTree.SubtreeHash, Contents, NaiveRoot;
      var present, _ := FindLeaf(key);
      if !present {
        assert Map() - {key} == Map();
        return;
      }
      UpdateSize(Map(), key, ZERO);
      ghost var t1 := RemoveRoot(key);
      rootHash := SubtreeHash(root, 0);
      tree := t1;
      leafCount := leafCount - 1;
    }

    method RemoveRoot(key: Key) returns (ghost t1: Tree)
      requires Rooted(tree) && key in Contents(tree)
      modifies this`arena, this`free, this`live, this`root
      ensures Rooted(t1) && Contents(t1) == Contents(tree) - {key}
      ensures root < |arena| && SubtreeHash(root, 0) == NaiveRoot(hash2, Contents(t1), 0)
    {
      CanonPath(tree, 0, ZERO_KEY, key);
      root, t1 := RemoveAt(root, 0, key, tree);
      if !t1.Nil? {
        StoredHash(hash2, arena, t1);
        TopChanged(hash2, t1, key);
      }
    }
  }

  /** The slots 1..n of an arena. */
  ghost function Slots(n: nat): (s: set<nat>)
    ensures |s| == n && forall i :: i in s <==> 1 <= i <= n
  {
    if n == 0 then {} else Slots(n - 1) + {n}
  }

  ghost function Elements(s: seq<nat>): set<nat> {
    set x | x in s
  }

  lemma {:induction false} DistinctSize(s: seq<nat>)
    requires forall i, j | 0 <= i < j < |s| :: s[i] != s[j]
    ensures |Elements(s)| == |s|
  {
    if |s| > 0 {
      var init, last := s[..|s| - 1], s[|s| - 1];
      DistinctSize(init);
      assert s == init + [last];
      assert last !in init;
      assert Elements(s) == Elements(init) + {last};
    }
  }
}
