/**
 Building script programs bottom up, and turning the result over so that the root comes first.
 */
module ScriptBuilder {
  import opened SmtSpec
  import opened Ledger

  type NodeId = nat

  /** 32 bytes. */
  type Key32 = s: Bytes | |s| == 32 witness seq(32, _ => 0)

  datatype JetId = TxSigHash | Ed25519Verify | Sha256 | EqHash | BlockHeight | Gt64 | Lt64 | OtherJet(code: nat)

  datatype Value =
    | UnitValue
    | LeftValue(value: Value)
    | RightValue(value: Value)
    | PairValue(left: Value, right: Value)
    | ListValue(elements: seq<Value>)
    | ByteString(bytes: Bytes)
    | Word(n: U64)
    | Wide(digits: Key32)            // 256 bits
    | Bool(b: bool)
    | HashValue(hash: Key32)

  datatype Combinator =
    | Iden
    | Comp(f: NodeId, g: NodeId)
    | Unit
    | Pair(f: NodeId, g: NodeId)
    | Take(f: NodeId)
    | Drop(f: NodeId)
    | InjL(f: NodeId)
    | InjR(f: NodeId)
    | Case(f: NodeId, g: NodeId)
    | Fold(f: NodeId, z: NodeId, k: nat)
    | ListFold(f: NodeId, z: NodeId)
    | Jet(jet: JetId)
    | Witness
    | MerkleHidden(hidden: Bytes)
    | Const(value: Value)

  datatype Program = Program(nodes: seq<Combinator>, root: NodeId)

  // ---- Nodes, children and the trees they stand for ----

  function Children(c: Combinator): seq<NodeId> {
    match c
    case Comp(f, g) => [f, g]
    case Pair(f, g) => [f, g]
    case Take(f) => [f]
    case Drop(f) => [f]
    case InjL(f) => [f]
    case InjR(f) => [f]
    case Case(f, g) => [f, g]
    case Fold(f, z, _) => [f, z]
    case ListFold(f, z) => [f, z]
    case _ => []
  }

  function Remap(c: Combinator, m: NodeId -> NodeId): (r: Combinator)
    ensures |Children(r)| == |Children(c)| && forall i | 0 <= i < |Children(c)| :: Children(r)[i] == m(Children(c)[i])
    ensures Label(r) == Label(c)
  {
    match c
    case Comp(f, g) => Comp(m(f), m(g))
    case Pair(f, g) => Pair(m(f), m(g))
    case Take(f) => Take(m(f))
    case Drop(f) => Drop(m(f))
    case InjL(f) => InjL(m(f))
    case InjR(f) => InjR(m(f))
    case Case(f, g) => Case(m(f), m(g))
    case Fold(f, z, k) => Fold(m(f), m(z), k)
    case ListFold(f, z) => ListFold(m(f), m(z))
    case _ => c
  }

  /** A node without its children. */
  function Label(c: Combinator): Combinator {
    match c
    case Comp(_, _) => Comp(0, 0)
    case Pair(_, _) => Pair(0, 0)
    case Take(_) => Take(0)
    case Drop(_) => Drop(0)
    case InjL(_) => InjL(0)
    case InjR(_) => InjR(0)
    case Case(_, _) => Case(0, 0)
    case Fold(_, _, k) => Fold(0, 0, k)
    case ListFold(_, _) => ListFold(0, 0)
    case _ => c
  }

  /** A program as a tree. */
  datatype Term = Term(op: Combinator, subterms: seq<Term>)

  /** Children come before their parents, as when nodes are pushed. */
  ghost predicate BottomUp(nodes: seq<Combinator>) {
    forall i | 0 <= i < |nodes| :: Below(nodes, i)
  }

  ghost predicate Below(nodes: seq<Combinator>, i: nat)
    requires i < |nodes|
  {
    forall j | 0 <= j < |Children(nodes[i])| :: Children(nodes[i])[j] < i
  }

  /** Children come after their parents, as in a program. */
  ghost predicate TopDown(nodes: seq<Combinator>) {
    forall i | 0 <= i < |nodes| :: Above(nodes, i)
  }

  ghost predicate Above(nodes: seq<Combinator>, i: nat)
    requires i < |nodes|
  {
    forall j | 0 <= j < |Children(nodes[i])| :: i < Children(nodes[i])[j] < |nodes|
  }

  ghost function UnfoldUp(nodes: seq<Combinator>, i: nat): Term
    requires BottomUp(nodes) && i < |nodes|
    decreases i
  {
    assert Below(nodes, i);
    var kids := Children(nodes[i]);
    Term(Label(nodes[i]), seq(|kids|, j requires 0 <= j < |kids| => UnfoldUp(nodes, kids[j])))
  }

  ghost function UnfoldDown(nodes: seq<Combinator>, i: nat): Term
    requires TopDown(nodes) && i < |nodes|
    decreases |nodes| - i
  {
    assert Above(nodes, i);
    var kids := Children(nodes[i]);
    Term(Label(nodes[i]), seq(|kids|, j requires 0 <= j < |kids| => UnfoldDown(nodes, kids[j])))
  }

  // ---- Turning the arena over ----

  function Flip(n: nat): NodeId -> NodeId {
    id => if id < n then n - 1 - id else 0
  }

  function Built(nodes: seq<Combinator>): (r: seq<Combinator>)
    ensures |r| == |nodes|
    ensures forall i | 0 <= i < |nodes| :: r[i] == Remap(nodes[|nodes| - 1 - i], Flip(|nodes|))
  {
    seq(|nodes|, i requires 0 <= i < |nodes| => Remap(nodes[|nodes| - 1 - i], Flip(|nodes|)))
  }

  lemma BuiltTopDown(nodes: seq<Combinator>)
    requires BottomUp(nodes)
    ensures TopDown(Built(nodes))
  {
    var n, r := |nodes|, Built(nodes);
    forall i | 0 <= i < n ensures Above(r, i) {
      assert Below(nodes, n - 1 - i);
      var c := nodes[n - 1 - i];
      forall j | 0 <= j < |Children(r[i])| ensures i < Children(r[i])[j] < n {
        assert Children(r[i])[j] == Flip(n)(Children(c)[j]);
      }
    }
  }

  /** Turning the arena over changes no tree: node `i` becomes node `n - 1 - i`. */
  lemma {:induction false} BuildPreserves(nodes: seq<Combinator>, i: nat)
    requires BottomUp(nodes) && i < |nodes|
    ensures TopDown(Built(nodes)) && UnfoldDown(Built(nodes), |nodes| - 1 - i) == UnfoldUp(nodes, i)
    decreases i
  {
    BuiltTopDown(nodes);
    var n, r := |nodes|, Built(nodes);
    var c, d := nodes[i], r[n - 1 - i];
    assert Below(nodes, i) && Above(r, n - 1 - i);
    assert d == Remap(c, Flip(n));
    forall j | 0 <= j < |Children(c)| ensures UnfoldDown(r, Children(d)[j]) == UnfoldUp(nodes, Children(c)[j]) {
      BuildPreserves(nodes, Children(c)[j]);
    }
    assert UnfoldDown(r, n - 1 - i).subterms == UnfoldUp(nodes, i).subterms;
  }

  // ---- More nodes do not change what is there ----

  lemma {:induction false} UnfoldPrefix(a: seq<Combinator>, b: seq<Combinator>, i: nat)
    requires BottomUp(a) && BottomUp(a + b) && i < |a|
    ensures UnfoldUp(a + b, i) == UnfoldUp(a, i)
    decreases i
  {
    assert (a + b)[i] == a[i];
    assert Below(a, i);
    forall j | 0 <= j < |Children(a[i])| ensures UnfoldUp(a + b, Children(a[i])[j]) == UnfoldUp(a, Children(a[i])[j]) {
      UnfoldPrefix(a, b, Children(a[i])[j]);
    }
    assert UnfoldUp(a + b, i).subterms == UnfoldUp(a, i).subterms;
  }

  lemma PushBottomUp(nodes: seq<Combinator>, c: Combinator)
    requires BottomUp(nodes) && forall j | 0 <= j < |Children(c)| :: Children(c)[j] < |nodes|
    ensures BottomUp(nodes + [c])
  {
    forall i | 0 <= i < |nodes + [c]| ensures Below(nodes + [c], i) {
      if i < |nodes| { assert Below(nodes, i); }
    }
  }

  /** The terms that the node ids passed to a builder call stand for. */
  ghost function Terms(nodes: seq<Combinator>, ids: seq<NodeId>): seq<Term>
    requires BottomUp(nodes) && forall j | 0 <= j < |ids| :: ids[j] < |nodes|
  {
    seq(|ids|, j requires 0 <= j < |ids| => UnfoldUp(nodes, ids[j]))
  }

  /** A pushed node unfolds to its own label over the terms of its children, and every earlier term stays. */
  lemma PushUnfolds(nodes: seq<Combinator>, c: Combinator)
    requires BottomUp(nodes) && forall j | 0 <= j < |Children(c)| :: Children(c)[j] < |nodes|
    ensures BottomUp(nodes + [c])
    ensures UnfoldUp(nodes + [c], |nodes|) == Term(Label(c), Terms(nodes, Children(c)))
    ensures forall i | 0 <= i < |nodes| :: UnfoldUp(nodes + [c], i) == UnfoldUp(nodes, i)
  {
    PushBottomUp(nodes, c);
    forall i | 0 <= i < |nodes| ensures UnfoldUp(nodes + [c], i) == UnfoldUp(nodes, i) {
      UnfoldPrefix(nodes, [c], i);
    }
    assert (nodes + [c])[|nodes|] == c;
    assert UnfoldUp(nodes + [c], |nodes|).subterms == Terms(nodes, Children(c));
  }

  // ---- The builder ----

  class Builder {
    var nodes: seq<Combinator>

    ghost predicate Valid()
      reads this
    {
      BottomUp(nodes)
    }

    /** The tree behind an id. */
    ghost function TermOf(id: NodeId): Term
      requires Valid() && id < |nodes|
      reads this
    {
      UnfoldUp(nodes, id)
    }

    constructor ()
      ensures Valid() && nodes == []
    {
      nodes := [];
    }

    method Push(c: Combinator) returns (id: NodeId)
      requires Valid() && forall j | 0 <= j < |Children(c)| :: Children(c)[j] < |nodes|
      modifies this
      ensures Valid() && nodes == old(nodes) + [c] && id == |old(nodes)|
    {
      PushUnfolds(nodes, c);
      id := |nodes|;
      nodes := nodes + [c];
    }

    /** The last node becomes the root, and the program unfolds to the same tree. */
    method Build() returns (p: Program)
      requires Valid() && nodes != []
      ensures p == Program(Built(nodes), 0)
      ensures TopDown(p.nodes) && UnfoldDown(p.nodes, p.root) == TermOf(|nodes| - 1)
    {
      hide BottomUp, TopDown, UnfoldUp, UnfoldDown, Remap, Built, Flip;
      var n := |nodes|;
      var turned: seq<Combinator> := [];
      var i := n;
      while i > 0
        invariant 0 <= i <= n && turned == Built(nodes)[..n - i]
      {
        i := i - 1;
        turned := turned + [Remap(nodes[i], Flip(n))];
      }
      assert Built(nodes)[..n] == Built(nodes);
      BuildPreserves(nodes, n - 1);
      p := Program(turned, 0);
    }
  }
}
