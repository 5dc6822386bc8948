/**
 The hash time-locked contract template: its tree, its node list, and the parser that recovers its parameters.
 */
module Htlc {
  import opened Ledger
  import opened ScriptBuilder
  import opened ScriptEval

  datatype HtlcParams = HtlcParams(sender: Key32, receiver: Key32, hashLock: Key32, timeout: U64)

  // ---- Trees ----

  function Leaf(c: Combinator): Term {
    Term(c, [])
  }

  function Seq2(a: Term, b: Term): Term {
    Term(Comp(0, 0), [a, b])
  }

  function Pair2(a: Term, b: Term): Term {
    Term(Pair(0, 0), [a, b])
  }

  function Branch(a: Term, b: Term): Term {
    Term(Case(0, 0), [a, b])
  }

  function SigCheckTerm(key: Bytes): Term {
    Seq2(Pair2(Seq2(Leaf(Unit), Leaf(Jet(TxSigHash))), Pair2(Leaf(Const(ByteString(key))), Leaf(Witness))), Leaf(Jet(Ed25519Verify)))
  }

  function HashEqTerm(lock: Key32): Term {
    Seq2(Pair2(Seq2(Leaf(Witness), Leaf(Jet(Sha256))), Leaf(Const(HashValue(lock)))), Leaf(Jet(EqHash)))
  }

  function HeightGtTerm(height: U64): Term {
    Seq2(Pair2(Seq2(Leaf(Unit), Leaf(Jet(BlockHeight))), Leaf(Const(Word(height)))), Leaf(Jet(Gt64)))
  }

  function AndTerm(a: Term, b: Term): Term {
    Seq2(a, Branch(Leaf(Const(Bool(false))), b))
  }

  /** A witness selects between preimage with the receiver's signature and timeout with the sender's. */
  function HtlcTerm(p: HtlcParams): Term {
    Seq2(Leaf(Witness),
         Branch(AndTerm(HashEqTerm(p.hashLock), SigCheckTerm(p.receiver)),
                AndTerm(HeightGtTerm(p.timeout), SigCheckTerm(p.sender))))
  }

  // ---- Nodes ----

  function SigCheckNodes(n: nat, key: Bytes): seq<Combinator> {
    [Jet(TxSigHash), Unit, Comp(n + 1, n), Const(ByteString(key)), Witness, Pair(n + 3, n + 4), Pair(n + 2, n + 5),
     Jet(Ed25519Verify), Comp(n + 6, n + 7)]
  }

  function HashEqNodes(n: nat, lock: Key32): seq<Combinator> {
    [Witness, Jet(Sha256), Comp(n, n + 1), Const(HashValue(lock)), Pair(n + 2, n + 3), Jet(EqHash), Comp(n + 4, n + 5)]
  }

  function HeightGtNodes(n: nat, height: U64): seq<Combinator> {
    [Jet(BlockHeight), Unit, Comp(n + 1, n), Const(Word(height)), Pair(n + 2, n + 3), Jet(Gt64), Comp(n + 4, n + 5)]
  }

  function AndNodes(n: nat, a: NodeId, b: NodeId): seq<Combinator> {
    [Const(Bool(false)), Case(n, b), Comp(a, n + 1)]
  }

  function HtlcNodes(p: HtlcParams): seq<Combinator> {
    HashEqNodes(0, p.hashLock) + SigCheckNodes(7, p.receiver) + AndNodes(16, 6, 15)
      + HeightGtNodes(19, p.timeout) + SigCheckNodes(26, p.sender) + AndNodes(35, 25, 34)
      + [Witness, Case(18, 37), Comp(38, 39)]
  }

  function HtlcProgram(p: HtlcParams): Program {
    Program(Built(HtlcNodes(p)), 0)
  }

  lemma Unfold0(nodes: seq<Combinator>, i: nat)
    requires BottomUp(nodes) && i < |nodes| && Children(nodes[i]) == []
    ensures UnfoldUp(nodes, i) == Leaf(Label(nodes[i]))
  {
    assert UnfoldUp(nodes, i).subterms == [];
  }

  lemma Unfold2(nodes: seq<Combinator>, i: nat, f: nat, g: nat)
    requires BottomUp(nodes) && i < |nodes| && Children(nodes[i]) == [f, g]
    ensures f < i && g < i && UnfoldUp(nodes, i) == Term(Label(nodes[i]), [UnfoldUp(nodes, f), UnfoldUp(nodes, g)])
  {
    assert Below(nodes, i);
    assert Children(nodes[i])[0] == f && Children(nodes[i])[1] == g;
    assert UnfoldUp(nodes, i).subterms == [UnfoldUp(nodes, f), UnfoldUp(nodes, g)];
  }

  /** The nodes at `n` and after are these. */
  ghost predicate At(nodes: seq<Combinator>, n: nat, part: seq<Combinator>) {
    n + |part| <= |nodes| && forall i | 0 <= i < |part| :: nodes[n + i] == part[i]
  }

  lemma AtEnd(base: seq<Combinator>, part: seq<Combinator>)
    ensures At(base + part, |base|, part)
  {
  }

  lemma AtIndex(nodes: seq<Combinator>, n: nat, part: seq<Combinator>, i: nat)
    requires At(nodes, n, part) && i < |part|
    ensures n + i < |nodes| && nodes[n + i] == part[i]
  {
  }

  /** A jet applied to the unit value. */
  lemma UnitJet(nodes: seq<Combinator>, n: nat, jet: JetId)
    requires BottomUp(nodes) && n + 2 < |nodes| && nodes[n] == Jet(jet) && nodes[n + 1] == Unit && nodes[n + 2] == Comp(n + 1, n)
    ensures UnfoldUp(nodes, n + 2) == Seq2(Leaf(Unit), Leaf(Jet(jet)))
  {
    hide UnfoldUp, BottomUp;
    Unfold0(nodes, n);
    Unfold0(nodes, n + 1);
    Unfold2(nodes, n + 2, n + 1, n);
  }

  /** A pair compared by a jet. */
  lemma Compared(nodes: seq<Combinator>, n: nat, x: nat, y: nat, jet: JetId)
    requires BottomUp(nodes) && n + 2 < |nodes| && nodes[n] == Pair(x, y) && nodes[n + 1] == Jet(jet) && nodes[n + 2] == Comp(n, n + 1)
    ensures x < n && y < n && UnfoldUp(nodes, n + 2) == Seq2(Pair2(UnfoldUp(nodes, x), UnfoldUp(nodes, y)), Leaf(Jet(jet)))
  {
    hide UnfoldUp, BottomUp;
    Unfold2(nodes, n, x, y);
    Unfold0(nodes, n + 1);
    Unfold2(nodes, n + 2, n, n + 1);
  }

  lemma SigCheckUnfolds(nodes: seq<Combinator>, n: nat, key: Bytes)
    requires BottomUp(nodes) && At(nodes, n, SigCheckNodes(n, key))
    ensures n + 8 < |nodes| && UnfoldUp(nodes, n + 8) == SigCheckTerm(key)
  {
    hide UnfoldUp, BottomUp, At;
    var p := SigCheckNodes(n, key);
    AtIndex(nodes, n, p, 0);
    AtIndex(nodes, n, p, 1);
    AtIndex(nodes, n, p, 2);
    AtIndex(nodes, n, p, 3);
    AtIndex(nodes, n, p, 4);
    AtIndex(nodes, n, p, 5);
    AtIndex(nodes, n, p, 6);
    AtIndex(nodes, n, p, 7);
    AtIndex(nodes, n, p, 8);
    UnitJet(nodes, n, TxSigHash);
    Unfold0(nodes, n + 3);
    Unfold0(nodes, n + 4);
    Unfold2(nodes, n + 5, n + 3, n + 4);
    Compared(nodes, n + 6, n + 2, n + 5, Ed25519Verify);
  }

  lemma HashEqUnfolds(nodes: seq<Combinator>, n: nat, lock: Key32)
    requires BottomUp(nodes) && At(nodes, n, HashEqNodes(n, lock))
    ensures n + 6 < |nodes| && UnfoldUp(nodes, n + 6) == HashEqTerm(lock)
  {
    hide UnfoldUp, BottomUp, At;
    var p := HashEqNodes(n, lock);
    AtIndex(nodes, n, p, 0);
    AtIndex(nodes, n, p, 1);
    AtIndex(nodes, n, p, 2);
    AtIndex(nodes, n, p, 3);
    AtIndex(nodes, n, p, 4);
    AtIndex(nodes, n, p, 5);
    AtIndex(nodes, n, p, 6);
    Unfold0(nodes, n);
    Unfold0(nodes, n + 1);
    Unfold2(nodes, n + 2, n, n + 1);
    Unfold0(nodes, n + 3);
    Compared(nodes, n + 4, n + 2, n + 3, EqHash);
  }

  lemma HeightGtUnfolds(nodes: seq<Combinator>, n: nat, height: U64)
    requires BottomUp(nodes) && At(nodes, n, HeightGtNodes(n, height))
    ensures n + 6 < |nodes| && UnfoldUp(nodes, n + 6) == HeightGtTerm(height)
  {
    hide UnfoldUp, BottomUp, At;
    var p := HeightGtNodes(n, height);
    AtIndex(nodes, n, p, 0);
    AtIndex(nodes, n, p, 1);
    AtIndex(nodes, n, p, 2);
    AtIndex(nodes, n, p, 3);
    AtIndex(nodes, n, p, 4);
    AtIndex(nodes, n, p, 5);
    AtIndex(nodes, n, p, 6);
    UnitJet(nodes, n, BlockHeight);
    Unfold0(nodes, n + 3);
    Compared(nodes, n + 4, n + 2, n + 3, Gt64);
  }

  lemma AndUnfolds(nodes: seq<Combinator>, n: nat, a: nat, b: nat)
    requires BottomUp(nodes) && At(nodes, n, AndNodes(n, a, b))
    ensures a < |nodes| && b < |nodes| && n + 2 < |nodes|
    ensures UnfoldUp(nodes, n + 2) == AndTerm(UnfoldUp(nodes, a), UnfoldUp(nodes, b))
  {
    hide UnfoldUp, BottomUp, At;
    var p := AndNodes(n, a, b);
    AtIndex(nodes, n, p, 0);
    AtIndex(nodes, n, p, 1);
    AtIndex(nodes, n, p, 2);
    Unfold0(nodes, n);
    Unfold2(nodes, n + 1, n, b);
    Unfold2(nodes, n + 2, a, n + 1);
  }

  // ---- The builder calls ----

  method SigCheck(b: Builder, key: Bytes) returns (id: NodeId)
    requires b.Valid()
    modifies b
    ensures b.Valid() && b.nodes == old(b.nodes) + SigCheckNodes(|old(b.nodes)|, key)
    ensures id == |old(b.nodes)| + 8 && b.TermOf(id) == SigCheckTerm(key)
  {
    hide UnfoldUp, BottomUp, At, SigCheckTerm;
    ghost var before, n := b.nodes, |b.nodes|;
    var sigHash := b.Push(Jet(TxSigHash));
    var u := b.Push(Unit);
    var msg := b.Push(Comp(u, sigHash));
    var pk := b.Push(Const(ByteString(key)));
    assert b.nodes == before + [Jet(TxSigHash), Unit, Comp(u, sigHash), Const(ByteString(key))];
    var w := b.Push(Witness);
    var pkSig := b.Push(Pair(pk, w));
    var input := b.Push(Pair(msg, pkSig));
    var verify := b.Push(Jet(Ed25519Verify));
    id := b.Push(Comp(input, verify));
    assert b.nodes == before + SigCheckNodes(n, key);
    AtEnd(before, SigCheckNodes(n, key));
    SigCheckUnfolds(b.nodes, n, key);
  }

  method HashEq(b: Builder, lock: Key32) returns (id: NodeId)
    requires b.Valid()
    modifies b
    ensures b.Valid() && b.nodes == old(b.nodes) + HashEqNodes(|old(b.nodes)|, lock)
    ensures id == |old(b.nodes)| + 6 && b.TermOf(id) == HashEqTerm(lock)
  {
    hide UnfoldUp, BottomUp, At;
    ghost var before, n := b.nodes, |b.nodes|;
    var w := b.Push(Witness);
    var sha := b.Push(Jet(Sha256));
    var hashed := b.Push(Comp(w, sha));
    var expected := b.Push(Const(HashValue(lock)));
    var pair := b.Push(Pair(hashed, expected));
    var eq := b.Push(Jet(EqHash));
    id := b.Push(Comp(pair, eq));
    assert b.nodes == before + HashEqNodes(n, lock);
    AtEnd(before, HashEqNodes(n, lock));
    HashEqUnfolds(b.nodes, n, lock);
  }

  method HeightGt(b: Builder, height: U64) returns (id: NodeId)
    requires b.Valid()
    modifies b
    ensures b.Valid() && b.nodes == old(b.nodes) + HeightGtNodes(|old(b.nodes)|, height)
    ensures id == |old(b.nodes)| + 6 && b.TermOf(id) == HeightGtTerm(height)
  {
    hide UnfoldUp, BottomUp, At;
    ghost var before, n := b.nodes, |b.nodes|;
    var jet := b.Push(Jet(BlockHeight));
    var u := b.Push(Unit);
    var current := b.Push(Comp(u, jet));
    var threshold := b.Push(Const(Word(height)));
    var pair := b.Push(Pair(current, threshold));
    var gt := b.Push(Jet(Gt64));
    id := b.Push(Comp(pair, gt));
    assert b.nodes == before + HeightGtNodes(n, height);
    AtEnd(before, HeightGtNodes(n, height));
    HeightGtUnfolds(b.nodes, n, height);
  }

  method And(b: Builder, x: NodeId, y: NodeId) returns (id: NodeId)
    requires b.Valid() && x < |b.nodes| && y < |b.nodes|
    modifies b
    ensures b.Valid() && b.nodes == old(b.nodes) + AndNodes(|old(b.nodes)|, x, y)
    ensures id == |old(b.nodes)| + 2 && b.TermOf(id) == AndTerm(old(b.TermOf(x)), old(b.TermOf(y)))
  {
    hide UnfoldUp, BottomUp, At;
    ghost var before := b.nodes;
    var cf := b.Push(Const(Bool(false)));
    var branch := b.Push(Case(cf, y));
    id := b.Push(Comp(x, branch));
    assert b.nodes == before + AndNodes(|before|, x, y);
    AtEnd(before, AndNodes(|before|, x, y));
    AndUnfolds(b.nodes, |before|, x, y);
    UnfoldPrefix(before, AndNodes(|before|, x, y), x);
    UnfoldPrefix(before, AndNodes(|before|, x, y), y);
  }

  /** The template is built node for node, and unfolds to the contract's tree. */
  method BuildHtlc(p: HtlcParams) returns (program: Program)
    ensures program == HtlcProgram(p)
    ensures TopDown(program.nodes) && UnfoldDown(program.nodes, program.root) == HtlcTerm(p)
  {
    hide UnfoldUp, UnfoldDown, BottomUp, TopDown, SigCheckNodes, HashEqNodes, HeightGtNodes, AndNodes, SigCheckTerm, HashEqTerm, HeightGtTerm, AndTerm, Built;
    Sizes(p);
    var b := new Builder();
    var hashCheck := HashEq(b, p.hashLock);
    ghost var n0 := b.nodes;
    var receiverCheck := SigCheck(b, p.receiver);
    UnfoldPrefix(n0, SigCheckNodes(7, p.receiver), hashCheck);
    var hashPath := And(b, hashCheck, receiverCheck);
    ghost var n2 := b.nodes;
    var timeoutCheck := HeightGt(b, p.timeout);
    ghost var n3 := b.nodes;
    var senderCheck := SigCheck(b, p.sender);
    ghost var n4 := b.nodes;
    UnfoldPrefix(n3, SigCheckNodes(26, p.sender), timeoutCheck);
    var timeoutPath := And(b, timeoutCheck, senderCheck);
    ghost var n5 := b.nodes;
    UnfoldPrefix(n2, HeightGtNodes(19, p.timeout), hashPath);
    UnfoldPrefix(n3, SigCheckNodes(26, p.sender), hashPath);
    UnfoldPrefix(n4, AndNodes(35, 25, 34), hashPath);
    var selector := b.Push(Witness);
    var branch := b.Push(Case(hashPath, timeoutPath));
    var root := b.Push(Comp(selector, branch));
    ghost var last := [Witness, Case(18, 37), Comp(38, 39)];
    assert b.nodes == n5 + last;
    UnfoldPrefix(n5, last, hashPath);
    UnfoldPrefix(n5, last, timeoutPath);
    RootUnfolds(b.nodes, p);
    assert b.nodes == HtlcNodes(p);
    program := b.Build();
  }

  lemma Sizes(p: HtlcParams)
    ensures |HashEqNodes(0, p.hashLock)| == 7 && |SigCheckNodes(7, p.receiver)| == 9 && |AndNodes(16, 6, 15)| == 3
    ensures |HeightGtNodes(19, p.timeout)| == 7 && |SigCheckNodes(26, p.sender)| == 9 && |AndNodes(35, 25, 34)| == 3
  {
  }

  lemma RootUnfolds(nodes: seq<Combinator>, p: HtlcParams)
    requires BottomUp(nodes) && |nodes| == 41 && nodes[38] == Witness && nodes[39] == Case(18, 37) && nodes[40] == Comp(38, 39)
    requires UnfoldUp(nodes, 18) == AndTerm(HashEqTerm(p.hashLock), SigCheckTerm(p.receiver))
    requires UnfoldUp(nodes, 37) == AndTerm(HeightGtTerm(p.timeout), SigCheckTerm(p.sender))
    ensures UnfoldUp(nodes, 40) == HtlcTerm(p)
  {
    hide UnfoldUp, BottomUp, SigCheckTerm, HashEqTerm, HeightGtTerm, AndTerm;
    Unfold0(nodes, 38);
    Unfold2(nodes, 39, 18, 37);
    Unfold2(nodes, 40, 38, 39);
  }

  // ---- Scanning for the parameters ----

  /** The embedded constants in order. */
  function Consts(nodes: seq<Combinator>): seq<Value> {
    if nodes == [] then []
    else Consts(nodes[..|nodes| - 1]) + (if nodes[|nodes| - 1].Const? then [nodes[|nodes| - 1].value] else [])
  }

  /** The embedded constants, last first. */
  function ConstsBack(nodes: seq<Combinator>): seq<Value> {
    if nodes == [] then []
    else ConstsBack(nodes[1..]) + (if nodes[0].Const? then [nodes[0].value] else [])
  }

  lemma {:induction false} ConstsBackConcat(a: seq<Combinator>, b: seq<Combinator>)
    ensures ConstsBack(a + b) == ConstsBack(b) + ConstsBack(a)
  {
    if a == [] {
      assert a + b == b;
    } else {
      assert (a + b)[1..] == a[1..] + b;
      ConstsBackConcat(a[1..], b);
    }
  }

  /** Turning the arena over turns the constants over. */
  lemma {:induction false} ConstsTurned(nodes: seq<Combinator>, k: nat)
    requires k <= |nodes|
    ensures Consts(Built(nodes)[..k]) == ConstsBack(nodes[|nodes| - k..])
    decreases k
  {
    if k > 0 {
      hide Built, Remap, Flip, Consts, ConstsBack;
      var n, r := |nodes|, Built(nodes);
      ConstsTurned(nodes, k - 1);
      assert r[..k][..k - 1] == r[..k - 1];
      assert nodes[n - k..][1..] == nodes[n - (k - 1)..];
      ConstsUnfold(r[..k], nodes[n - k..]);
      SameConst(nodes[n - k], Flip(n));
    } else {
      ConstsUnfold(Built(nodes)[..k], nodes[|nodes| - k..]);
    }
  }

  lemma ConstsUnfold(a: seq<Combinator>, b: seq<Combinator>)
    ensures Consts(a) == if a == [] then [] else
                           Consts(a[..|a| - 1]) + (if a[|a| - 1].Const? then [a[|a| - 1].value] else [])
    ensures ConstsBack(b) == if b == [] then [] else
                               ConstsBack(b[1..]) + (if b[0].Const? then [b[0].value] else [])
  {
  }

  lemma SameConst(c: Combinator, m: NodeId -> NodeId)
    ensures Remap(c, m).Const? == c.Const? && (c.Const? ==> Remap(c, m) == c)
  {
  }

  datatype Found = Found(keys: seq<Key32>, lock: Option<Key32>, timeout: Option<U64>)

  /** One constant more; `None` when the template cannot contain it. */
  function Note(found: Option<Found>, v: Value): Option<Found> {
    if found.None? then None
    else
      match v
      case ByteString(bytes) =>
        if |bytes| != 32 then found
        else if |found.value.keys| >= 2 then None
        else Some(found.value.(keys := found.value.keys + [bytes]))
      case HashValue(h) => if found.value.lock.Some? then None else Some(found.value.(lock := Some(h)))
      case Word(n) => if found.value.timeout.Some? then None else Some(found.value.(timeout := Some(n)))
      case _ => found
  }

  function Scan(values: seq<Value>): Option<Found> {
    if values == [] then Some(Found([], None, None)) else Note(Scan(values[..|values| - 1]), values[|values| - 1])
  }

  lemma {:induction false} ScanStuck(values: seq<Value>, n: nat)
    requires n <= |values| && Scan(values[..n]).None?
    ensures Scan(values).None?
    decreases |values|
  {
    if n < |values| {
      assert values[..|values| - 1][..n] == values[..n];
      ScanStuck(values[..|values| - 1], n);
    } else {
      assert values[..n] == values;
    }
  }

  method CollectConstants(nodes: seq<Combinator>) returns (found: Option<Found>)
    ensures found == Scan(Consts(nodes))
  {
    hide Note, Scan, Consts;
    found := Some(Found([], None, None));
    EmptyScan();
    NoNodes();
    for i := 0 to |nodes|
      invariant found.Some? && found == Scan(Consts(nodes[..i]))
    {
      ConstsStep(nodes, i);
      if nodes[i].Const? {
        ScanSnoc(Consts(nodes[..i]), nodes[i].value);
        found := Note(found, nodes[i].value);
        if found.None? {
          ConstsPrefix(nodes, i + 1);
          assert Consts(nodes)[..|Consts(nodes[..i + 1])|] == Consts(nodes[..i + 1]);
          ScanStuck(Consts(nodes), |Consts(nodes[..i + 1])|);
          return;
        }
      }
    }
    assert nodes[..|nodes|] == nodes;
  }

  lemma NoNodes()
    ensures Consts([]) == []
  {
  }

  lemma ConstsStep(nodes: seq<Combinator>, i: nat)
    requires i < |nodes|
    ensures nodes[i].Const? ==> Consts(nodes[..i + 1]) == Consts(nodes[..i]) + [nodes[i].value]
    ensures !nodes[i].Const? ==> Consts(nodes[..i + 1]) == Consts(nodes[..i])
  {
    assert nodes[..i + 1][..i] == nodes[..i];
  }

  lemma {:induction false} ConstsPrefix(nodes: seq<Combinator>, n: nat)
    requires n <= |nodes|
    ensures Consts(nodes[..n]) <= Consts(nodes)
    decreases |nodes|
  {
    if n < |nodes| {
      assert nodes[..|nodes| - 1][..n] == nodes[..n];
      ConstsPrefix(nodes[..|nodes| - 1], n);
    } else {
      assert nodes[..n] == nodes;
    }
  }

  lemma PartConstants(n: nat, key: Key32, height: U64, a: nat, b: nat)
    ensures ConstsBack(SigCheckNodes(n, key)) == [ByteString(key)]
    ensures ConstsBack(HashEqNodes(n, key)) == [HashValue(key)]
    ensures ConstsBack(HeightGtNodes(n, height)) == [Word(height)]
    ensures ConstsBack(AndNodes(n, a, b)) == [Bool(false)]
    ensures ConstsBack([Witness, Case(a, b), Comp(a, b)]) == []
  {
    SplitConsts(SigCheckNodes(n, key), 3);
    SplitConsts(HashEqNodes(n, key), 3);
    SplitConsts(HeightGtNodes(n, height), 3);
    SplitConsts(AndNodes(n, a, b), 0);
    NoConsts([Witness, Case(a, b), Comp(a, b)]);
  }

  /** A list whose only constant is at `i`. */
  lemma SplitConsts(nodes: seq<Combinator>, i: nat)
    requires i < |nodes| && forall j | 0 <= j < |nodes| :: nodes[j].Const? <==> j == i
    ensures ConstsBack(nodes) == [nodes[i].value]
  {
    hide ConstsBack;
    var before, after := nodes[..i], nodes[i + 1..];
    assert nodes == before + ([nodes[i]] + after);
    ConstsBackConcat(before, [nodes[i]] + after);
    ConstsBackConcat([nodes[i]], after);
    NoConsts(before);
    NoConsts(after);
    OneConst(nodes[i]);
  }

  lemma OneConst(node: Combinator)
    requires node.Const?
    ensures ConstsBack([node]) == [node.value]
  {
    assert [node][1..] == [];
  }

  lemma {:induction false} NoConsts(nodes: seq<Combinator>)
    requires forall j | 0 <= j < |nodes| :: !nodes[j].Const?
    ensures ConstsBack(nodes) == []
  {
    if nodes != [] { NoConsts(nodes[1..]); }
  }

  lemma TemplateConstants(p: HtlcParams)
    ensures Consts(HtlcProgram(p).nodes)
              == [Bool(false), ByteString(p.sender), Word(p.timeout), Bool(false), ByteString(p.receiver), HashValue(p.hashLock)]
  {
    hide Consts, ConstsBack, SigCheckNodes, HashEqNodes, HeightGtNodes, AndNodes;
    var a, b, c := HashEqNodes(0, p.hashLock), SigCheckNodes(7, p.receiver), AndNodes(16, 6, 15);
    var d, e, f := HeightGtNodes(19, p.timeout), SigCheckNodes(26, p.sender), AndNodes(35, 25, 34);
    var g := [Witness, Case(18, 37), Comp(38, 39)];
    var nodes := HtlcNodes(p);
    ConstsTurned(nodes, |nodes|);
    assert Built(nodes)[..|nodes|] == Built(nodes) && nodes[|nodes| - |nodes|..] == nodes;
    ConstsBackConcat(a + b + c + d + e + f, g);
    ConstsBackConcat(a + b + c + d + e, f);
    ConstsBackConcat(a + b + c + d, e);
    ConstsBackConcat(a + b + c, d);
    ConstsBackConcat(a + b, c);
    ConstsBackConcat(a, b);
    PartConstants(0, p.hashLock, p.timeout, 18, 37);
    PartConstants(7, p.receiver, p.timeout, 0, 0);
    PartConstants(16, p.receiver, p.timeout, 6, 15);
    PartConstants(19, p.receiver, p.timeout, 0, 0);
    PartConstants(26, p.sender, p.timeout, 0, 0);
    PartConstants(35, p.sender, p.timeout, 25, 34);
    assert ConstsBack(g) == [] by { NoConsts(g); }
  }

  lemma ScanSnoc(values: seq<Value>, v: Value)
    ensures Scan(values + [v]) == Note(Scan(values), v)
  {
    assert (values + [v])[..|values|] == values;
  }

  lemma TemplateScans(p: HtlcParams)
    ensures Scan(Consts(HtlcProgram(p).nodes)) == Some(Found([p.sender, p.receiver], Some(p.hashLock), Some(p.timeout)))
  {
    TemplateConstants(p);
    hide Scan, Consts, HtlcProgram;
    var v1: seq<Value> := [Bool(false)];
    var v2 := v1 + [ByteString(p.sender)];
    var v3 := v2 + [Word(p.timeout)];
    var v4 := v3 + [Bool(false)];
    var v5 := v4 + [ByteString(p.receiver)];
    var v6 := v5 + [HashValue(p.hashLock)];
    EmptyScan();
    ScanSnoc([], Bool(false));
    assert [] + [Bool(false)] == v1;
    ScanSnoc(v1, ByteString(p.sender));
    assert [] + [p.sender] == [p.sender];
    assert Scan(v2) == Some(Found([p.sender], None, None));
    ScanSnoc(v2, Word(p.timeout));
    ScanSnoc(v3, Bool(false));
    assert Scan(v4) == Some(Found([p.sender], None, Some(p.timeout)));
    ScanSnoc(v4, ByteString(p.receiver));
    assert [p.sender] + [p.receiver] == [p.sender, p.receiver];
    ScanSnoc(v5, HashValue(p.hashLock));
    assert Consts(HtlcProgram(p).nodes) == v6;
  }

  lemma EmptyScan()
    ensures Scan([]) == Some(Found([], None, None))
  {
  }

  // ---- Parsing ----

  /** Program serialization, of which only its effect on the templates matters here. */
  datatype Codec = Codec(encode: Program -> Bytes, decode: Bytes -> Option<Program>)

  /** Every template decodes to itself. */
  ghost predicate Invertible(codec: Codec) {
    forall p: HtlcParams :: codec.decode(codec.encode(HtlcProgram(p))) == Some(HtlcProgram(p))
  }

  /** Different parameters give different scripts. */
  lemma ScriptsDiffer(codec: Codec, p: HtlcParams, q: HtlcParams)
    requires Invertible(codec) && codec.encode(HtlcProgram(p)) == codec.encode(HtlcProgram(q))
    ensures p == q
  {
    hide HtlcProgram, Scan, Consts;
    assert Some(HtlcProgram(p)) == Some(HtlcProgram(q));
    TemplateScans(p);
    TemplateScans(q);
    assert [p.sender, p.receiver][0] == [q.sender, q.receiver][0] && [p.sender, p.receiver][1] == [q.sender, q.receiver][1];
  }

  /**
   The parser returns parameters exactly for the scripts that the template produces from them: it recovers
   the parameters of every such script, and accepts nothing that differs from one in a single byte.
   */
  method TryParseHtlc(codec: Codec, script: Bytes) returns (r: Option<HtlcParams>)
    requires Invertible(codec)
    ensures forall p :: r == Some(p) <==> codec.encode(HtlcProgram(p)) == script
  {
    hide HtlcProgram, Scan, Consts, HtlcTerm, UnfoldDown, TopDown;
    forall p | codec.encode(HtlcProgram(p)) == script
      ensures codec.decode(script) == Some(HtlcProgram(p))
      ensures Scan(Consts(HtlcProgram(p).nodes)) == Some(Found([p.sender, p.receiver], Some(p.hashLock), Some(p.timeout)))
    {
      TemplateScans(p);
    }
    var program := codec.decode(script);
    if program.None? { return None; }
    var found := CollectConstants(program.value.nodes);
    if found.None? || |found.value.keys| != 2 || found.value.lock.None? || found.value.timeout.None? { return None; }
    var keys := found.value.keys;
    var a := HtlcParams(keys[0], keys[1], found.value.lock.value, found.value.timeout.value);
    forall p | codec.encode(HtlcProgram(p)) == script ensures p == a {
      assert keys == [p.sender, p.receiver];
    }
    var first := BuildHtlc(a);
    if codec.encode(first) == script { return Some(a); }
    var b := HtlcParams(keys[1], keys[0], found.value.lock.value, found.value.timeout.value);
    var second := BuildHtlc(b);
    if codec.encode(second) == script { return Some(b); }
    r := None;
  }

  // ---- Who can spend ----

  /** The signature check reads one signature and says whether it is the key's over this transaction. */
  lemma SigCheckMeans(x: Context, key: Bytes, input: Value, w: seq<Value>)
    ensures Eval(x, SigCheckTerm(key), input, w) ==
              if w != [] && w[0].ByteString? then Some((Bool(x.verify(x.sigHash, key, w[0].bytes)), w[1..])) else None
  {
    hide Eval;
    var digest, keySig := Seq2(Leaf(Unit), Leaf(Jet(TxSigHash))), Pair2(Leaf(Const(ByteString(key))), Leaf(Witness));
    EvalLeaf(x, Unit, input, w);
    EvalLeaf(x, Jet(TxSigHash), UnitValue, w);
    EvalComp(x, Leaf(Unit), Leaf(Jet(TxSigHash)), input, w);
    EvalLeaf(x, Const(ByteString(key)), input, w);
    EvalLeaf(x, Witness, input, w);
    EvalPair(x, Leaf(Const(ByteString(key))), Leaf(Witness), input, w);
    EvalPair(x, digest, keySig, input, w);
    EvalComp(x, Pair2(digest, keySig), Leaf(Jet(Ed25519Verify)), input, w);
    if w != [] {
      EvalLeaf(x, Jet(Ed25519Verify), PairValue(ByteString(x.sigHash), PairValue(ByteString(key), w[0])), w[1..]);
    }
  }

  /** The hash check reads one preimage and says whether it hashes to the lock. */
  lemma HashEqMeans(x: Context, lock: Key32, input: Value, w: seq<Value>)
    ensures Eval(x, HashEqTerm(lock), input, w) ==
              if w != [] && w[0].ByteString? then Some((Bool(x.sha256(w[0].bytes) == lock), w[1..])) else None
  {
    hide Eval;
    var hashed := Seq2(Leaf(Witness), Leaf(Jet(Sha256)));
    EvalLeaf(x, Witness, input, w);
    EvalComp(x, Leaf(Witness), Leaf(Jet(Sha256)), input, w);
    EvalPair(x, hashed, Leaf(Const(HashValue(lock))), input, w);
    EvalComp(x, Pair2(hashed, Leaf(Const(HashValue(lock)))), Leaf(Jet(EqHash)), input, w);
    if w != [] {
      EvalLeaf(x, Jet(Sha256), w[0], w[1..]);
      EvalLeaf(x, Const(HashValue(lock)), input, w[1..]);
      if w[0].ByteString? { EvalLeaf(x, Jet(EqHash), PairValue(HashValue(x.sha256(w[0].bytes)), HashValue(lock)), w[1..]); }
    }
  }

  /** The height check reads nothing and says whether the block is above the threshold. */
  lemma HeightGtMeans(x: Context, height: U64, input: Value, w: seq<Value>)
    ensures Eval(x, HeightGtTerm(height), input, w) == Some((Bool(x.height > height), w))
  {
    hide Eval;
    var current := Seq2(Leaf(Unit), Leaf(Jet(BlockHeight)));
    EvalLeaf(x, Unit, input, w);
    EvalLeaf(x, Jet(BlockHeight), UnitValue, w);
    EvalComp(x, Leaf(Unit), Leaf(Jet(BlockHeight)), input, w);
    EvalLeaf(x, Const(Word(height)), input, w);
    EvalPair(x, current, Leaf(Const(Word(height))), input, w);
    EvalLeaf(x, Jet(Gt64), PairValue(Word(x.height), Word(height)), w);
    EvalComp(x, Pair2(current, Leaf(Const(Word(height)))), Leaf(Jet(Gt64)), input, w);
  }

  /** The conjunction stops at a first part that is false, without reading on, and is the second part otherwise. */
  lemma AndMeans(x: Context, a: Term, b: Term, input: Value, w: seq<Value>)
    ensures var first := Eval(x, a, input, w);
            && (first.None? ==> Eval(x, AndTerm(a, b), input, w) == None)
            && (first.Some? && first.value.0 == Bool(false) ==> Eval(x, AndTerm(a, b), input, w) == Some((Bool(false), first.value.1)))
            && (first.Some? && first.value.0 == Bool(true) ==> Eval(x, AndTerm(a, b), input, w) == Eval(x, b, UnitValue, first.value.1))
  {
    hide Eval;
    var choice := Branch(Leaf(Const(Bool(false))), b);
    EvalComp(x, a, choice, input, w);
    var first := Eval(x, a, input, w);
    if first.Some? {
      EvalCase(x, Leaf(Const(Bool(false))), b, first.value.0, first.value.1);
      EvalLeaf(x, Const(Bool(false)), UnitValue, first.value.1);
    }
  }

  /** The witness of the hash path: a left selector, a preimage of the lock and the receiver's signature. */
  ghost predicate Claims(x: Context, p: HtlcParams, w: seq<Value>) {
    && |w| == 3 && (w[0].LeftValue? || w[0] == Bool(false)) && w[1].ByteString? && w[2].ByteString?
    && x.sha256(w[1].bytes) == p.hashLock && x.verify(x.sigHash, p.receiver, w[2].bytes)
  }

  /** The witness of the timeout path: a right selector and the sender's signature, above the timeout. */
  ghost predicate Refunds(x: Context, p: HtlcParams, w: seq<Value>) {
    && |w| == 2 && (w[0].RightValue? || w[0] == Bool(true)) && w[1].ByteString?
    && x.height > p.timeout && x.verify(x.sigHash, p.sender, w[1].bytes)
  }

  lemma HashPath(x: Context, p: HtlcParams, input: Value, w: seq<Value>)
    ensures Unlocks(x, AndTerm(HashEqTerm(p.hashLock), SigCheckTerm(p.receiver)), input, w) <==>
              && |w| == 2 && w[0].ByteString? && w[1].ByteString?
              && x.sha256(w[0].bytes) == p.hashLock && x.verify(x.sigHash, p.receiver, w[1].bytes)
  {
    hide Eval, AndTerm, HashEqTerm, SigCheckTerm;
    HashEqMeans(x, p.hashLock, input, w);
    AndMeans(x, HashEqTerm(p.hashLock), SigCheckTerm(p.receiver), input, w);
    if w != [] { SigCheckMeans(x, p.receiver, UnitValue, w[1..]); }
  }

  lemma TimeoutPath(x: Context, p: HtlcParams, input: Value, w: seq<Value>)
    ensures Unlocks(x, AndTerm(HeightGtTerm(p.timeout), SigCheckTerm(p.sender)), input, w) <==>
              |w| == 1 && w[0].ByteString? && x.height > p.timeout && x.verify(x.sigHash, p.sender, w[0].bytes)
  {
    hide Eval, AndTerm, HeightGtTerm, SigCheckTerm;
    HeightGtMeans(x, p.timeout, input, w);
    AndMeans(x, HeightGtTerm(p.timeout), SigCheckTerm(p.sender), input, w);
    SigCheckMeans(x, p.sender, UnitValue, w);
  }

  /**
   The output can be spent exactly by the receiver with a preimage of the lock, at any height, and by the sender
   above the timeout; nothing else in the witness or the input unlocks it.
   */
  lemma HtlcUnlocks(x: Context, p: HtlcParams, input: Value, w: seq<Value>)
    ensures Unlocks(x, HtlcTerm(p), input, w) <==> Claims(x, p, w) || Refunds(x, p, w)
  {
    hide Eval, AndTerm, HashEqTerm, HeightGtTerm, SigCheckTerm;
    var claim := AndTerm(HashEqTerm(p.hashLock), SigCheckTerm(p.receiver));
    var refund := AndTerm(HeightGtTerm(p.timeout), SigCheckTerm(p.sender));
    EvalLeaf(x, Witness, input, w);
    EvalComp(x, Leaf(Witness), Branch(claim, refund), input, w);
    if w != [] {
      EvalCase(x, claim, refund, w[0], w[1..]);
      var payload := if w[0].LeftValue? || w[0].RightValue? then w[0].value else UnitValue;
      HashPath(x, p, payload, w[1..]);
      TimeoutPath(x, p, payload, w[1..]);
    }
  }

  /** The receiver's claim does not end with the timeout. */
  lemma ClaimAfterTimeout(x: Context, p: HtlcParams, preimage: Bytes, sig: Bytes, input: Value)
    requires x.sha256(preimage) == p.hashLock && x.verify(x.sigHash, p.receiver, sig) && x.height > p.timeout
    ensures Unlocks(x, HtlcTerm(p), input, [LeftValue(UnitValue), ByteString(preimage), ByteString(sig)])
  {
    hide Eval, HtlcTerm;
    HtlcUnlocks(x, p, input, [LeftValue(UnitValue), ByteString(preimage), ByteString(sig)]);
  }
}
