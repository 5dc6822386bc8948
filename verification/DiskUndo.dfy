/**
 Undoing a block on the persisted UTXO table: all its outputs are deleted, then every row of its spent list
 is written back. This is coarser than the in-memory undo, which goes transaction by transaction, and it is
 exact only for blocks that spend none of their own outputs.
 */
module DiskUndo {
  import opened SmtSpec
  import opened Ledger
  import opened UtxoState
  import opened BlockSpec
  import opened Chain

  ghost function TxOutputs(R: Rules, tx: Tx): set<OutPoint> {
    if R.txId(tx).Some? then OwnOps(R, tx, |tx.outputs|) else {}
  }

  /** All outpoints that the transactions create. */
  ghost function OutputsOf(R: Rules, txs: seq<Tx>): set<OutPoint> {
    if txs == [] then {} else OutputsOf(R, txs[..|txs| - 1]) + TxOutputs(R, txs[|txs| - 1])
  }

  /** All outpoints that the transactions consume. */
  ghost function ConsumedBy(txs: seq<Tx>): set<OutPoint> {
    if txs == [] then {} else ConsumedBy(txs[..|txs| - 1]) + OpSet(Consumed(txs[|txs| - 1]))
  }

  ghost function UndoneOnDisk(R: Rules, u: Utxos, txs: seq<Tx>, row: SpentList): Utxos {
    (u - OutputsOf(R, txs)) + PrevMap(row)
  }

  /** Some transaction of the list consumes an output of the list. */
  ghost predicate SelfSpends(R: Rules, txs: seq<Tx>) {
    exists op :: op in ConsumedBy(txs) && op in OutputsOf(R, txs)
  }

  lemma {:induction false} OutputsAt(R: Rules, txs: seq<Tx>, i: nat, op: OutPoint)
    requires i < |txs| && R.txId(txs[i]) == Some(op.txId) && op.index < |txs[i].outputs|
    ensures op in OutputsOf(R, txs)
  {
    var n := |txs| - 1;
    if i < n {
      OutputsAt(R, txs[..n], i, op);
    } else {
      assert op == OutPoint(op.txId, op.index);
    }
  }

  lemma {:induction false} OutputOwner(R: Rules, txs: seq<Tx>, op: OutPoint) returns (i: nat)
    requires op in OutputsOf(R, txs)
    ensures i < |txs| && R.txId(txs[i]) == Some(op.txId) && op.index < |txs[i].outputs|
  {
    var n := |txs| - 1;
    if op in OutputsOf(R, txs[..n]) {
      i := OutputOwner(R, txs[..n], op);
    } else {
      i := n;
    }
  }

  lemma {:induction false} Consumer(txs: seq<Tx>, op: OutPoint) returns (i: nat)
    requires op in ConsumedBy(txs)
    ensures i < |txs| && op in Consumed(txs[i])
  {
    var n := |txs| - 1;
    if op in ConsumedBy(txs[..n]) {
      i := Consumer(txs[..n], op);
    } else {
      i := n;
      var j :| 0 <= j < |Consumed(txs[n])| && Consumed(txs[n])[j] == op;
    }
  }

  lemma {:induction false} ConsumedAt(txs: seq<Tx>, i: nat, op: OutPoint)
    requires i < |txs| && op in Consumed(txs[i])
    ensures op in ConsumedBy(txs)
  {
    var n := |txs| - 1;
    if i < n {
      ConsumedAt(txs[..n], i, op);
    } else {
      var j :| 0 <= j < |Consumed(txs[n])| && Consumed(txs[n])[j] == op;
      assert op in OpSet(Consumed(txs[n]));
    }
  }

  /** What a list creates it does not find in the map it starts from. */
  lemma OutputsNew(R: Rules, u: Utxos, txs: seq<Tx>, n: nat, op: OutPoint)
    requires n <= |txs| && Clean(R, u, txs, n) && op in OutputsOf(R, txs[..n])
    ensures op !in u
  {
    var i := OutputOwner(R, txs[..n], op);
    assert Fresh(R, u, txs, i);
  }

  // ---- The run with its own outputs taken away ----

  lemma StripOne(R: Rules, w: Utxos, u: Utxos, tx: Tx, height: nat, outs: set<OutPoint>, gone: set<OutPoint>)
    requires R.txId(tx).Some? && w - outs == u - gone && Unowned(u, R.txId(tx).value)
    ensures Applied(R, w, tx, height) - (outs + TxOutputs(R, tx)) == u - (gone + OpSet(Consumed(tx)))
  {
    var a, ops := Applied(R, w, tx, height), OpSet(Consumed(tx));
    var id := R.txId(tx).value;
    assert a == (w - ops) + Created(id, tx.outputs, height, IsCoinbase(tx));
    forall op ensures op in TxOutputs(R, tx) <==> op.txId == id && op.index < |tx.outputs| {
      if op.txId == id && op.index < |tx.outputs| { assert op == OutPoint(id, op.index); }
    }
    var l, r := a - (outs + TxOutputs(R, tx)), u - (gone + ops);
    forall op ensures op in l <==> op in r {
      assert op in w - outs <==> op in u - gone;
    }
    forall op | op in l ensures l[op] == r[op] {
      assert op in w - outs;
      assert (w - outs)[op] == (u - gone)[op];
    }
  }

  /** After `n` transactions, apart from their outputs, the map is the old one without what they consumed. */
  lemma {:induction false} RunStripped(R: Rules, u: Utxos, txs: seq<Tx>, height: nat, n: nat)
    requires n <= |txs| && Clean(R, u, txs, n) && Flows(R, u, txs, height, n)
    ensures After(R, u, txs, height, n) - OutputsOf(R, txs[..n]) == u - ConsumedBy(txs[..n])
    decreases n
  {
    hide Flows, After, Applies, Applied, Clean;
    RunStart(R, u, txs, height);
    if n > 0 {
      CleanUpTo(R, u, txs, n - 1, n);
      FlowsAt(R, u, txs, height, n - 1, n);
      RunStripped(R, u, txs, height, n - 1);
      assert txs[..n][..n - 1] == txs[..n - 1];
      CleanId(R, u, txs, n);
      AppliesId(R, After(R, u, txs, height, n - 1), txs[n - 1]);
      StripOne(R, After(R, u, txs, height, n - 1), u, txs[n - 1], height, OutputsOf(R, txs[..n - 1]), ConsumedBy(txs[..n - 1]));
    }
  }

  lemma CleanId(R: Rules, u: Utxos, txs: seq<Tx>, n: nat)
    requires 0 < n <= |txs| && Clean(R, u, txs, n)
    ensures R.txId(txs[n - 1]).Some? ==> Unowned(u, R.txId(txs[n - 1]).value)
  {
    assert Fresh(R, u, txs, n - 1);
  }

  // ---- The spent row ----

  lemma {:induction false} PrevMapConcat(a: SpentList, b: SpentList)
    ensures PrevMap(a + b) == PrevMap(a) + PrevMap(b)
    decreases |b|
  {
    if b == [] {
      assert a + b == a;
    } else {
      assert (a + b)[..|a + b| - 1] == a + b[..|b| - 1];
      PrevMapConcat(a, b[..|b| - 1]);
    }
  }

  lemma SpentOfMap(u: Utxos, tx: Tx)
    requires AllPresent(u, Consumed(tx))
    ensures PrevMap(SpentOf(u, tx)).Keys == OpSet(Consumed(tx)) && OpSet(Consumed(tx)) <= u.Keys
    ensures forall op | op in OpSet(Consumed(tx)) :: PrevMap(SpentOf(u, tx))[op] == u[op]
  {
    var s, ops := SpentOf(u, tx), Consumed(tx);
    PrevMapKeys(s);
    PrevMapOfSpent(u, s);
    forall op ensures op in PrevMap(s).Keys <==> op in OpSet(ops) {
      if op in OpSet(ops) {
        var i :| 0 <= i < |ops| && ops[i] == op;
        assert s[i].0 == op;
      }
      if op in PrevMap(s) {
        var i :| 0 <= i < |s| && s[i].0 == op;
        assert ops[i] == op;
      }
    }
  }

  /** Rows, consumed and created outpoints of one more transaction. */
  lemma RowStep(R: Rules, u: Utxos, txs: seq<Tx>, height: nat, n: nat)
    requires 0 < n <= |txs| && Flows(R, u, txs, height, n)
    ensures var w, tx := After(R, u, txs, height, n - 1), txs[n - 1];
            && Flows(R, u, txs, height, n - 1) && AllPresent(w, Consumed(tx))
            && PrevMap(SpentAfter(R, u, txs, height, n)) == PrevMap(SpentAfter(R, u, txs, height, n - 1)) + PrevMap(SpentOf(w, tx))
            && ConsumedBy(txs[..n]) == ConsumedBy(txs[..n - 1]) + OpSet(Consumed(tx))
            && OutputsOf(R, txs[..n]) == OutputsOf(R, txs[..n - 1]) + TxOutputs(R, tx)
  {
    hide Flows, After, Applies, SpentOf, PrevMap, OpSet, Consumed, TxOutputs, Applied;
    FlowsAt(R, u, txs, height, n - 1, n);
    PrevMapConcat(SpentAfter(R, u, txs, height, n - 1), SpentOf(After(R, u, txs, height, n - 1), txs[n - 1]));
    assert txs[..n][..n - 1] == txs[..n - 1];
  }

  /** The rows of a run are keyed by what it consumed. */
  lemma {:induction false} RowKeys(R: Rules, u: Utxos, txs: seq<Tx>, height: nat, n: nat)
    requires n <= |txs| && Flows(R, u, txs, height, n)
    ensures PrevMap(SpentAfter(R, u, txs, height, n)).Keys == ConsumedBy(txs[..n])
    decreases n
  {
    hide Flows, After, SpentOf, SpentAfter, PrevMap, OutputsOf;
    EmptyPrev();
    RunStart(R, u, txs, height);
    if n > 0 {
      hide ConsumedBy;
      RowStep(R, u, txs, height, n);
      RowKeys(R, u, txs, height, n - 1);
      SpentOfMap(After(R, u, txs, height, n - 1), txs[n - 1]);
    }
  }

  /** When a run consumes only old outputs, its rows are the old entries. */
  lemma {:induction false} RowValues(R: Rules, u: Utxos, txs: seq<Tx>, height: nat, n: nat, op: OutPoint)
    requires 0 < n <= |txs| && Clean(R, u, txs, n) && Flows(R, u, txs, height, n)
    requires op in ConsumedBy(txs[..n]) && op !in OutputsOf(R, txs[..n])
    ensures op in PrevMap(SpentAfter(R, u, txs, height, n)) && op in u
    ensures PrevMap(SpentAfter(R, u, txs, height, n))[op] == u[op]
    decreases n
  {
    hide Flows, After, SpentOf, SpentAfter, PrevMap, OutputsOf, ConsumedBy, Clean, OpSet, Consumed, AllPresent, TxOutputs;
    RowStep(R, u, txs, height, n);
    RowKeys(R, u, txs, height, n - 1);
    CleanUpTo(R, u, txs, n - 1, n);
    NoneConsumed(txs);
    var w, tx := After(R, u, txs, height, n - 1), txs[n - 1];
    SpentOfMap(w, tx);
    if op in OpSet(Consumed(tx)) {
      RunStripped(R, u, txs, height, n - 1);
      StrippedAt(w, u, OutputsOf(R, txs[..n - 1]), ConsumedBy(txs[..n - 1]), op);
    } else {
      RowValues(R, u, txs, height, n - 1, op);
    }
  }

  lemma NoneConsumed(txs: seq<Tx>)
    ensures ConsumedBy(txs[..0]) == {}
  {
  }

  lemma StrippedAt(w: Utxos, u: Utxos, outs: set<OutPoint>, gone: set<OutPoint>, op: OutPoint)
    requires w - outs == u - gone && op in w && op !in outs
    ensures op in u && w[op] == u[op]
  {
    assert op in w - outs;
    assert (w - outs)[op] == (u - gone)[op];
  }

  // ---- Exactness ----

  /**
   The disk undo of a block's effect gives back the map before it if and only if the block spends none of
   its own outputs. When it does, the spent row brings that output back as an entry that never existed.
   */
  lemma UndoExactIff(R: Rules, u: Utxos, txs: seq<Tx>, height: nat)
    requires Clean(R, u, txs, |txs|) && Flows(R, u, txs, height, |txs|)
    ensures !SelfSpends(R, txs) <==>
              UndoneOnDisk(R, After(R, u, txs, height, |txs|), txs, SpentAfter(R, u, txs, height, |txs|)) == u
  {
    assert txs != [];
    hide Flows, After, Clean, SpentAfter, PrevMap, ConsumedBy, OutputsOf;
    var n := |txs|;
    var row := SpentAfter(R, u, txs, height, n);
    var back := UndoneOnDisk(R, After(R, u, txs, height, n), txs, row);
    assert txs[..n] == txs;
    RunStripped(R, u, txs, height, n);
    RowKeys(R, u, txs, height, n);
    if op :| op in ConsumedBy(txs) && op in OutputsOf(R, txs) {
      OutputsNew(R, u, txs, n, op);
      assert op in back;
    } else {
      forall op | op in ConsumedBy(txs) ensures op in u && PrevMap(row)[op] == u[op] {
        RowValues(R, u, txs, height, n, op);
      }
      Refilled(u, ConsumedBy(txs), PrevMap(row));
    }
  }

  lemma Refilled(u: Utxos, gone: set<OutPoint>, row: Utxos)
    requires row.Keys == gone && forall op | op in gone :: op in u && row[op] == u[op]
    ensures (u - gone) + row == u
  {
  }

  /** Every entry of `a` is an entry of `b`. */
  ghost predicate Within(a: Utxos, b: Utxos) {
    forall op | op in a :: op in b && a[op] == b[op]
  }

  lemma {:induction false} ForwardMonotone(a: Utxos, b: Utxos, log: seq<Mutation>)
    requires Within(a, b)
    ensures Within(Forward(a, log), Forward(b, log))
  {
    if log != [] { ForwardMonotone(a, b, log[..|log| - 1]); }
  }

  // ---- Orphans of a chain ----

  /** What the last block of the chain records as spent. */
  ghost function SpentRow(R: Rules, c: seq<Block>): SpentList
    requires c != []
  {
    var b := c[|c| - 1];
    SpentAfter(R, UtxosAt(R, c[..|c| - 1]), b.txs, b.header.height, |b.txs|)
  }

  /** No earlier transaction of the list has the id of transaction `i`. */
  ghost predicate FirstUse(R: Rules, txs: seq<Tx>, i: nat)
    requires i < |txs|
  {
    forall j | 0 <= j < i :: R.txId(txs[j]) != R.txId(txs[i])
  }

  lemma UniqueTail(R: Rules, h: seq<Placed>, txs: seq<Tx>, height: nat, i: nat)
    requires UniqueIds(R, h + PlaceAll(txs, height)) && i < |txs|
    ensures R.txId(txs[i]).Some? && FirstUse(R, txs, i) && !HasId(R, h, R.txId(txs[i]).value)
  {
    var all := h + PlaceAll(txs, height);
    assert all[|h| + i].tx == txs[i];
    forall j | 0 <= j < i ensures R.txId(txs[j]) != R.txId(txs[i]) {
      assert all[|h| + j].tx == txs[j];
    }
    forall j | 0 <= j < |h| ensures R.txId(h[j].tx) != R.txId(txs[i]) {
      assert all[j] == h[j];
    }
  }

  /** An id of the last block is new to the chain below it. */
  lemma UnseenId(R: Rules, c: seq<Block>, i: nat)
    requires Lawful(R) && Accepted(R, c) && c != [] && i < |c[|c| - 1].txs|
    ensures R.txId(c[|c| - 1].txs[i]).Some? && FirstUse(R, c[|c| - 1].txs, i)
    ensures !HasId(R, HistoryOf(c[..|c| - 1]), R.txId(c[|c| - 1].txs[i]).value)
  {
    hide Accepted, UtxosAt, Lawful, SpentOnce, CoinbasesTagged, Settled, Sane, UniqueIds, HasId, PlaceAll;
    ChainConsistent(R, c);
    UniqueTail(R, HistoryOf(c[..|c| - 1]), c[|c| - 1].txs, c[|c| - 1].header.height, i);
  }

  /** An accepted block on an accepted chain has only new ids. */
  lemma AcceptedClean(R: Rules, c: seq<Block>)
    requires Lawful(R) && Accepted(R, c) && c != []
    ensures var u, b := UtxosAt(R, c[..|c| - 1]), c[|c| - 1];
            && Clean(R, u, b.txs, |b.txs|) && Flows(R, u, b.txs, b.header.height, |b.txs|)
            && UtxosAt(R, c) == After(R, u, b.txs, b.header.height, |b.txs|)
  {
    hide Accepted, UtxosAt, Lawful, Accepts, After, Flows, Ran, HasId, HistoryOf, SpentBytes, SpentAfter, FeesAfter, UniqueIds, SpentOnce, CoinbasesTagged;
    LastBlock(R, c);
    var init, b := c[..|c| - 1], c[|c| - 1];
    var u := UtxosAt(R, init);
    AcceptsPrefix(R, u, b, |b.txs|);
    RanFlows(R, u, b.txs, b.header.height, |b.txs|);
    ChainConsistent(R, init);
    forall k | 0 <= k < |b.txs| ensures Fresh(R, u, b.txs, k) {
      UnseenId(R, c, k);
    }
  }

  /** On every accepted chain: the disk undo of the last block is exact if and only if it spends none of its own outputs. */
  lemma OrphanUndoIff(R: Rules, c: seq<Block>)
    requires Lawful(R) && Accepted(R, c) && c != []
    ensures !SelfSpends(R, c[|c| - 1].txs) <==>
              UndoneOnDisk(R, UtxosAt(R, c), c[|c| - 1].txs, SpentRow(R, c)) == UtxosAt(R, c[..|c| - 1])
  {
    hide Accepted, UtxosAt, Lawful, After, Flows, Clean, SelfSpends, UndoneOnDisk;
    AcceptedClean(R, c);
    UndoExactIff(R, UtxosAt(R, c[..|c| - 1]), c[|c| - 1].txs, c[|c| - 1].header.height);
  }

  lemma HasIdGrows(R: Rules, a: seq<Placed>, b: seq<Placed>, id: Hash256)
    ensures HasId(R, a, id) ==> HasId(R, a + b, id)
  {
    if i :| 0 <= i < |a| && R.txId(a[i].tx) == Some(id) {
      assert (a + b)[i] == a[i];
    }
  }
}
