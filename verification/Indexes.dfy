/**
 The transaction index and the spent-by index of a canonical chain: what they hold, and how a reorg takes
 the orphans' rows out.
 */
module Indexes {
  import opened SmtSpec
  import opened Ledger
  import opened UtxoState
  import opened BlockSpec
  import opened Chain
  import opened DiskUndo
  import opened Headers
  import opened StorageSpec

  // ---- Blocks and the history ----

  lemma {:induction false} InHistory(c: seq<Block>, h: nat, i: nat) returns (k: nat)
    requires h < |c| && i < |c[h].txs|
    ensures k < |HistoryOf(c)| && HistoryOf(c)[k].tx == c[h].txs[i]
  {
    var n := |c| - 1;
    if h < n {
      k := InHistory(c[..n], h, i);
    } else {
      k := |HistoryOf(c[..n])| + i;
    }
  }

  lemma IdInHistory(R: Rules, c: seq<Block>, h: nat, id: Hash256)
    requires h < |c| && id in TxIds(R, c[h].txs)
    ensures HasId(R, HistoryOf(c), id)
  {
    var i :| 0 <= i < |c[h].txs| && R.txId(c[h].txs[i]).Some? && R.txId(c[h].txs[i]).value == id;
    var k := InHistory(c, h, i);
    assert R.txId(HistoryOf(c)[k].tx) == Some(id);
  }

  /** No id is shared by blocks at different heights. */
  lemma IdsApart(R: Rules, c: seq<Block>, g: nat, h: nat, id: Hash256)
    requires Lawful(R) && Accepted(R, c) && g < h < |c| && id in TxIds(R, c[g].txs)
    ensures id !in TxIds(R, c[h].txs)
  {
    hide Lawful, Accepted, HistoryOf, HasId;
    AcceptedPrefix(R, c, h + 1);
    var p := c[..h + 1];
    assert p[..h] == c[..h] && p[h] == c[h] && c[..h][g] == c[g];
    IdInHistory(R, c[..h], g, id);
    forall i | 0 <= i < |c[h].txs| ensures R.txId(c[h].txs[i]) != Some(id) {
      UnseenId(R, p, i);
    }
  }

  lemma {:induction false} AcceptedPrefix(R: Rules, c: seq<Block>, n: nat)
    requires Accepted(R, c) && n <= |c|
    ensures Accepted(R, c[..n])
  {
    hide Accepts, UtxosAt;
    if n < |c| {
      AcceptedPrefix(R, c[..|c| - 1], n);
      assert c[..|c| - 1][..n] == c[..n];
    } else {
      assert c[..n] == c;
    }
  }

  /** No outpoint is consumed by blocks at different heights. */
  lemma SpendsApart(R: Rules, c: seq<Block>, g: nat, h: nat, op: OutPoint)
    requires Lawful(R) && Accepted(R, c) && g < h < |c| && op in ConsumedBy(c[g].txs)
    ensures op !in ConsumedBy(c[h].txs)
  {
    hide Lawful, Accepted, UtxosAt, ConsumedBy, UniqueIds, CoinbasesTagged, Settled, Sane;
    AcceptedPrefix(R, c, h + 1);
    var p := c[..h + 1];
    assert p[..h] == c[..h] && p[h] == c[h] && c[..h][g] == c[g];
    ChainConsistent(R, p);
    var i := Consumer(c[g].txs, op);
    var k := InHistory(c[..h], g, i);
    var base := HistoryOf(c[..h]);
    assert HistoryOf(p) == base + PlaceAll(c[h].txs, c[h].header.height);
    if op in ConsumedBy(c[h].txs) {
      var j := Consumer(c[h].txs, op);
      ApartInHistory(base, c[h].txs, c[h].header.height, k, j, op);
    }
  }

  lemma ApartInHistory(base: seq<Placed>, txs: seq<Tx>, height: nat, k: nat, j: nat, op: OutPoint)
    requires SpentOnce(base + PlaceAll(txs, height)) && k < |base| && op in Consumed(base[k].tx) && j < |txs|
    ensures op !in Consumed(txs[j])
  {
    var all := base + PlaceAll(txs, height);
    assert all[k] == base[k] && all[|base| + j].tx == txs[j];
  }

  // ---- The transaction index ----

  lemma {:induction false} IndexUnion(R: Rules, m: TxIndex, blocks: seq<Block>)
    ensures IndexAll(R, m, blocks) == m + IndexAll(R, map[], blocks)
  {
    hide IndexRows;
    if blocks != [] { IndexUnion(R, m, blocks[..|blocks| - 1]); }
  }

  lemma {:induction false} IndexConcat(R: Rules, m: TxIndex, a: seq<Block>, b: seq<Block>)
    ensures IndexAll(R, m, a + b) == IndexAll(R, IndexAll(R, m, a), b)
    decreases |b|
  {
    hide IndexRows;
    if b == [] {
      assert a + b == a;
    } else {
      assert (a + b)[..|a + b| - 1] == a + b[..|b| - 1];
      IndexConcat(R, m, a, b[..|b| - 1]);
    }
  }

  lemma {:induction false} IndexHeight(R: Rules, c: seq<Block>, id: Hash256)
    requires id in IndexAll(R, map[], c)
    ensures exists h :: 0 <= h < |c| && id in TxIds(R, c[h].txs) && IndexAll(R, map[], c)[id] == c[h].header.height
  {
    hide TxIds;
    var n := |c| - 1;
    if id in TxIds(R, c[n].txs) {
      assert IndexAll(R, map[], c)[id] == c[n].header.height;
    } else {
      IndexHeight(R, c[..n], id);
      var h :| 0 <= h < n && id in TxIds(R, c[..n][h].txs) && IndexAll(R, map[], c[..n])[id] == c[..n][h].header.height;
      assert c[h] == c[..n][h];
    }
  }

  lemma {:induction false} Indexed(R: Rules, c: seq<Block>, h: nat, id: Hash256)
    requires h < |c| && id in TxIds(R, c[h].txs)
    ensures id in IndexAll(R, map[], c)
  {
    hide TxIds;
    if h < |c| - 1 { Indexed(R, c[..|c| - 1], h, id); }
  }

  /** The index maps exactly the chain's transactions, each to the height of its block. */
  lemma TxIndexExact(R: Rules, c: seq<Block>, id: Hash256, h: nat)
    requires Lawful(R) && Committed(R, c)
    ensures id in IndexAll(R, map[], c) && IndexAll(R, map[], c)[id] == h <==> h < |c| && id in TxIds(R, c[h].txs)
  {
    hide Lawful, Committed, Accepted, IndexAll, TxIds, Sealed;
    CommittedAccepted(R, c);
    if id in IndexAll(R, map[], c) {
      IndexHeight(R, c, id);
      var g :| 0 <= g < |c| && id in TxIds(R, c[g].txs) && IndexAll(R, map[], c)[id] == c[g].header.height;
      BlockFacts(R, c, g);
      if h < |c| && id in TxIds(R, c[h].txs) {
        if g < h { IdsApart(R, c, g, h, id); } else if h < g { IdsApart(R, c, h, g, id); }
      }
    } else if h < |c| && id in TxIds(R, c[h].txs) {
      Indexed(R, c, h, id);
    }
  }

  /** Ids of the blocks from height `f` on. */
  ghost predicate CoversIds(R: Rules, c: seq<Block>, f: nat, ids: set<Hash256>) {
    forall h | f <= h < |c| :: TxIds(R, c[h].txs) <= ids
  }

  lemma {:induction false} IndexPeel(R: Rules, c: seq<Block>, f: nat, ids: set<Hash256>)
    requires f <= |c| && CoversIds(R, c, f, ids)
    ensures IndexAll(R, map[], c) - ids == IndexAll(R, map[], c[..f]) - ids
    decreases |c|
  {
    hide TxIds;
    if f == |c| {
      assert c[..f] == c;
    } else {
      var n := |c| - 1;
      IndexStep(R, map[], c);
      hide IndexAll, IndexRows;
      IndexPeel(R, c[..n], f, ids);
      assert c[..n][..f] == c[..f];
      RowKeysAre(R, c[n].txs, c[n].header.height);
      RowsGone(IndexAll(R, map[], c[..n]), IndexRows(R, c[n].txs, c[n].header.height), ids);
    }
  }

  lemma RowKeysAre(R: Rules, txs: seq<Tx>, height: nat)
    ensures IndexRows(R, txs, height).Keys == TxIds(R, txs)
  {
  }

  lemma RowsGone(m: TxIndex, rows: TxIndex, ids: set<Hash256>)
    requires rows.Keys <= ids
    ensures (m + rows) - ids == m - ids
  {
  }

  /** Removing the ids of the blocks from `f` on, and no others of the chain, leaves the index of the part below. */
  lemma IndexCut(R: Rules, c: seq<Block>, f: nat, ids: set<Hash256>)
    requires Lawful(R) && Accepted(R, c) && f <= |c| && CoversIds(R, c, f, ids)
    requires forall id | id in ids :: exists h :: f <= h < |c| && id in TxIds(R, c[h].txs)
    ensures IndexAll(R, map[], c) - ids == IndexAll(R, map[], c[..f])
  {
    hide Lawful, Accepted, IndexAll, TxIds;
    IndexPeel(R, c, f, ids);
    var m := IndexAll(R, map[], c[..f]);
    forall id | id in ids ensures id !in m {
      var h :| f <= h < |c| && id in TxIds(R, c[h].txs);
      if id in m {
        IndexHeight(R, c[..f], id);
        var g :| 0 <= g < f && id in TxIds(R, c[..f][g].txs) && m[id] == c[..f][g].header.height;
        assert c[..f][g] == c[g];
        IdsApart(R, c, g, h, id);
      }
    }
    assert m - ids == m;
  }

  // ---- The spent-by index ----

  /** A transaction of the list consumes the outpoint, and the spender says which one and at which input. */
  ghost predicate SpentIn(R: Rules, txs: seq<Tx>, height: nat, op: OutPoint, s: Spender) {
    exists i :: 0 <= i < |txs| && SpentAt(R, txs[i], height, op, s)
  }

  ghost predicate SpentAt(R: Rules, tx: Tx, height: nat, op: OutPoint, s: Spender) {
    !IsCoinbase(tx) && R.txId(tx) == Some(s.txId) && s.height == height && s.input < |tx.inputs| && tx.inputs[s.input] == op
  }

  lemma {:induction false} InputsAdded(m: SpentBy, id: Hash256, ops: seq<OutPoint>, height: nat, op: OutPoint)
    ensures op in AddInputs(m, id, ops, height) <==> op in m || op in ops
    ensures op in AddInputs(m, id, ops, height) ==>
              || (op !in ops && AddInputs(m, id, ops, height)[op] == m[op])
              || exists k :: 0 <= k < |ops| && ops[k] == op && AddInputs(m, id, ops, height)[op] == Spender(id, k, height)
  {
    if ops != [] {
      var n := |ops| - 1;
      var init := ops[..n];
      InputsAdded(m, id, init, height, op);
      assert ops == init + [ops[n]];
      if op == ops[n] {
        assert AddInputs(m, id, ops, height)[op] == Spender(id, n, height);
      } else if op in AddInputs(m, id, init, height) && op in init {
        var k :| 0 <= k < n && init[k] == op && AddInputs(m, id, init, height)[op] == Spender(id, k, height);
        assert ops[k] == op;
      }
    }
  }

  lemma {:induction false} SpendersAdded(R: Rules, m: SpentBy, txs: seq<Tx>, height: nat, op: OutPoint)
    ensures op in m ==> op in AddSpenders(R, m, txs, height)
    ensures op in AddSpenders(R, m, txs, height) ==>
              || (op in m && AddSpenders(R, m, txs, height)[op] == m[op])
              || SpentIn(R, txs, height, op, AddSpenders(R, m, txs, height)[op])
  {
    hide AddInputs;
    if txs != [] {
      var n := |txs| - 1;
      var init, tx := txs[..n], txs[n];
      SpendersAdded(R, m, init, height, op);
      var rest, all := AddSpenders(R, m, init, height), AddSpenders(R, m, txs, height);
      if !IsCoinbase(tx) && R.txId(tx).Some? {
        InputsAdded(rest, R.txId(tx).value, tx.inputs, height, op);
      }
      if op in all {
        if op in rest && all[op] == rest[op] && SpentIn(R, init, height, op, rest[op]) {
          var i :| 0 <= i < n && SpentAt(R, init[i], height, op, rest[op]);
          assert txs[i] == init[i];
        } else if !(op in rest && all[op] == rest[op]) {
          assert SpentAt(R, txs[n], height, op, all[op]);
        }
      }
    }
  }

  lemma {:induction false} SpenderKept(R: Rules, m: SpentBy, txs: seq<Tx>, height: nat, op: OutPoint, s: Spender)
    requires SpentIn(R, txs, height, op, s)
    ensures op in AddSpenders(R, m, txs, height)
  {
    hide AddInputs;
    var n := |txs| - 1;
    var i :| 0 <= i < |txs| && SpentAt(R, txs[i], height, op, s);
    var rest := AddSpenders(R, m, txs[..n], height);
    if i < n {
      assert SpentAt(R, txs[..n][i], height, op, s);
      SpenderKept(R, m, txs[..n], height, op, s);
      if !IsCoinbase(txs[n]) && R.txId(txs[n]).Some? {
        InputsAdded(rest, R.txId(txs[n]).value, txs[n].inputs, height, op);
      }
    } else {
      InputsAdded(rest, R.txId(txs[n]).value, txs[n].inputs, height, op);
    }
  }

  /** Some block of the chain spends the outpoint as described. */
  ghost predicate SpentOn(R: Rules, c: seq<Block>, op: OutPoint, s: Spender) {
    exists h :: 0 <= h < |c| && SpentIn(R, c[h].txs, c[h].header.height, op, s)
  }

  lemma {:induction false} BackfillSound(R: Rules, c: seq<Block>, op: OutPoint)
    requires op in Backfill(R, c)
    ensures SpentOn(R, c, op, Backfill(R, c)[op])
  {
    hide AddSpenders, SpentIn;
    var n := |c| - 1;
    var init := c[..n];
    SpendersAdded(R, Backfill(R, init), c[n].txs, c[n].header.height, op);
    if SpentIn(R, c[n].txs, c[n].header.height, op, Backfill(R, c)[op]) {
    } else {
      BackfillSound(R, init, op);
      var h :| 0 <= h < n && SpentIn(R, init[h].txs, init[h].header.height, op, Backfill(R, init)[op]);
      assert c[h] == init[h];
    }
  }

  lemma {:induction false} BackfillComplete(R: Rules, c: seq<Block>, op: OutPoint, h: nat, s: Spender)
    requires h < |c| && SpentIn(R, c[h].txs, c[h].header.height, op, s)
    ensures op in Backfill(R, c)
  {
    hide AddSpenders, SpentIn;
    var n := |c| - 1;
    if h < n {
      BackfillComplete(R, c[..n], op, h, s);
      SpendersAdded(R, Backfill(R, c[..n]), c[n].txs, c[n].header.height, op);
    } else {
      SpenderKept(R, Backfill(R, c[..n]), c[n].txs, c[n].header.height, op, s);
    }
  }

  /** On an accepted chain an outpoint has at most one spender. */
  lemma SpenderUnique(R: Rules, c: seq<Block>, op: OutPoint, s: Spender, t: Spender)
    requires Lawful(R) && Accepted(R, c) && SpentOn(R, c, op, s) && SpentOn(R, c, op, t)
    ensures s == t
  {
    hide Lawful, Accepted, ConsumedBy, SpentAt;
    var g :| 0 <= g < |c| && SpentIn(R, c[g].txs, c[g].header.height, op, s);
    var h :| 0 <= h < |c| && SpentIn(R, c[h].txs, c[h].header.height, op, t);
    SpentConsumed(R, c[g].txs, c[g].header.height, op, s);
    SpentConsumed(R, c[h].txs, c[h].header.height, op, t);
    if g < h {
      SpendsApart(R, c, g, h, op);
    } else if h < g {
      SpendsApart(R, c, h, g, op);
    } else {
      OneSpender(R, c, g, op, s, t);
    }
  }

  lemma SpentConsumed(R: Rules, txs: seq<Tx>, height: nat, op: OutPoint, s: Spender)
    requires SpentIn(R, txs, height, op, s)
    ensures op in ConsumedBy(txs)
  {
    var i :| 0 <= i < |txs| && SpentAt(R, txs[i], height, op, s);
    ConsumedAt(txs, i, op);
  }

  lemma OneSpender(R: Rules, c: seq<Block>, h: nat, op: OutPoint, s: Spender, t: Spender)
    requires Lawful(R) && Accepted(R, c) && h < |c|
    requires SpentIn(R, c[h].txs, c[h].header.height, op, s) && SpentIn(R, c[h].txs, c[h].header.height, op, t)
    ensures s == t
  {
    hide Lawful, Accepted, UtxosAt, Clean, Flows, After;
    var txs := c[h].txs;
    var i :| 0 <= i < |txs| && SpentAt(R, txs[i], c[h].header.height, op, s);
    var j :| 0 <= j < |txs| && SpentAt(R, txs[j], c[h].header.height, op, t);
    AcceptedPrefix(R, c, h + 1);
    var p := c[..h + 1];
    assert p[..h] == c[..h] && p[h] == c[h];
    AcceptedClean(R, p);
    var u := UtxosAt(R, c[..h]);
    FlowsAt(R, u, txs, c[h].header.height, i, |txs|);
    if i < j {
      SegmentsDisjoint(R, u, txs, c[h].header.height, i, j, |txs|, op);
    } else if j < i {
      SegmentsDisjoint(R, u, txs, c[h].header.height, j, i, |txs|, op);
    }
  }

  /** The index names exactly the spender of every spent outpoint of the chain. */
  lemma SpentByExact(R: Rules, c: seq<Block>, op: OutPoint, s: Spender)
    requires Lawful(R) && Accepted(R, c)
    ensures op in Backfill(R, c) && Backfill(R, c)[op] == s <==> SpentOn(R, c, op, s)
  {
    hide Lawful, Accepted, Backfill, SpentIn;
    if op in Backfill(R, c) {
      BackfillSound(R, c, op);
      if SpentOn(R, c, op, s) { SpenderUnique(R, c, op, s, Backfill(R, c)[op]); }
    } else if h :| 0 <= h < |c| && SpentIn(R, c[h].txs, c[h].header.height, op, s) {
      BackfillComplete(R, c, op, h, s);
    }
  }

  /** Reverting the last block leaves the index of the chain below. */
  lemma BackfillPop(R: Rules, c: seq<Block>)
    requires Lawful(R) && Accepted(R, c) && c != []
    ensures Backfill(R, c) - ConsumedBy(c[|c| - 1].txs) == Backfill(R, c[..|c| - 1])
  {
    hide Lawful, Accepted, AddSpenders, ConsumedBy, SpentIn;
    var n := |c| - 1;
    var init, b := c[..n], c[n];
    var all, rest, gone := Backfill(R, c), Backfill(R, init), ConsumedBy(b.txs);
    forall op ensures op in all - gone <==> op in rest {
      SpendersAdded(R, rest, b.txs, b.header.height, op);
      if op in all && op !in gone { NotSpentHere(R, b, op, all[op]); }
      if op in rest { StillRecorded(R, c, op); }
    }
    forall op | op in rest ensures op in all - gone && (all - gone)[op] == rest[op] {
      SpendersAdded(R, rest, b.txs, b.header.height, op);
      StillRecorded(R, c, op);
      NotSpentHere(R, b, op, all[op]);
    }
    SameRowsMap(all - gone, rest);
  }

  lemma SameRowsMap(a: SpentBy, b: SpentBy)
    requires (forall op :: op in a <==> op in b) && forall op | op in b :: a[op] == b[op]
    ensures a == b
  {
  }

  lemma NotSpentHere(R: Rules, b: Block, op: OutPoint, s: Spender)
    requires op !in ConsumedBy(b.txs)
    ensures !SpentIn(R, b.txs, b.header.height, op, s)
  {
    if SpentIn(R, b.txs, b.header.height, op, s) { SpentConsumed(R, b.txs, b.header.height, op, s); }
  }

  /** An outpoint spent below the last block is not consumed by it. */
  lemma StillRecorded(R: Rules, c: seq<Block>, op: OutPoint)
    requires Lawful(R) && Accepted(R, c) && c != [] && op in Backfill(R, c[..|c| - 1])
    ensures op !in ConsumedBy(c[|c| - 1].txs)
  {
    hide Lawful, Accepted, ConsumedBy, SpentIn, Backfill;
    var n := |c| - 1;
    BackfillSound(R, c[..n], op);
    var h :| 0 <= h < n && SpentIn(R, c[..n][h].txs, c[..n][h].header.height, op, Backfill(R, c[..n])[op]);
    assert c[..n][h] == c[h];
    SpentConsumed(R, c[h].txs, c[h].header.height, op, Backfill(R, c[..n])[op]);
    SpendsApart(R, c, h, n, op);
  }

  lemma {:induction false} AddConcat(R: Rules, m: SpentBy, a: seq<Block>, b: seq<Block>)
    ensures AddBlocks(R, m, a + b) == AddBlocks(R, AddBlocks(R, m, a), b)
    decreases |b|
  {
    hide AddSpenders;
    if b == [] {
      assert a + b == a;
    } else {
      assert (a + b)[..|a + b| - 1] == a + b[..|b| - 1];
      AddConcat(R, m, a, b[..|b| - 1]);
    }
  }

  lemma {:induction false} InputsUnion(m: SpentBy, id: Hash256, ops: seq<OutPoint>, height: nat)
    ensures AddInputs(m, id, ops, height) == m + AddInputs(map[], id, ops, height)
  {
    if ops != [] { InputsUnion(m, id, ops[..|ops| - 1], height); }
  }

  lemma {:induction false} SpendersUnion(R: Rules, m: SpentBy, txs: seq<Tx>, height: nat)
    ensures AddSpenders(R, m, txs, height) == m + AddSpenders(R, map[], txs, height)
  {
    hide AddInputs;
    if txs != [] {
      var tx, init := txs[|txs| - 1], txs[..|txs| - 1];
      SpendersUnion(R, m, init, height);
      if !IsCoinbase(tx) && R.txId(tx).Some? {
        InputsUnion(AddSpenders(R, m, init, height), R.txId(tx).value, tx.inputs, height);
        InputsUnion(AddSpenders(R, map[], init, height), R.txId(tx).value, tx.inputs, height);
      }
    }
  }

  lemma {:induction false} BlocksUnion(R: Rules, m: SpentBy, blocks: seq<Block>)
    ensures AddBlocks(R, m, blocks) == m + AddBlocks(R, map[], blocks)
  {
    hide AddSpenders;
    if blocks != [] {
      var b, init := blocks[|blocks| - 1], blocks[..|blocks| - 1];
      BlocksUnion(R, m, init);
      SpendersUnion(R, AddBlocks(R, m, init), b.txs, b.header.height);
      SpendersUnion(R, AddBlocks(R, map[], init), b.txs, b.header.height);
    }
  }

  /** Writing the rows of the last block once more beforehand makes no difference. */
  lemma LastTwice(R: Rules, x: TxIndex, m: SpentBy, blocks: seq<Block>)
    requires blocks != []
    ensures var b := blocks[|blocks| - 1];
            && IndexAll(R, x + IndexRows(R, b.txs, b.header.height), blocks) == IndexAll(R, x, blocks)
            && AddBlocks(R, AddSpenders(R, m, b.txs, b.header.height), blocks) == AddBlocks(R, m, blocks)
  {
    var b, init := blocks[|blocks| - 1], blocks[..|blocks| - 1];
    IndexStep(R, map[], blocks);
    AddStep(R, map[], blocks);
    hide IndexRows, IndexAll, AddSpenders, AddBlocks;
    IndexUnion(R, x + IndexRows(R, b.txs, b.header.height), blocks);
    IndexUnion(R, x, blocks);
    Absorbed(x, IndexAll(R, map[], init), IndexRows(R, b.txs, b.header.height));
    BlocksUnion(R, AddSpenders(R, m, b.txs, b.header.height), blocks);
    BlocksUnion(R, m, blocks);
    SpendersUnion(R, m, b.txs, b.header.height);
    SpendersUnion(R, AddBlocks(R, map[], init), b.txs, b.header.height);
    Absorbed(m, AddBlocks(R, map[], init), AddSpenders(R, map[], b.txs, b.header.height));
  }

  lemma Absorbed<K, V>(x: map<K, V>, a: map<K, V>, t: map<K, V>)
    ensures (x + t) + (a + t) == x + (a + t)
  {
  }

  lemma IndexStep(R: Rules, m: TxIndex, blocks: seq<Block>)
    requires blocks != []
    ensures var b := blocks[|blocks| - 1];
            IndexAll(R, m, blocks) == IndexAll(R, m, blocks[..|blocks| - 1]) + IndexRows(R, b.txs, b.header.height)
  {
  }

  lemma AddStep(R: Rules, m: SpentBy, blocks: seq<Block>)
    requires blocks != []
    ensures var b := blocks[|blocks| - 1];
            AddBlocks(R, m, blocks) == AddSpenders(R, AddBlocks(R, m, blocks[..|blocks| - 1]), b.txs, b.header.height)
  {
  }
}
