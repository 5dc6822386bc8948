/** Conservation of value: what a transaction, a block and a whole chain do to the total of the UTXO map. */
module Supply {
  import opened SmtSpec
  import opened Ledger
  import opened UtxoState
  import opened BlockSpec
  import opened Chain
  import Reward

  /** Total value held in a UTXO map. */
  ghost function Total(u: Utxos): nat {
    if u == map[] then 0 else
    var op :| op in u;
    u[op].output.value + Total(u - {op})
  }

  lemma {:induction false} TotalRemove(u: Utxos, op: OutPoint)
    requires op in u
    ensures Total(u) == u[op].output.value + Total(u - {op})
    decreases |u|
  {
    var x :| x in u && Total(u) == u[x].output.value + Total(u - {x});
    if x != op {
      TotalRemove(u - {x}, op);
      TotalRemove(u - {op}, x);
      assert (u - {x}) - {op} == (u - {op}) - {x};
    }
  }

  lemma TotalInsert(u: Utxos, op: OutPoint, e: UtxoEntry)
    requires op !in u
    ensures Total(u[op := e]) == Total(u) + e.output.value
  {
    TotalRemove(u[op := e], op);
    assert u[op := e] - {op} == u;
  }

  lemma {:induction false} TotalSpend(u: Utxos, ops: seq<OutPoint>)
    requires AllPresent(u, ops) && Distinct(ops)
    ensures Total(u) == Total(u - OpSet(ops)) + SumEntries(Entries(u, ops))
  {
    if ops == [] {
      assert OpSet(ops) == {} && u - {} == u;
    } else {
      var n := |ops| - 1;
      TotalSpend(u, ops[..n]);
      RemoveStep(u, ops, n);
      assert ops[..n + 1] == ops;
      TotalRemove(u - OpSet(ops[..n]), ops[n]);
      assert Entries(u, ops)[..n] == Entries(u, ops[..n]);
    }
  }

  lemma {:induction false} TotalCreate(u: Utxos, id: Hash256, outs: seq<TxOutput>, height: nat, coinbase: bool)
    requires forall i | 0 <= i < |outs| :: OutPoint(id, i) !in u
    ensures Total(u + Created(id, outs, height, coinbase)) == Total(u) + SumOutputs(outs)
  {
    if outs == [] {
      assert u + Created(id, outs, height, coinbase) == u;
    } else {
      var n := |outs| - 1;
      TotalCreate(u, id, outs[..n], height, coinbase);
      InsertStep(u, id, outs, n, height, coinbase);
      assert outs[..n + 1] == outs;
      TotalInsert(u + Created(id, outs[..n], height, coinbase), OutPoint(id, n), UtxoEntry(outs[n], height, coinbase));
    }
  }

  /** A transaction moves value from its inputs to its outputs. */
  lemma TxConserves(R: Rules, u: Utxos, tx: Tx, height: nat)
    requires Applies(R, u, tx)
    ensures Total(Applied(R, u, tx, height)) + SumEntries(Entries(u, Consumed(tx))) == Total(u) + SumOutputs(tx.outputs)
  {
    hide Total, SumEntries, SumOutputs;
    TotalSpend(u, Consumed(tx));
    forall i | 0 <= i < |tx.outputs| ensures OutPoint(R.txId(tx).value, i) !in u - OpSet(Consumed(tx)) {
      assert !Blocked(R, u, tx, i);
    }
    TotalCreate(u - OpSet(Consumed(tx)), R.txId(tx).value, tx.outputs, height, IsCoinbase(tx));
  }

  /** Within a block the total grows by the coinbase and shrinks by the fees. */
  lemma {:induction false} RunConserves(R: Rules, u: Utxos, txs: seq<Tx>, height: nat, n: nat)
    requires Lawful(R) && Sane(R, u) && 0 < n <= |txs| && Ran(R, u, txs, height, n) && IsCoinbase(txs[0])
    ensures Total(After(R, u, txs, height, n)) + FeesAfter(R, u, txs, height, n) == Total(u) + SumOutputs(txs[0].outputs)
    decreases n
  {
    hide Total, SumEntries, SumOutputs, Applies, Applied, ValidateTx, Sane, Lawful;
    var w, tx := After(R, u, txs, height, n - 1), txs[n - 1];
    RanFlows(R, u, txs, height, n);
    FlowsAt(R, u, txs, height, n - 1, n);
    TxConserves(R, w, tx, height);
    if n == 1 {
      NoInputs();
      assert w == u;
    } else {
      RunConserves(R, u, txs, height, n - 1);
      StillSane(R, u, txs, height, n - 1);
      ValidNotCoinbase(R, w, tx, height);
      ValidTxFacts(R, w, tx, height);
    }
  }

  lemma NoInputs()
    ensures SumEntries([]) == 0
  {
  }

  /** An accepted block increases the total by exactly its reward. */
  lemma BlockMints(R: Rules, u: Utxos, block: Block)
    requires Lawful(R) && Sane(R, u) && Accepts(R, u, block)
    ensures Total(After(R, u, block.txs, block.header.height, |block.txs|)) == Total(u) + R.reward(block.header.height)
  {
    hide Total, After, Ran;
    RunConserves(R, u, block.txs, block.header.height, |block.txs|);
  }

  /** Sum of the rewards of heights 0 .. n - 1. */
  function Minted(R: Rules, n: nat): nat {
    if n == 0 then 0 else Minted(R, n - 1) + R.reward(n - 1)
  }

  /** On every accepted chain the UTXO total is exactly the sum of all block rewards so far. */
  lemma {:induction false} SupplyIsMinted(R: Rules, c: seq<Block>)
    requires Lawful(R) && Accepted(R, c)
    ensures Total(UtxosAt(R, c)) == Minted(R, |c|)
  {
    if c != [] {
      hide Total, After, Accepts, Accepted, UtxosAt, Lawful;
      LastBlock(R, c);
      SupplyIsMinted(R, c[..|c| - 1]);
      ChainSane(R, c[..|c| - 1]);
      BlockMints(R, UtxosAt(R, c[..|c| - 1]), c[|c| - 1]);
    }
  }

  // ---- The node's own reward curve ----

  /** Blocks are paid by the reward curve of the node. */
  ghost predicate PaysCurve(R: Rules) {
    forall h: nat :: R.reward(h) == Reward.BlockReward(h)
  }

  lemma CurveAboveDust(R: Rules, h: nat)
    requires PaysCurve(R)
    ensures R.reward(h) >= DUST_THRESHOLD
  {
    hide Reward.BlockReward;
    Reward.RewardBounds(h);
  }

  lemma {:induction false} MintedBounds(R: Rules, n: nat)
    requires PaysCurve(R)
    ensures Reward.BASE_REWARD * n <= Minted(R, n) <= (Reward.BASE_REWARD + Reward.DECAY_COMPONENT) * n
  {
    hide Reward.BlockReward;
    if n > 0 {
      MintedBounds(R, n - 1);
      Reward.RewardBounds(n - 1);
    }
  }

  /**
   On every accepted chain of n blocks the supply lies between n times the base reward and n times the first
   reward, and every block adds no more than the one before it.
   */
  lemma SupplyBounds(R: Rules, c: seq<Block>)
    requires Lawful(R) && Accepted(R, c) && PaysCurve(R)
    ensures Reward.BASE_REWARD * |c| <= Total(UtxosAt(R, c)) <= (Reward.BASE_REWARD + Reward.DECAY_COMPONENT) * |c|
    ensures |c| >= 2 ==>
              var a, b, d := Total(UtxosAt(R, c[..|c| - 2])), Total(UtxosAt(R, c[..|c| - 1])), Total(UtxosAt(R, c));
              d - b <= b - a
  {
    hide Lawful, Accepted, UtxosAt, Total, Reward.BlockReward, Accepts, After;
    SupplyIsMinted(R, c);
    MintedBounds(R, |c|);
    if |c| >= 2 {
      var p := c[..|c| - 1];
      LastBlock(R, c);
      LastBlock(R, p);
      assert p[..|p| - 1] == c[..|c| - 2];
      SupplyIsMinted(R, p);
      SupplyIsMinted(R, c[..|c| - 2]);
      Reward.RewardNeverIncreases(|c| - 2, |c| - 1);
    }
  }
}
