/**
 Chains of accepted blocks: no transaction id occurs twice, no outpoint is spent twice, and what that
 means for rolling back a block that fails.
 */
module Chain {
  import opened SmtSpec
  import opened Ledger
  import opened UtxoState
  import opened BlockSpec

  /** The UTXO map after all blocks of the chain. */
  ghost function UtxosAt(R: Rules, c: seq<Block>): Utxos {
    if c == [] then map[]
    else
      var b := c[|c| - 1];
      After(R, UtxosAt(R, c[..|c| - 1]), b.txs, b.header.height, |b.txs|)
  }

  /** Every block has the height of its position and passes block application on its parent's map. */
  ghost predicate Accepted(R: Rules, c: seq<Block>) {
    c == [] ||
    (&& Accepted(R, c[..|c| - 1])
     && c[|c| - 1].header.height == |c| - 1
     && Accepts(R, UtxosAt(R, c[..|c| - 1]), c[|c| - 1]))
  }

  /** What acceptance says about the last block. */
  lemma LastBlock(R: Rules, c: seq<Block>)
    requires c != [] && Accepted(R, c)
    ensures var init, b := c[..|c| - 1], c[|c| - 1];
            && Accepted(R, init) && b.header.height == |init| && Accepts(R, UtxosAt(R, init), b)
            && b.txs != [] && IsCoinbase(b.txs[0])
            && UtxosAt(R, c) == After(R, UtxosAt(R, init), b.txs, b.header.height, |b.txs|)
  {
    hide After, Ran, SpentBytes, SpentAfter, FeesAfter;
  }

  lemma {:induction false} ChainSane(R: Rules, c: seq<Block>)
    requires Lawful(R)
    ensures Sane(R, UtxosAt(R, c))
  {
    if c != [] {
      ChainSane(R, c[..|c| - 1]);
      var b := c[|c| - 1];
      StillSane(R, UtxosAt(R, c[..|c| - 1]), b.txs, b.header.height, |b.txs|);
    }
  }

  /** Every block of an accepted chain was accepted on the map of the blocks below it. */
  lemma {:induction false} AcceptedAt(R: Rules, c: seq<Block>, k: nat)
    requires Accepted(R, c) && k < |c|
    ensures Accepted(R, c[..k]) && c[k].header.height == k && Accepts(R, UtxosAt(R, c[..k]), c[k])
  {
    hide Accepts, UtxosAt;
    if k < |c| - 1 {
      AcceptedAt(R, c[..|c| - 1], k);
      assert c[..|c| - 1][..k] == c[..k];
    }
  }

  /** Every payment on an accepted chain passed its scripts and paid its fee, on the map it was applied to. */
  lemma ChainAuthorized(R: Rules, c: seq<Block>, k: nat, i: nat)
    requires Accepted(R, c) && k < |c| && 0 < i < |c[k].txs|
    ensures var w, tx := After(R, UtxosAt(R, c[..k]), c[k].txs, k, i), c[k].txs[i];
            && AllPresent(w, tx.inputs) && R.scriptsAccept(tx, Entries(w, tx.inputs), k)
            && SumEntries(Entries(w, tx.inputs)) >= SumOutputs(tx.outputs) + R.minFee(tx, Entries(w, tx.inputs), k)
  {
    hide Accepted, Accepts, UtxosAt, After, SumEntries, SumOutputs;
    AcceptedAt(R, c, k);
    BlockAuthorized(R, UtxosAt(R, c[..k]), c[k], i);
  }

  // ---- Histories ----

  datatype Placed = Placed(tx: Tx, height: nat)

  function PlaceAll(txs: seq<Tx>, height: nat): (h: seq<Placed>)
    ensures |h| == |txs| && forall i | 0 <= i < |txs| :: h[i] == Placed(txs[i], height)
  {
    seq(|txs|, i requires 0 <= i < |txs| => Placed(txs[i], height))
  }

  /** All transactions of a chain in order. */
  function HistoryOf(c: seq<Block>): seq<Placed> {
    if c == [] then [] else HistoryOf(c[..|c| - 1]) + PlaceAll(c[|c| - 1].txs, c[|c| - 1].header.height)
  }

  ghost predicate HasId(R: Rules, h: seq<Placed>, id: Hash256) {
    exists i :: 0 <= i < |h| && R.txId(h[i].tx) == Some(id)
  }

  ghost predicate UniqueIds(R: Rules, h: seq<Placed>) {
    && (forall i | 0 <= i < |h| :: R.txId(h[i].tx).Some?)
    && (forall i, j | 0 <= i < j < |h| :: R.txId(h[i].tx) != R.txId(h[j].tx))
  }

  /** No outpoint is consumed by two transactions. */
  ghost predicate SpentOnce(h: seq<Placed>) {
    forall i, j, op | 0 <= i < j < |h| && op in Consumed(h[i].tx) :: op !in Consumed(h[j].tx)
  }

  /** A coinbase encodes its height, and there is one per height. */
  ghost predicate CoinbasesTagged(h: seq<Placed>) {
    && (forall i | 0 <= i < |h| && IsCoinbase(h[i].tx) :: h[i].tx.inputs[0].index == h[i].height)
    && (forall i, j | 0 <= i < j < |h| && IsCoinbase(h[i].tx) && IsCoinbase(h[j].tx) :: h[i].height != h[j].height)
  }

  /** Unspent outputs belong to the history; consumed ones do too, and are no longer unspent. */
  ghost predicate Settled(R: Rules, h: seq<Placed>, u: Utxos) {
    && (forall op | op in u :: HasId(R, h, op.txId))
    && (forall i, op | 0 <= i < |h| && op in Consumed(h[i].tx) :: op !in u && HasId(R, h, op.txId))
  }

  /** Every transaction names an input. */
  ghost predicate AllHaveInputs(h: seq<Placed>) {
    forall i | 0 <= i < |h| :: h[i].tx.inputs != []
  }

  ghost predicate Consistent(R: Rules, h: seq<Placed>, u: Utxos) {
    UniqueIds(R, h) && SpentOnce(h) && AllHaveInputs(h) && CoinbasesTagged(h) && Settled(R, h, u) && Sane(R, u)
  }

  /** A transaction that can be applied next and is either a valid payment or the coinbase of a new height. */
  ghost predicate Next(R: Rules, h: seq<Placed>, u: Utxos, p: Placed) {
    && Applies(R, u, p.tx)
    && if IsCoinbase(p.tx)
       then p.tx.inputs[0].index == p.height && forall i | 0 <= i < |h| && IsCoinbase(h[i].tx) :: h[i].height != p.height
       else p.tx.inputs != []
  }

  /** Its id is new: an old id would mean old inputs, and those are gone. */
  lemma NewId(R: Rules, h: seq<Placed>, u: Utxos, p: Placed)
    requires Lawful(R) && Consistent(R, h, u) && Next(R, h, u, p)
    ensures R.txId(p.tx).Some? && !HasId(R, h, R.txId(p.tx).value)
  {
    forall i | 0 <= i < |h| ensures R.txId(h[i].tx) != R.txId(p.tx) {
      InputsDiffer(R, h, u, p, i);
    }
  }

  lemma InputsDiffer(R: Rules, h: seq<Placed>, u: Utxos, p: Placed, i: nat)
    requires Consistent(R, h, u) && Next(R, h, u, p) && i < |h|
    ensures h[i].tx.inputs != p.tx.inputs
  {
    if !IsCoinbase(p.tx) {
      var op := p.tx.inputs[0];
      assert op in Consumed(p.tx);
      assert op in u;
      assert op !in Consumed(h[i].tx);
    }
  }

  lemma HasIdExtends(R: Rules, h: seq<Placed>, p: Placed, id: Hash256)
    ensures HasId(R, h + [p], id) <==> HasId(R, h, id) || R.txId(p.tx) == Some(id)
  {
    if HasId(R, h, id) {
      var i :| 0 <= i < |h| && R.txId(h[i].tx) == Some(id);
      assert (h + [p])[i] == h[i];
    }
    assert (h + [p])[|h|] == p;
  }

  lemma SettledNext(R: Rules, h: seq<Placed>, u: Utxos, p: Placed)
    requires Consistent(R, h, u) && Next(R, h, u, p) && R.txId(p.tx).Some? && !HasId(R, h, R.txId(p.tx).value)
    ensures Settled(R, h + [p], Applied(R, u, p.tx, p.height))
  {
    var h1, u1 := h + [p], Applied(R, u, p.tx, p.height);
    forall op | op in u1 ensures HasId(R, h1, op.txId) {
      HasIdExtends(R, h, p, op.txId);
    }
    forall i, op | 0 <= i < |h1| && op in Consumed(h1[i].tx) ensures op !in u1 && HasId(R, h1, op.txId) {
      HasIdExtends(R, h, p, op.txId);
      if i < |h| {
        assert h1[i] == h[i];
      } else {
        assert op in u && op in OpSet(Consumed(p.tx));
      }
      StepKeepsGone(R, u, p.tx, p.height, op);
    }
  }

  lemma SpentOnceNext(R: Rules, h: seq<Placed>, u: Utxos, p: Placed)
    requires SpentOnce(h) && Settled(R, h, u) && AllPresent(u, Consumed(p.tx))
    ensures SpentOnce(h + [p])
  {
    var h1 := h + [p];
    forall i, j, op | 0 <= i < j < |h1| && op in Consumed(h1[i].tx) ensures op !in Consumed(h1[j].tx) {
      assert h1[i] == h[i];
      if j < |h| {
        assert h1[j] == h[j];
      } else {
        assert op !in u;
      }
    }
  }

  lemma TagsNext(R: Rules, h: seq<Placed>, u: Utxos, p: Placed)
    requires CoinbasesTagged(h) && Next(R, h, u, p)
    ensures CoinbasesTagged(h + [p])
  {
    hide Applies;
  }

  lemma UniqueNext(R: Rules, h: seq<Placed>, p: Placed)
    requires UniqueIds(R, h) && R.txId(p.tx).Some? && !HasId(R, h, R.txId(p.tx).value)
    ensures UniqueIds(R, h + [p])
  {
  }

  /** One more transaction keeps the history consistent. */
  lemma ConsistentNext(R: Rules, h: seq<Placed>, u: Utxos, p: Placed)
    requires Lawful(R) && Consistent(R, h, u) && Next(R, h, u, p)
    ensures Consistent(R, h + [p], Applied(R, u, p.tx, p.height))
  {
    hide Lawful, UniqueIds, SpentOnce, CoinbasesTagged, Settled, Sane, Applied, HasId;
    NewId(R, h, u, p);
    SettledNext(R, h, u, p);
    UniqueNext(R, h, p);
    SpentOnceNext(R, h, u, p);
    TagsNext(R, h, u, p);
    AppliedSane(R, u, p.tx, p.height);
  }

  lemma AppliedSane(R: Rules, u: Utxos, tx: Tx, height: nat)
    requires Lawful(R) && Sane(R, u) && R.txId(tx).Some?
    ensures Sane(R, Applied(R, u, tx, height))
  {
  }

  // ---- Blocks and chains ----

  /** The coinbase of an accepted block is applicable and tagged with the block's height. */
  lemma CoinbaseNext(R: Rules, h: seq<Placed>, u: Utxos, block: Block)
    requires Lawful(R) && Accepts(R, u, block)
    requires forall i | 0 <= i < |h| :: h[i].height < block.header.height
    ensures Next(R, h, u, Placed(block.txs[0], block.header.height))
  {
    AcceptsPrefix(R, u, block, 1);
    assert After(R, u, block.txs, block.header.height, 0) == u;
  }

  /** A validated transaction that ran can be placed next. */
  lemma PaymentNext(R: Rules, h: seq<Placed>, u: Utxos, tx: Tx, height: nat)
    requires Lawful(R) && Sane(R, u) && Applies(R, u, tx) && ValidateTx(R, u, tx, height).Ok?
    ensures Next(R, h, u, Placed(tx, height))
  {
    hide ValidateTx, Applies;
    ValidNotCoinbase(R, u, tx, height);
    ValidTxFacts(R, u, tx, height);
  }

  /** The `n`-th transaction of an accepted block can be placed next. */
  lemma BlockNext(R: Rules, h: seq<Placed>, u: Utxos, block: Block, n: nat)
    requires Lawful(R) && Accepts(R, u, block) && 0 < n <= |block.txs|
    requires Consistent(R, h, After(R, u, block.txs, block.header.height, n - 1))
    requires n == 1 ==> forall i | 0 <= i < |h| :: h[i].height < block.header.height
    ensures var w, p := After(R, u, block.txs, block.header.height, n - 1), Placed(block.txs[n - 1], block.header.height);
            && Next(R, h, w, p)
            && After(R, u, block.txs, block.header.height, n) == Applied(R, w, p.tx, p.height)
  {
    hide Lawful, Consistent, Accepts, After, Applies, Applied, Next, Ran, Flows, ValidateTx;
    var height := block.header.height;
    RunStart(R, u, block.txs, height);
    AcceptsPrefix(R, u, block, n);
    RanFlows(R, u, block.txs, height, n);
    FlowsAt(R, u, block.txs, height, n - 1, n);
    var w := After(R, u, block.txs, height, n - 1);
    if n == 1 {
      CoinbaseNext(R, h, u, block);
    } else {
      ConsistentSane(R, h, w);
      RanValidated(R, u, block.txs, height, n);
      PaymentNext(R, h, w, block.txs[n - 1], height);
    }
  }

  /** After `n` transactions of an accepted block the history, extended by them, is consistent. */
  lemma {:induction false} BlockConsistent(R: Rules, h: seq<Placed>, u: Utxos, block: Block, n: nat)
    requires Lawful(R) && Consistent(R, h, u) && Accepts(R, u, block) && n <= |block.txs|
    requires forall i | 0 <= i < |h| :: h[i].height < block.header.height
    ensures Consistent(R, h + PlaceAll(block.txs[..n], block.header.height), After(R, u, block.txs, block.header.height, n))
    decreases n
  {
    hide Lawful, Consistent, Accepts, After, Applied, Next;
    var height := block.header.height;
    RunStart(R, u, block.txs, height);
    if n == 0 {
      assert h + PlaceAll(block.txs[..0], height) == h;
    } else {
      BlockConsistent(R, h, u, block, n - 1);
      var w, p := After(R, u, block.txs, height, n - 1), Placed(block.txs[n - 1], height);
      var h1 := h + PlaceAll(block.txs[..n - 1], height);
      assert n == 1 ==> h1 == h;
      BlockNext(R, h1, u, block, n);
      ConsistentNext(R, h1, w, p);
      assert h1 + [p] == h + PlaceAll(block.txs[..n], height);
    }
  }

  lemma ConsistentSane(R: Rules, h: seq<Placed>, u: Utxos)
    requires Consistent(R, h, u)
    ensures Sane(R, u)
  {
  }

  lemma RanValidated(R: Rules, u: Utxos, txs: seq<Tx>, height: nat, n: nat)
    requires 1 < n <= |txs| && Ran(R, u, txs, height, n)
    ensures ValidateTx(R, After(R, u, txs, height, n - 1), txs[n - 1], height).Ok?
  {
    hide After, Applies, ValidateTx;
  }

  lemma {:induction false} HistoryHeights(R: Rules, c: seq<Block>)
    requires Accepted(R, c)
    ensures forall i | 0 <= i < |HistoryOf(c)| :: HistoryOf(c)[i].height < |c|
  {
    hide Accepted, UtxosAt, Accepts, After;
    if c != [] {
      LastBlock(R, c);
      HistoryHeights(R, c[..|c| - 1]);
    }
  }

  /**
   On every accepted chain the history of its transactions is consistent with its UTXO map: ids are
   unique, every outpoint is consumed at most once, and consumed outpoints are gone.
   */
  lemma {:induction false} ChainConsistent(R: Rules, c: seq<Block>)
    requires Lawful(R) && Accepted(R, c)
    ensures Consistent(R, HistoryOf(c), UtxosAt(R, c))
  {
    if c != [] {
      hide Accepted, UtxosAt, Accepts, After, Consistent, Lawful;
      var init, b := c[..|c| - 1], c[|c| - 1];
      LastBlock(R, c);
      ChainConsistent(R, init);
      HistoryHeights(R, init);
      BlockConsistent(R, HistoryOf(init), UtxosAt(R, init), b, |b.txs|);
      assert b.txs[..|b.txs|] == b.txs;
    }
  }

  // ---- Rollback on a reachable state ----

  /** No two transactions of the block share an id. */
  ghost predicate IdsDistinct(R: Rules, txs: seq<Tx>) {
    forall i, j | 0 <= i < j < |txs| && R.txId(txs[j]).Some? :: R.txId(txs[i]) != R.txId(txs[j])
  }

  /** An output created earlier in the same run is still marked with its transaction's coinbase flag and the block's height. */
  lemma {:induction false} CreatedInRun(R: Rules, u: Utxos, txs: seq<Tx>, height: nat, n: nat, op: OutPoint) returns (j: nat)
    requires n <= |txs| && Flows(R, u, txs, height, n)
    requires op in After(R, u, txs, height, n) && op !in u
    ensures j < n && R.txId(txs[j]) == Some(op.txId)
    ensures After(R, u, txs, height, n)[op].height == height
    ensures After(R, u, txs, height, n)[op].isCoinbase == IsCoinbase(txs[j])
    decreases n
  {
    hide Applies, Flows;
    RunStart(R, u, txs, height);
    FlowsAt(R, u, txs, height, n - 1, n);
    AppliesId(R, After(R, u, txs, height, n - 1), txs[n - 1]);
    if op.txId == R.txId(txs[n - 1]).value && op.index < |txs[n - 1].outputs| {
      j := n - 1;
    } else {
      j := CreatedInRun(R, u, txs, height, n - 1, op);
    }
  }

  /** A payment that block application would apply has an id that the chain has never seen. */
  lemma {:induction false} ReachedIsNew(R: Rules, h: seq<Placed>, u: Utxos, txs: seq<Tx>, height: nat, k: nat)
    requires Lawful(R) && Consistent(R, h, u) && 0 < k < |txs| && Reached(R, u, txs, height, k) && IsCoinbase(txs[0])
    requires R.txId(txs[k]).Some?
    ensures !HasId(R, h, R.txId(txs[k]).value)
    decreases k
  {
    hide After, ValidateTx, Lawful, Applies, Ran, Flows;
    var w := After(R, u, txs, height, k);
    StillSane(R, u, txs, height, k);
    ValidNotCoinbase(R, w, txs[k], height);
    ValidTxFacts(R, w, txs[k], height);
    RanFlows(R, u, txs, height, k);
    if i :| 0 <= i < |h| && R.txId(h[i].tx) == R.txId(txs[k]) {
      SameInputs(R, h[i].tx, txs[k]);
      var op := txs[k].inputs[0];
      assert op in Consumed(h[i].tx);
      var j := CreatedInRun(R, u, txs, height, k, op);
      if j > 0 {
        ReachedEarlier(R, u, txs, height, j, k);
        ReachedIsNew(R, h, u, txs, height, j);
      }
    }
  }

  lemma SameInputs(R: Rules, a: Tx, b: Tx)
    requires Lawful(R) && R.txId(a).Some? && R.txId(a) == R.txId(b)
    ensures a.inputs == b.inputs && a.outputs == b.outputs
  {
  }

  lemma ReachedEarlier(R: Rules, u: Utxos, txs: seq<Tx>, height: nat, j: nat, k: nat)
    requires j < k < |txs| && Reached(R, u, txs, height, k)
    ensures Reached(R, u, txs, height, j)
  {
    hide After, ValidateTx, Applies;
    RanPrefix(R, u, txs, height, j + 1, k);
  }

  /** An unspent entry whose owner has the id of `tx` is one of its outputs. */
  lemma OwnedMeansCollision(R: Rules, u: Utxos, tx: Tx)
    requires Lawful(R) && Sane(R, u) && R.txId(tx).Some?
    ensures Unowned(u, R.txId(tx).value) <==> !Collides(R, u, tx)
  {
    forall op | op in u && op.txId == R.txId(tx).value ensures Collides(R, u, tx) {
      assert Known(R, op);
      var t :| R.txId(t) == Some(op.txId) && op.index < |t.outputs|;
      SameInputs(R, t, tx);
      assert op == OutPoint(R.txId(tx).value, op.index);
    }
  }

  /**
   Take the UTXO map of any accepted chain and any block that starts with a coinbase and repeats no id.
   Block application is safe, and so restores the map on failure, if and only if no output of that
   coinbase is already unspent.
   */
  lemma SafeIffNoCollision(R: Rules, c: seq<Block>, txs: seq<Tx>, height: nat)
    requires Lawful(R) && Accepted(R, c) && txs != [] && IsCoinbase(txs[0]) && IdsDistinct(R, txs)
    ensures Safe(R, UtxosAt(R, c), txs, height) <==> !Collides(R, UtxosAt(R, c), txs[0])
  {
    hide Accepted, UtxosAt, Lawful, After, ValidateTx, Ran, HasId;
    var h, u := HistoryOf(c), UtxosAt(R, c);
    ChainConsistent(R, c);
    FirstReached(R, u, txs, height);
    if R.txId(txs[0]).Some? { OwnedMeansCollision(R, u, txs[0]); }
    if !Collides(R, u, txs[0]) {
      forall k | 0 <= k < |txs| && Reached(R, u, txs, height, k) ensures Fresh(R, u, txs, k) {
        if k > 0 && R.txId(txs[k]).Some? {
          ReachedIsNew(R, h, u, txs, height, k);
        }
      }
    }
  }

  lemma FirstReached(R: Rules, u: Utxos, txs: seq<Tx>, height: nat)
    requires txs != []
    ensures Reached(R, u, txs, height, 0)
  {
  }

  /** A transaction clashes only with outputs that were there before the block, so its id is in the history. */
  lemma ClashIsOld(R: Rules, h: seq<Placed>, u: Utxos, txs: seq<Tx>, height: nat, k: nat)
    requires Consistent(R, h, u) && k < |txs| && NoRepeats(R, txs) && Flows(R, u, txs, height, k)
    requires Clashes(R, After(R, u, txs, height, k), txs[k])
    ensures HasId(R, h, R.txId(txs[k]).value)
  {
    hide Flows, After, Clashes, HasId, SpentAfter;
    var op := ClashWasThere(R, u, txs, height, k);
  }

  /**
   On the map of an accepted chain the validating path clashes only over the coinbase: rolling back a block
   without repeats fails if and only if an output of its coinbase is already unspent.
   */
  lemma ClashesIffCollision(R: Rules, c: seq<Block>, txs: seq<Tx>, height: nat)
    requires Lawful(R) && Accepted(R, c) && txs != [] && IsCoinbase(txs[0]) && NoRepeats(R, txs)
    ensures BlockClashes(R, UtxosAt(R, c), txs, height) <==> Collides(R, UtxosAt(R, c), txs[0])
  {
    hide Accepted, UtxosAt, Lawful, After, Clashes, Collides, HasId, Consistent, Flows;
    var h, u := HistoryOf(c), UtxosAt(R, c);
    ChainConsistent(R, c);
    FirstReached(R, u, txs, height);
    RunStart(R, u, txs, height);
    CoinbaseClash(R, u, txs[0]);
    NothingSpent(R, u, txs, height);
    forall k | 0 < k < |txs| && ClashAt(R, u, txs, height, k) ensures false {
      RanFlows(R, u, txs, height, k);
      ClashIsOld(R, h, u, txs, height, k);
      ReachedIsNew(R, h, u, txs, height, k);
    }
    assert Collides(R, u, txs[0]) ==> ClashAt(R, u, txs, height, 0);
  }

  lemma NothingSpent(R: Rules, u: Utxos, txs: seq<Tx>, height: nat)
    requires txs != [] && IsCoinbase(txs[0])
    ensures WithinBudget(R, u, txs, height, 1)
  {
    assert SpentAfter(R, u, txs, height, 1) == [];
  }

  /** After a coinbase that the chain has not seen, the trusted path meets only new ids. */
  lemma {:induction false} TrustedIsNew(R: Rules, h: seq<Placed>, u: Utxos, txs: seq<Tx>, height: nat, k: nat)
    requires Lawful(R) && Consistent(R, h, u) && k < |txs| && IsCoinbase(txs[0]) && NoRepeats(R, txs)
    requires Trusted(R, u, txs, height, k) && (k == 0 || Affordable(After(R, u, txs, height, k), txs[k]))
    requires !HasId(R, h, R.txId(txs[0]).value)
    ensures !HasId(R, h, R.txId(txs[k]).value)
    decreases k
  {
    hide After, Lawful, Trusted, Flows, SumEntries, SumOutputs, Sane;
    if i :| 0 <= i < |h| && R.txId(h[i].tx) == R.txId(txs[k]) && k > 0 {
      SameInputs(R, h[i].tx, txs[k]);
      var op := txs[k].inputs[0];
      StillSane(R, u, txs, height, k);
      KnownNotZero(R, After(R, u, txs, height, k), op);
      assert op in Consumed(h[i].tx);
      TrustedFlows(R, u, txs, height, k);
      var j := CreatedInRun(R, u, txs, height, k, op);
      TrustedEarlier(R, u, txs, height, j, k);
      TrustedIsNew(R, h, u, txs, height, j);
    }
  }

  lemma KnownNotZero(R: Rules, u: Utxos, op: OutPoint)
    requires Lawful(R) && Sane(R, u) && op in u
    ensures op.txId != ZERO
  {
    assert Known(R, op);
  }

  lemma TrustedEarlier(R: Rules, u: Utxos, txs: seq<Tx>, height: nat, j: nat, k: nat)
    requires j < k <= |txs| && Trusted(R, u, txs, height, k)
    ensures Trusted(R, u, txs, height, j) && (j == 0 || Affordable(After(R, u, txs, height, j), txs[j]))
  {
    hide After, Affordable, Applies;
    TrustedUpTo(R, u, txs, height, j + 1, k);
  }

  /**
   On the map of an accepted chain the trusted path clashes if the coinbase collides, and only if the chain
   already holds that coinbase; so never if the coinbase names the next height.
   */
  lemma TrustedClashMeans(R: Rules, c: seq<Block>, txs: seq<Tx>, height: nat)
    requires Lawful(R) && Accepted(R, c) && txs != [] && IsCoinbase(txs[0]) && NoRepeats(R, txs)
    ensures Collides(R, UtxosAt(R, c), txs[0]) ==> TrustedClashes(R, UtxosAt(R, c), txs, height)
    ensures TrustedClashes(R, UtxosAt(R, c), txs, height) ==> HasId(R, HistoryOf(c), R.txId(txs[0]).value)
    ensures txs[0].inputs[0].index == |c| ==> !TrustedClashes(R, UtxosAt(R, c), txs, height)
  {
    hide Accepted, UtxosAt, Lawful, After, Clashes, Collides, HasId, Consistent, Flows, Affordable, HistoryOf;
    var h, u := HistoryOf(c), UtxosAt(R, c);
    ChainConsistent(R, c);
    RunStart(R, u, txs, height);
    CoinbaseClash(R, u, txs[0]);
    NothingSpent(R, u, txs, height);
    assert Collides(R, u, txs[0]) ==> TrustedClashAt(R, u, txs, height, 0);
    if !HasId(R, h, R.txId(txs[0]).value) {
      forall k | 0 <= k < |txs| && TrustedClashAt(R, u, txs, height, k) ensures false {
        TrustedFlows(R, u, txs, height, k);
        ClashIsOld(R, h, u, txs, height, k);
        TrustedIsNew(R, h, u, txs, height, k);
      }
    } else {
      OldCoinbase(R, c, txs[0]);
    }
  }

  /** A coinbase in the history of an accepted chain names a height below its own. */
  lemma OldCoinbase(R: Rules, c: seq<Block>, tx: Tx)
    requires Lawful(R) && Accepted(R, c) && IsCoinbase(tx) && R.txId(tx).Some? && HasId(R, HistoryOf(c), R.txId(tx).value)
    ensures tx.inputs[0].index < |c|
  {
    hide Accepted, UtxosAt, Lawful, HistoryOf, UniqueIds, SpentOnce, Settled, Sane, AllHaveInputs;
    var h := HistoryOf(c);
    ChainConsistent(R, c);
    HistoryHeights(R, c);
    var i :| 0 <= i < |h| && R.txId(h[i].tx) == Some(R.txId(tx).value);
    SameInputs(R, h[i].tx, tx);
  }
}
