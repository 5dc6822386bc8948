/**
 One round of the mining loop on a chain that satisfies every rule: the template it builds is a block that
 extends that chain, but for the proof of work still to be found.
 */
module MiningRound {
  import opened SmtSpec
  import opened SmtArena
  import opened Ledger
  import opened UtxoState
  import opened BlockSpec
  import opened Chain
  import opened DiskUndo
  import opened MedianTime
  import opened Headers
  import opened Ancestry
  import opened Supply
  import opened Miner

  // ---- The coinbase of the next height is new ----

  lemma CoinbaseUnseen(R: Rules, c: seq<Block>, cb: Tx)
    requires Lawful(R) && Accepted(R, c) && IsCoinbase(cb) && cb.inputs[0].index == |c| && R.txId(cb).Some?
    ensures FreshCoinbase(R, UtxosAt(R, c), cb)
  {
    hide Lawful, Accepted, UtxosAt, UniqueIds, SpentOnce, Sane, HistoryOf;
    var h := HistoryOf(c);
    ChainConsistent(R, c);
    HistoryHeights(R, c);
    forall i | 0 <= i < |h| ensures R.txId(h[i].tx) != R.txId(cb) {
      if R.txId(h[i].tx) == R.txId(cb) { SameInputs(R, h[i].tx, cb); }
    }
  }

  // ---- The rules over the transaction list ----

  /** The payments of an accepted block are no coinbases, and their inputs are distinct. */
  lemma PaymentFacts(R: Rules, u: Utxos, block: Block, i: nat)
    requires Lawful(R) && Sane(R, u) && Accepts(R, u, block) && 0 < i < |block.txs|
    ensures !IsCoinbase(block.txs[i]) && Distinct(block.txs[i].inputs) && Consumed(block.txs[i]) == block.txs[i].inputs
  {
    hide Lawful, Sane, Accepts, After, Ran, ValidateTx;
    AcceptsPrefix(R, u, block, i + 1);
    RanValidated(R, u, block.txs, block.header.height, i + 1);
    StillSane(R, u, block.txs, block.header.height, i);
    ValidNotCoinbase(R, After(R, u, block.txs, block.header.height, i), block.txs[i], block.header.height);
    ValidTxFacts(R, After(R, u, block.txs, block.header.height, i), block.txs[i], block.header.height);
  }

  lemma NoRepeatsInTail(R: Rules, h: seq<Placed>, txs: seq<Tx>, height: nat)
    requires UniqueIds(R, h + PlaceAll(txs, height))
    ensures NoRepeats(R, txs)
  {
    hide UniqueIds, PlaceAll;
    forall i | 0 <= i < |txs| ensures R.txId(txs[i]).Some? && FirstUse(R, txs, i) {
      UniqueTail(R, h, txs, height, i);
    }
  }

  lemma SpentOnceInTail(h: seq<Placed>, txs: seq<Tx>, height: nat, i: nat, j: nat, op: OutPoint)
    requires SpentOnce(h + PlaceAll(txs, height)) && i < j < |txs| && op in Consumed(txs[i])
    ensures op !in Consumed(txs[j])
  {
    hide Consumed;
    var all := h + PlaceAll(txs, height);
    assert all[|h| + i].tx == txs[i] && all[|h| + j].tx == txs[j];
  }

  /** The history of the chain with the block, taken apart. */
  lemma BlockHistory(R: Rules, c: seq<Block>, block: Block)
    requires Lawful(R) && Accepted(R, c) && Accepts(R, UtxosAt(R, c), block) && block.header.height == |c|
    ensures Sane(R, UtxosAt(R, c))
    ensures var all := HistoryOf(c) + PlaceAll(block.txs, |c|); UniqueIds(R, all) && SpentOnce(all)
  {
    hide Lawful, Accepted, UtxosAt, Accepts, After, Sane, HistoryOf, UniqueIds, SpentOnce, Settled, CoinbasesTagged;
    ChainConsistent(R, c);
    HistoryHeights(R, c);
    BlockConsistent(R, HistoryOf(c), UtxosAt(R, c), block, |block.txs|);
    assert block.txs[..|block.txs|] == block.txs;
  }

  /** What is applied on an accepted chain repeats no id and no input. */
  lemma BlockApart(R: Rules, c: seq<Block>, block: Block)
    requires Lawful(R) && Accepted(R, c) && Accepts(R, UtxosAt(R, c), block) && block.header.height == |c|
    ensures NoRepeats(R, block.txs) && InputsApart(block.txs)
    ensures forall i | 0 < i < |block.txs| :: !IsCoinbase(block.txs[i])
  {
    hide Lawful, Accepted, UtxosAt, Accepts, Sane, HistoryOf, UniqueIds, SpentOnce, Distinct, PlaceAll, NoRepeats, Consumed;
    var h, txs := HistoryOf(c), block.txs;
    BlockHistory(R, c, block);
    NoRepeatsInTail(R, h, txs, |c|);
    forall i | 0 < i < |txs| ensures !IsCoinbase(txs[i]) && Distinct(txs[i].inputs) && Consumed(txs[i]) == txs[i].inputs {
      PaymentFacts(R, UtxosAt(R, c), block, i);
    }
    forall i, j, op | 0 < i < j < |txs| && op in txs[i].inputs ensures op !in txs[j].inputs {
      SpentOnceInTail(h, txs, |c|, i, j, op);
    }
  }

  /** So it passes rules 10, 12, 14 and 15. */
  lemma BodyPasses(R: Rules, c: seq<Block>, block: Block)
    requires Lawful(R) && Accepted(R, c) && Accepts(R, UtxosAt(R, c), block) && block.header.height == |c|
    requires block.txs != [] && IsCoinbase(block.txs[0]) && R.txRoot(block.txs) == Some(block.header.txRoot)
    ensures ValidateBody(R, block).None?
  {
    hide Lawful, Accepted, UtxosAt, Accepts, CoinbaseRule, RepeatRule, FirstRepeat, PaymentInputs;
    var n := |block.txs|;
    BlockApart(R, c, block);
    CoinbaseRuleMeans(block.txs, n);
    RepeatRuleMeans(R, block.txs, n);
    assert block.txs[..n] == block.txs;
    InputsDistinct(block.txs);
    FirstRepeatMeans(PaymentInputs(block.txs));
  }

  // ---- The round ----

  /** What a template cannot see to by itself: version, size, the undo budget and the total of the fees. */
  ghost predicate WithinLimits(R: Rules, u: Utxos, block: Block, fees: nat) {
    && R.version(block.header) && R.blockSize(block).Some? && R.blockSize(block).value <= MAX_BLOCK_SIZE
    && SpentBytes(R, SpentAfter(R, u, block.txs, block.header.height, |block.txs|)) <= MAX_SPENT_UTXOS_SIZE
    && fees <= U64_MAX
  }

  /** A template on the chain's own map, target and time extends the chain exactly if its proof of work holds. */
  lemma TemplateExtends(R: Rules, c: seq<Block>, block: Block, now: nat)
    requires Lawful(R) && Committed(R, c) && c != [] && c[0].header.timestamp <= LATEST_GENESIS
    requires Accepts(R, UtxosAt(R, c), block) && block.txs != [] && IsCoinbase(block.txs[0])
    requires R.txRoot(block.txs) == Some(block.header.txRoot)
    requires R.version(block.header) && R.blockSize(block).Some? && R.blockSize(block).value <= MAX_BLOCK_SIZE
    requires block.header.height == |c| && block.header.prevId == Id(R, c[|c| - 1]) && block.header.target == NextTarget(c)
    requires block.header.timestamp == ClampTime(now, Mtp(Timestamps(c)) + 1, LatestTime(c[|c| - 1].header.timestamp))
    requires block.header.stateRoot == StateRoot(R, After(R, UtxosAt(R, c), block.txs, |c|, |block.txs|))
    ensures Extends(R, c, block) <==> R.pow(block.header)
  {
    hide Lawful, Committed, Accepts, UtxosAt, After, StateRoot, NextTarget, ValidateBody, TimeRule, Mtp, Recent;
    CommittedAccepted(R, c);
    BlockFacts(R, c, |c| - 1);
    HeightBounded(R, c);
    BodyPasses(R, c, block);
    MinerAlwaysHasTime(R, c, now, block.header);
    GrowsTo(R, c, block);
  }

  lemma GrowsTo(R: Rules, c: seq<Block>, b: Block)
    ensures UtxosAt(R, c + [b]) == After(R, UtxosAt(R, c), b.txs, b.header.height, |b.txs|)
  {
    hide After;
    assert (c + [b])[..|c|] == c;
  }

  /** What the round reads from the header table. */
  lemma RoundInputs(R: Rules, headers: HeaderTable, c: seq<Block>)
    requires LawfulBlocks(R) && Committed(R, c) && c != [] && c[0].header.timestamp <= LATEST_GENESIS && HasHeaders(R, headers, c)
    ensures var tip, ts := Id(R, c[|c| - 1]), Timestamps(c);
            && tip in headers && headers[tip] == c[|c| - 1].header && headers[tip].height + 1 == |c| <= U64_MAX
            && TargetOver(headers, tip, |c|) == Ok(NextTarget(c))
            && TimesOver(headers, tip, MTP_WINDOW) == Recent(ts, MTP_WINDOW)
            && Mtp(ts) + 1 <= LatestTime(ts[|ts| - 1])
  {
    hide LawfulBlocks, Committed, TargetOver, TimesOver, NextTarget, Recent, Median;
    var n := |c| - 1;
    BlockFacts(R, c, n);
    HeightBounded(R, c);
    CommittedLinked(R, c);
    TargetOnChain(R, headers, c);
    TimesOnChain(R, headers, c, n, MTP_WINDOW);
    assert c[..n + 1] == c;
    CommittedTimes(R, c);
    TimeGrowth(Timestamps(c));
    MtpBelowParent(Timestamps(c));
  }

  lemma NextCoinbase(R: Rules, c: seq<Block>, script: Bytes, fees: U64)
    requires Lawful(R) && Committed(R, c) && GoodMiner(R, script)
    ensures var cb := BuildCoinbase(R, script, |c|, fees);
            cb.Some? ==> FreshCoinbase(R, UtxosAt(R, c), cb.value)
  {
    hide Lawful, Committed, UtxosAt, FreshCoinbase, GoodMiner, BuildCoinbase, IsCoinbase, Accepted;
    CommittedAccepted(R, c);
    var cb := BuildCoinbase(R, script, |c|, fees);
    if cb.Some? {
      CoinbaseForm(R, script, |c|, fees, cb.value);
      CoinbaseUnseen(R, c, cb.value);
    }
  }

  lemma CoinbaseForm(R: Rules, script: Bytes, height: nat, fees: U64, cb: Tx)
    requires Lawful(R) && GoodMiner(R, script) && BuildCoinbase(R, script, height, fees) == Some(cb)
    ensures IsCoinbase(cb) && cb.inputs[0].index == height && R.txId(cb).Some?
  {
    hide IdInjective, LeafKeysInjective;
    var value: U64 := R.reward(height) + fees;
    assert R.fits(Coinbase(height, value, script));
  }

  /**
   Build the next template from the header table and the UTXO set of the tip, with the timestamp clamped into
   the rules' window. Off devnet the round is skipped while the clock is past that window.
   */
  method BuildNext(utxo: UtxoSet, headers: HeaderTable, tip: Hash256, script: Bytes, now: U64, devnet: bool, seal: Bytes,
                   txs: seq<Tx>, ghost c: seq<Block>)
    returns (r: Option<(Block, seq<Hash256>)>)
    requires utxo.Valid() && LawfulBlocks(utxo.R) && GoodMiner(utxo.R, script) && PaysCurve(utxo.R)
    requires Committed(utxo.R, c) && c != [] && c[0].header.timestamp <= LATEST_GENESIS && utxo.utxos == UtxosAt(utxo.R, c)
    requires HasHeaders(utxo.R, headers, c) && tip == Id(utxo.R, c[|c| - 1])
    ensures var R, u := utxo.R, utxo.utxos;
            var chosen := Chosen(R, u, txs, |c|);
            && Paid(R, u, chosen, |c|, |chosen|)
            && var fees := FeesPaid(R, u, chosen, |c|, |chosen|);
            && (r.Some? ==>
                  var txs', value := r.value.0.txs, R.reward(|c|) + CapFees(fees);
                  && txs' != [] && txs'[0].inputs == [OutPoint(ZERO, |c|)]
                  && value <= U64_MAX && txs'[0].outputs == [TxOutput(value, script, [])]
                  && HoldsReward(R, After(R, u, txs', |c|, |txs'|), txs'[0], value, script, |c|))
            && (r.Some? && WithinLimits(R, u, r.value.0, fees) ==>
                  && r.value.0.txs != [] && r.value.0.txs[1..] == chosen
                  && (Extends(R, c, r.value.0) <==> R.pow(r.value.0.header)))
            && (r.None? ==>
                  || (now > LatestTime(c[|c| - 1].header.timestamp) && !devnet)
                  || BuildCoinbase(R, script, |c|, CapFees(fees)).None?)
  {
    hide UtxoSet.Valid, LawfulBlocks, Lawful, Committed, UtxosAt, After, Chosen, Skipped, Paid, FeesPaid, Accepts, StateRoot;
    hide NextTarget, TargetOver, TimesOver, Recent, Median, Extends, FeesAfter, SpentAfter, SpentBytes, FreshCoinbase, GoodMiner, PaysCurve, IdsOf, HoldsReward;
    ghost var R, u := utxo.R, utxo.utxos;
    utxo.EntriesSane();
    RoundInputs(R, headers, c);
    var parent := headers[tip];
    var height: U64 := parent.height + 1;
    var target := ExpectedDifficulty(headers, tip, height);
    var ancestors := GetAncestorTimestamps(headers, tip, MTP_WINDOW);
    var mtp := MedianTimePast(ancestors);
    var latest := LatestTime(parent.timestamp);
    ChosenPaid(R, u, txs, |c|);
    if now > latest && !devnet { return None; }
    var timestamp := ClampTime(now, mtp + 1, latest);
    r := BuildTemplate(utxo, script, height, tip, target.value, timestamp, seal, txs);
    ghost var chosen := Chosen(R, u, txs, |c|);
    ghost var fees := FeesPaid(R, u, chosen, |c|, |chosen|);
    NextCoinbase(R, c, script, CapFees(fees));
    if r.Some? && WithinLimits(R, u, r.value.0, fees) {
      CurveAboveDust(R, |c|);
      TemplateExtends(R, c, r.value.0, now);
    }
  }
}
