/**
 Extending the chain by a block, in memory and on disk: both move together, or neither does.
 */
module Connect {
  import opened SmtArena
  import opened WorkSpec
  import opened Ledger
  import opened UtxoState
  import opened BlockSpec
  import opened BlockApply
  import opened Chain
  import opened DiskUndo
  import MedianTime
  import opened Headers
  import opened StorageSpec
  import opened Storage
  import opened StorageInv
  import opened StorageRuns

  datatype ConnectError = ApplyFailed(e: BlockError) | StateRootMismatch | Corrupted

  lemma {:induction false} SpentKnown(R: Rules, u: Utxos, txs: seq<Tx>, height: nat, n: nat)
    requires Lawful(R) && Sane(R, u) && n <= |txs|
    ensures KnownAll(R, SpentAfter(R, u, txs, height, n))
    decreases n
  {
    hide Lawful, After, Known;
    if n > 0 {
      SpentKnown(R, u, txs, height, n - 1);
      StillSane(R, u, txs, height, n - 1);
    }
  }

  /** The map is that of the block applied to `u`, and the list is what it consumed. */
  ghost predicate AppliedTo(R: Rules, u: Utxos, block: Block, now: Utxos, spent: SpentList) {
    var n, h := |block.txs|, block.header.height;
    && Clean(R, u, block.txs, n) && Flows(R, u, block.txs, h, n)
    && now == After(R, u, block.txs, h, n) && spent == SpentAfter(R, u, block.txs, h, n)
  }

  /** Undo a whole applied block. */
  method UndoBlockTransactions(utxo: UtxoSet, block: Block, spent: SpentList, ghost u: Utxos) returns (ok: bool)
    requires utxo.Valid() && KnownAll(utxo.R, spent)
    modifies utxo, utxo.smt
    ensures utxo.Valid()
    ensures AppliedTo(utxo.R, u, block, old(utxo.utxos), spent) ==> ok && utxo.utxos == u
  {
    hide UtxoSet.Valid, Clean, Flows, After, SpentAfter, KnownAll, Rollable, Unlisted;
    assert spent + [] == spent;
    utxo.EntriesSane();
    if AppliedTo(utxo.R, u, block, utxo.utxos, spent) {
      RollsClean(utxo.R, u, block.txs, block.header.height, |block.txs|, []);
    }
    ok := UndoAppliedTransactions(utxo, block.txs, |block.txs|, spent, u, block.header.height, []);
  }

  /** What the header rules say about the transaction list. */
  lemma HeaderGivesBody(R: Rules, c: seq<Block>, block: Block)
    requires FollowsHeaders(R, c, block)
    ensures block.txs != [] && IsCoinbase(block.txs[0]) && IdsDistinct(R, block.txs)
    ensures c != [] ==> block.header.prevId == Id(R, c[|c| - 1])
  {
    hide ValidateHeader, NextTarget;
    if c != [] {
      ValidHeaderFacts(R, block, c[|c| - 1].header, MedianTime.Recent(Timestamps(c), MedianTime.MTP_WINDOW), NextTarget(c), None, false);
    }
  }

  /** On the chain's own map, a block either runs clean or collides with an unspent coinbase. */
  lemma CleanUnlessCollision(R: Rules, c: seq<Block>, block: Block)
    requires Lawful(R) && Committed(R, c) && FollowsHeaders(R, c, block)
    ensures block.txs != []
    ensures var u := UtxosAt(R, c);
            && (Collides(R, u, block.txs[0]) || Safe(R, u, block.txs, block.header.height))
            && (Accepts(R, u, block) && !Collides(R, u, block.txs[0]) ==>
                  Clean(R, u, block.txs, |block.txs|) && Sane(R, u))
  {
    hide Lawful, Committed, UtxosAt, FollowsHeaders, Accepts, Safe, Clean, Collides, Ran, Sane;
    HeaderGivesBody(R, c, block);
    CommittedAccepted(R, c);
    SafeIffNoCollision(R, c, block.txs, block.header.height);
    ChainSane(R, c);
    if Accepts(R, UtxosAt(R, c), block) && !Collides(R, UtxosAt(R, c), block.txs[0]) {
      AcceptsPrefix(R, UtxosAt(R, c), block, |block.txs|);
      SafeClean(R, UtxosAt(R, c), block.txs, block.header.height, |block.txs|);
    }
  }

  /** Apply a block to the set of the chain and check its state root; undo it if the root differs. */
  method ApplyChecked(utxo: UtxoSet, block: Block, ghost c: seq<Block>) returns (r: Result<seq<Mutation>, ConnectError>)
    requires utxo.Valid() && Committed(utxo.R, c) && utxo.utxos == UtxosAt(utxo.R, c)
    requires FollowsHeaders(utxo.R, c, block) && block.header.height == |c|
    modifies utxo, utxo.smt
    ensures utxo.Valid()
    ensures r.Ok? <==> Extends(utxo.R, c, block)
    ensures r.Ok? ==> utxo.utxos == UtxosAt(utxo.R, c + [block]) && BlockArgs(utxo.R, c + [block], CollectSpent(r.value), r.value)
    ensures r.Err? ==> block.txs != [] && (utxo.Restored() <==> !Collides(utxo.R, old(utxo.utxos), block.txs[0]))
    ensures block.txs != [] && Collides(utxo.R, old(utxo.utxos), block.txs[0]) ==>
              r.Err? && LosesOutputs(utxo.R, old(utxo.utxos), utxo.utxos, block.txs[0])
  {
    hide UtxoSet.Valid, Committed, UtxosAt, FollowsHeaders, Accepts, Safe, Clean, Collides, LosesOutputs, Flows, After, LogAfter, FeesAfter, StateRoot, Lawful, SpentAfter, CollectSpent, KnownAll;
    ghost var R, u := utxo.R, utxo.utxos;
    utxo.EntriesSane();
    HeaderGivesBody(R, c, block);
    CleanUnlessCollision(R, c, block);
    GrownBy(R, c, block);
    var applied := ValidateAndApplyBlockAtomic(utxo, block);
    if applied.Err? { return Err(ApplyFailed(applied.error)); }
    var log := applied.value.1;
    SpentIsCollected(R, u, block.txs, block.header.height, |block.txs|);
    SpentKnown(R, u, block.txs, block.header.height, |block.txs|);
    var root := utxo.GetStateRoot();
    if root != block.header.stateRoot {
      var ok := UndoBlockTransactions(utxo, block, CollectSpent(log), u);
      if utxo.utxos == u { utxo.MapDecides(); }
      return Err(if ok then StateRootMismatch else Corrupted);
    }
    r := Ok(log);
  }

  lemma GrownBy(R: Rules, c: seq<Block>, b: Block)
    ensures UtxosAt(R, c + [b]) == After(R, UtxosAt(R, c), b.txs, b.header.height, |b.txs|)
    ensures SpentRow(R, c + [b]) == SpentAfter(R, UtxosAt(R, c), b.txs, b.header.height, |b.txs|)
    ensures (c + [b])[..|c|] == c
  {
    hide After, SpentAfter;
    assert (c + [b])[..|c|] == c;
  }

  /**
   Connect a block to the tip. It succeeds exactly for blocks that extend the chain, and then memory and disk
   are both at the longer chain; otherwise the disk is unchanged, and the memory too unless the coinbase
   collided with an unspent output.
   */
  method ConnectBlock(s: ChainStorage, utxo: UtxoSet, block: Block, ghost c: seq<Block>) returns (r: Result<(), ConnectError>)
    requires utxo.Valid() && utxo.R == s.R && LawfulBlocks(s.R) && DbInv(s.R, s.db, c) && utxo.utxos == UtxosAt(s.R, c)
    requires FollowsHeaders(s.R, c, block) && block.header.height == |c|
    modifies s, utxo, utxo.smt
    ensures utxo.Valid() && utxo.R == s.R
    ensures r.Ok? <==> Extends(s.R, c, block)
    ensures r.Ok? ==> DbInv(s.R, s.db, c + [block]) && utxo.utxos == UtxosAt(s.R, c + [block])
    ensures r.Err? ==> s.db == old(s.db) && block.txs != []
    ensures r.Err? ==> (utxo.Restored() <==> !Collides(s.R, old(utxo.utxos), block.txs[0]))
    ensures block.txs != [] && Collides(s.R, old(utxo.utxos), block.txs[0]) ==>
              r.Err? && LosesOutputs(s.R, old(utxo.utxos), utxo.utxos, block.txs[0])
  {
    hide UtxoSet.Valid, DbInv, Committed, UtxosAt, FollowsHeaders, Extends, Collides, LosesOutputs, BlockArgs, BlockDb, LawfulBlocks, Lawful, WorkAt, WorkFromTarget, CollectSpent, RowsSerialize, LogSerializes, Indexable;
    utxo.EntriesSane();
    TipWork(s.R, s.db, c, block);
    var parentWork := s.db.work[block.header.prevId];
    var applied := ApplyChecked(utxo, block, c);
    if applied.Err? { return Err(applied.error); }
    var work := AddWork(parentWork, WorkFromTarget(block.header.target));
    var spent := CollectSpent(applied.value);
    BlockKeeps(s.R, s.db, c, block, work, spent, applied.value);
    CommitStorable(s.R, s.db, c, block, spent, applied.value);
    var ok := s.CommitBlock(block, work, spent, applied.value);
    r := Ok(());
  }

  lemma TipWork(R: Rules, db: Db, c: seq<Block>, block: Block)
    requires DbInv(R, db, c) && FollowsHeaders(R, c, block)
    ensures Committed(R, c) && block.header.prevId in db.work && db.work[block.header.prevId] == WorkAt(c)
  {
    hide FollowsHeaders, Committed, RowsOk, UtxosOk, IndexesOk, WalkOk, WorkAt, SpentRow;
    HeaderGivesBody(R, c, block);
    assert Resolves(R, db, c, |c| - 1);
    assert c[..|c|] == c;
  }
}
