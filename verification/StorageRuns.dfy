/**
 Runs of the database: any legal sequence of commits, reorgs, fork stores, evictions, caps, snapshot clears
 and finalizes keeps every table right for the canonical chain.
 */
module StorageRuns {
  import opened SmtSpec
  import opened WorkSpec
  import opened Ledger
  import opened UtxoState
  import opened BlockSpec
  import opened Chain
  import opened DiskUndo
  import opened Headers
  import opened StorageSpec
  import opened Storage
  import opened StorageInv
  import opened OrphanOrder
  import opened ReorgInv
  import opened ReorgTables
  import opened Indexes

  // ---- Accepted blocks always serialize ----

  lemma TxFits(R: Rules, u: Utxos, block: Block, i: nat)
    requires Accepts(R, u, block) && i < |block.txs|
    ensures R.fits(block.txs[i])
  {
    hide Ran, SpentBytes, SpentAfter, FeesAfter, After, ValidateTx;
    if i > 0 {
      AcceptsPrefix(R, u, block, i + 1);
      RanValidated(R, u, block.txs, block.header.height, i + 1);
      ValidTxFacts(R, After(R, u, block.txs, block.header.height, i), block.txs[i], block.header.height);
    }
  }

  lemma BlockFits(R: Rules, u: Utxos, block: Block)
    requires LawfulBlocks(R) && Accepts(R, u, block)
    ensures R.blockSize(block).Some?
  {
    hide Accepts;
    forall tx | tx in block.txs ensures R.fits(tx) {
      var i :| 0 <= i < |block.txs| && block.txs[i] == tx;
      TxFits(R, u, block, i);
    }
  }

  lemma {:induction false} SpentSerializes(R: Rules, u: Utxos, txs: seq<Tx>, height: nat, n: nat)
    requires Lawful(R) && Sane(R, u) && n <= |txs|
    ensures RowsSerialize(R, SpentAfter(R, u, txs, height, n))
    decreases n
  {
    hide Lawful, After;
    if n > 0 {
      SpentSerializes(R, u, txs, height, n - 1);
      StillSane(R, u, txs, height, n - 1);
    }
  }

  lemma {:induction false} LogFitsTable(R: Rules, u: Utxos, txs: seq<Tx>, height: nat, n: nat)
    requires Lawful(R) && n <= |txs| && Flows(R, u, txs, height, n)
    ensures LogSerializes(R, LogAfter(R, u, txs, height, n))
    decreases n
  {
    hide Flows, After, Applies, LogAfter;
    LogAfterStep(R, u, txs, height, n);
    if n > 0 {
      LogFitsTable(R, u, txs, height, n - 1);
      OneLogFits(R, After(R, u, txs, height, n - 1), txs[n - 1], height);
    }
  }

  lemma OneLogFits(R: Rules, u: Utxos, tx: Tx, height: nat)
    requires Lawful(R) && R.txId(tx).Some? && AllPresent(u, Consumed(tx))
    ensures LogSerializes(R, Log(R, u, tx, height))
  {
  }

  /** Whatever the chain accepted can be written. */
  lemma Storable(R: Rules, c: seq<Block>, spent: SpentList, log: seq<Mutation>)
    requires Lawful(R) && LawfulBlocks(R) && Accepted(R, c) && BlockArgs(R, c, spent, log)
    ensures var b := c[|c| - 1];
            R.blockSize(b).Some? && RowsSerialize(R, spent) && LogSerializes(R, log) && Indexable(R, b.txs)
  {
    hide Lawful, LawfulBlocks, Accepted, UtxosAt, Accepts, Flows, After, LogAfter, SpentAfter, RowsSerialize, LogSerializes, Sane;
    LastBlock(R, c);
    var init, b := c[..|c| - 1], c[|c| - 1];
    var u, n := UtxosAt(R, init), |b.txs|;
    BlockFits(R, u, b);
    ChainSane(R, init);
    SpentSerializes(R, u, b.txs, b.header.height, n);
    LogFitsTable(R, u, b.txs, b.header.height, n);
    forall i | 0 <= i < n ensures R.txId(b.txs[i]).Some? {
      FlowsAt(R, u, b.txs, b.header.height, i, n);
      AppliesId(R, After(R, u, b.txs, b.header.height, i), b.txs[i]);
    }
  }

  lemma ReorgStorable(R: Rules, c: seq<Block>, d: seq<Block>, f: nat, a: Reorg)
    requires Lawful(R) && LawfulBlocks(R) && Committed(R, d) && WellFormed(R, c, d, f, a)
    ensures ReorgSerializes(R, a)
  {
    hide Lawful, LawfulBlocks, Committed, Accepted, WorkAt, BlockArgs, Rearranged, RowsSerialize, LogSerializes, Indexable;
    forall i | 0 <= i < |a.blocks|
      ensures R.blockSize(a.blocks[i]).Some? && Indexable(R, a.blocks[i].txs)
      ensures RowsSerialize(R, a.spent[i].1) && LogSerializes(R, a.logs[i].1)
    {
      assert RowsFit(R, d, f, a, i);
      CommittedPrefix(R, d, f + i + 1);
      CommittedAccepted(R, d[..f + i + 1]);
      Storable(R, d[..f + i + 1], a.spent[i].1, a.logs[i].1);
    }
    NewBlocks(R, c, d, f, a);
  }

  // ---- Rebuilding the spent-by index ----

  method LowestKey(keys: set<nat>) returns (k: nat)
    requires keys != {}
    ensures k in keys && forall x | x in keys :: k <= x
  {
    k :| k in keys;
    var todo := keys - {k};
    while todo != {}
      invariant todo <= keys && k in keys && forall x | x in keys && x !in todo :: k <= x
      decreases |todo|
    {
      var x :| x in todo;
      if x < k { k := x; }
      todo := todo - {x};
    }
  }

  ghost predicate From(keys: set<nat>, lo: nat, hi: nat) {
    forall h: nat :: h in keys <==> lo <= h < hi
  }

  const BACKFILL_CHUNK: nat := 1024

  /**
   Walk the height index upwards and write the spenders of every block, one write transaction for every
   chunk of blocks. A missing body aborts, and then only whole chunks have been written.
   */
  method BuildSpentByIndex(s: ChainStorage, ghost c: seq<Block>) returns (ok: bool, ghost done: seq<Block>)
    modifies s
    ensures s.db == old(s.db).(spentBy := AddBlocks(s.R, old(s.db.spentBy), done))
    ensures ok || |done| % BACKFILL_CHUNK == 0
    ensures old(Lawful(s.R) && DbInv(s.R, s.db, c)) ==> ok && done == c
  {
    hide AddBlocks, AddSpenders, DbInv, Lawful, Indexable;
    var R, db, rows, todo := s.R, s.db, s.db.spentBy, s.db.heightIndex.Keys;
    var pending: nat := 0;
    ghost var good, seen: seq<Block> := Lawful(R) && DbInv(R, db, c), [];
    done := [];
    NoBlocks(R, db.spentBy);
    if good { IndexIsRange(R, db, c); }
    while todo != {}
      invariant todo <= db.heightIndex.Keys && s.db == db.(spentBy := AddBlocks(R, db.spentBy, done))
      invariant rows == AddBlocks(R, db.spentBy, seen)
      invariant |done| + pending == |seen| && pending < BACKFILL_CHUNK && |done| % BACKFILL_CHUNK == 0
      invariant good ==> |seen| <= |c| && From(todo, |seen|, |c|) && seen == c[..|seen|]
      decreases |todo|
    {
      var h := LowestKey(todo);
      var id := db.heightIndex[h];
      if good { BodyAt(R, db, c, |seen|, h, todo); }
      if id !in db.blocks { return false, done; }
      var indexed;
      indexed, rows := ApplySpentBy(R, rows, db.blocks[id].txs, db.blocks[id].header.height);
      if !indexed { return false, done; }
      AddOne(R, db.spentBy, seen, db.blocks[id]);
      todo, seen, pending := todo - {h}, seen + [db.blocks[id]], pending + 1;
      if pending == BACKFILL_CHUNK {
        s.db := s.db.(spentBy := rows);
        done, pending := seen, 0;
      }
    }
    if good { AllAdded(R, c, |seen|, todo); }
    s.db := s.db.(spentBy := rows);
    done, ok := seen, true;
  }

  lemma NoBlocks(R: Rules, m: SpentBy)
    ensures AddBlocks(R, m, []) == m
  {
  }

  lemma IndexIsRange(R: Rules, db: Db, c: seq<Block>)
    requires DbInv(R, db, c)
    ensures From(db.heightIndex.Keys, 0, |c|)
  {
    hide Committed, RowsOk, UtxosOk, IndexesOk, WalkOk, WorkAt, SpentRow;
    forall h: nat ensures h in db.heightIndex.Keys <==> 0 <= h < |c| {
      if h < |c| { assert Resolves(R, db, c, h); }
    }
  }

  lemma BodyAt(R: Rules, db: Db, c: seq<Block>, n: nat, h: nat, todo: set<nat>)
    requires Lawful(R) && DbInv(R, db, c) && n <= |c| && From(todo, n, |c|) && h in todo && forall x | x in todo :: h <= x
    ensures h == n < |c| && From(todo - {h}, n + 1, |c|)
    ensures h in db.heightIndex && db.heightIndex[h] in db.blocks && db.blocks[db.heightIndex[h]] == c[n] && Indexable(R, c[n].txs)
  {
    hide Lawful, Committed, RowsOk, UtxosOk, IndexesOk, WalkOk, WorkAt, SpentRow, NoRepeats;
    assert n in todo;
    assert Resolves(R, db, c, n);
    BlockFacts(R, c, n);
    SealedIndexable(R, c[n]);
  }

  lemma SealedIndexable(R: Rules, b: Block)
    requires Sealed(R, b)
    ensures Indexable(R, b.txs)
  {
  }

  lemma AddOne(R: Rules, m: SpentBy, blocks: seq<Block>, b: Block)
    ensures AddBlocks(R, m, blocks + [b]) == AddSpenders(R, AddBlocks(R, m, blocks), b.txs, b.header.height)
  {
    hide AddSpenders;
    assert (blocks + [b])[..|blocks|] == blocks;
  }

  lemma AllAdded(R: Rules, c: seq<Block>, n: nat, todo: set<nat>)
    requires n <= |c| && From(todo, n, |c|) && todo == {}
    ensures c[..n] == c
  {
    assert n in todo <==> n < |c|;
  }

  /** From the empty table this is the backfill; on a table that is right already it changes nothing. */
  lemma RebuildKeeps(R: Rules, c: seq<Block>)
    ensures AddBlocks(R, Backfill(R, c), c) == Backfill(R, c)
  {
    hide AddBlocks;
    BlocksUnion(R, Backfill(R, c), c);
    assert Backfill(R, c) + Backfill(R, c) == Backfill(R, c);
  }

  // ---- Runs ----

  datatype Step =
    | Commit(block: Block, work: U256, spent: SpentList, log: seq<Mutation>)
    | Switch(chain: seq<Block>, fork: nat, args: Reorg)
    | StoreFork(block: Block, work: U256)
    | Evict(id: Hash256)
    | ReadCap(limit: nat)
    | WriteCap(plan: nat)
    | Finalize(utxos: Utxos, tip: Hash256)
    | Clear
    | Stamp(tip: Hash256)
    | Reindex

  ghost function NextChain(c: seq<Block>, step: Step): seq<Block> {
    match step
    case Commit(b, _, _, _) => c + [b]
    case Switch(d, _, _) => d
    case _ => c
  }

  /** What the callers of each write transaction have established. */
  ghost predicate Enabled(R: Rules, c: seq<Block>, plans: nat, step: Step) {
    match step
    case Commit(b, work, spent, log) =>
      && Extends(R, c, b) && work == AddWork(WorkAt(c), WorkFromTarget(b.header.target))
      && BlockArgs(R, c + [b], spent, log)
    case Switch(d, f, a) => Committed(R, d) && WellFormed(R, c, d, f, a) && Healed(R, a)
    case StoreFork(b, work) => Sealed(R, b) && Genuine(R, Id(R, b), work)
    case Evict(_) => true
    case ReadCap(_) => true
    case WriteCap(plan) => plan < plans
    case Finalize(u, tip) => c != [] && u == UtxosAt(R, c) && tip == Id(R, c[|c| - 1])
    case Clear => true
    case Stamp(tip) => c != [] && tip == Id(R, c[|c| - 1])
    case Reindex => true
  }

  ghost function ChainAfter(c: seq<Block>, steps: seq<Step>): seq<Block> {
    if steps == [] then c else NextChain(ChainAfter(c, steps[..|steps| - 1]), steps[|steps| - 1])
  }

  /** The number of caps read so far. */
  ghost function PlansAfter(steps: seq<Step>): nat {
    if steps == [] then 0 else PlansAfter(steps[..|steps| - 1]) + (if steps[|steps| - 1].ReadCap? then 1 else 0)
  }

  ghost predicate Legal(R: Rules, c: seq<Block>, steps: seq<Step>) {
    forall i | 0 <= i < |steps| :: Enabled(R, ChainAfter(c, steps[..i]), PlansAfter(steps[..i]), steps[i])
  }

  /** Whether the snapshot is complete after a step: finalizing makes it so, and only clearing undoes it. */
  ghost function NextComplete(complete: bool, step: Step): bool {
    match step
    case Finalize(_, _) => true
    case Clear => false
    case _ => complete
  }

  ghost function CompleteAfter(steps: seq<Step>): bool {
    steps == [] || NextComplete(CompleteAfter(steps[..|steps| - 1]), steps[|steps| - 1])
  }

  /** The block that the walk marker names after a step on the chain `c`. */
  ghost function NextMarker(R: Rules, c: seq<Block>, marker: Option<Hash256>, step: Step): Option<Hash256> {
    var d := NextChain(c, step);
    match step
    case Commit(_, _, _, _) => if d == [] then None else Some(Id(R, d[|d| - 1]))
    case Switch(_, _, _) => if d == [] then None else Some(Id(R, d[|d| - 1]))
    case Finalize(_, _) => if d == [] then None else Some(Id(R, d[|d| - 1]))
    case Stamp(_) => if d == [] then None else Some(Id(R, d[|d| - 1]))
    case Clear => None
    case _ => marker
  }

  ghost function MarkerAfter(R: Rules, c: seq<Block>, steps: seq<Step>): Option<Hash256> {
    if steps == [] then (if c == [] then None else Some(Id(R, c[|c| - 1])))
    else
      var init := steps[..|steps| - 1];
      NextMarker(R, ChainAfter(c, init), MarkerAfter(R, c, init), steps[|steps| - 1])
  }

  ghost predicate PlansOk(R: Rules, plans: seq<Victims>) {
    forall i | 0 <= i < |plans| :: TrueVictims(R, plans[i])
  }

  lemma PlanIsTrue(R: Rules, db: Db, c: seq<Block>, vs: Victims)
    requires DbInv(R, db, c) && FromTable(db.retained, vs)
    ensures TrueVictims(R, vs)
  {
    hide Committed, ChainOk, UtxosOk, IndexesOk, WalkOk, TrueHeight;
  }

  /** One step of a run. */
  method Perform(s: ChainStorage, ghost c: seq<Block>, plans: seq<Victims>, step: Step) returns (plans': seq<Victims>)
    requires Lawful(s.R) && LawfulBlocks(s.R) && DbInv(s.R, s.db, c) && PlansOk(s.R, plans) && Enabled(s.R, c, |plans|, step)
    modifies s
    ensures DbInv(s.R, s.db, NextChain(c, step)) && PlansOk(s.R, plans')
    ensures |plans'| == |plans| + (if step.ReadCap? then 1 else 0)
    ensures s.db.complete == NextComplete(old(s.db.complete), step)
    ensures s.db.walkTip == NextMarker(s.R, c, old(s.db.walkTip), step)
  {
    hide Lawful, LawfulBlocks, DbInv, Extends, BlockArgs, WellFormed, Healed, Committed, WorkAt, UtxosAt, TrueVictims;
    hide ReorgSerializes, RowsSerialize, LogSerializes, Indexable, Genuine, Sealed, BlockDb, ReorgDb, ForkDb, EvictDb, CapDb, FinalizedDb, ClearedDb;
    plans' := plans;
    ghost var R, db := s.R, s.db;
    match step {
      case Commit(b, work, spent, log) =>
        BlockKeeps(R, db, c, b, work, spent, log);
        CommitStorable(R, db, c, b, spent, log);
        BlockMarkers(R, db, b, work, spent, log);
        var ok := s.CommitBlock(b, work, spent, log);
      case Switch(d, f, a) =>
        ReorgKeepsIff(R, db, c, d, f, a);
        ReorgStorable(R, c, d, f, a);
        ReorgMarkers(R, db, c, d, f, a);
        var ok := s.CommitReorg(a);
      case StoreFork(b, work) =>
        ForkKeeps(R, db, c, b, work);
        ForkMarkers(R, db, b, work);
        var ok := s.StoreForkBlock(b, work);
      case Evict(id) =>
        EvictKeeps(R, db, c, id);
        EvictMarkers(db, id);
        s.EvictForkBlock(id);
      case ReadCap(limit) =>
        var vs := s.PlanCap(limit);
        PlanIsTrue(R, db, c, vs);
        plans' := plans + [vs];
      case WriteCap(plan) =>
        CapKeeps(R, db, c, plans[plan]);
        CapMarkers(db, plans[plan]);
        s.EnforceCap(plans[plan]);
      case Finalize(u, tip) =>
        FinalizeKeeps(R, db, c);
        ChainSane(R, c);
        FinalMarkers(db, u, tip);
        var ok := s.FinalizeSnapshot(u, tip);
      case Clear =>
        ClearKeeps(R, db, c);
        ClearMarkers(db);
        s.ClearSnapshot();
      case Stamp(tip) =>
        WalkKeeps(R, db, c);
        s.SetWalkTip(tip);
      case Reindex =>
        ReindexKeeps(R, db, c);
        var ok, done := BuildSpentByIndex(s, c);
    }
  }

  lemma EvictMarkers(db: Db, id: Hash256)
    ensures EvictDb(db, id).complete == db.complete && EvictDb(db, id).walkTip == db.walkTip
  {
  }

  lemma ClearMarkers(db: Db)
    ensures !ClearedDb(db).complete && ClearedDb(db).walkTip == None
  {
  }

  lemma BlockMarkers(R: Rules, db: Db, b: Block, work: U256, spent: SpentList, log: seq<Mutation>)
    ensures var next := BlockDb(R, db, b, work, spent, log); next.complete == db.complete && next.walkTip == Some(Id(R, b))
  {
    hide AddSpenders, IndexRows, Forward;
  }

  lemma ReorgMarkers(R: Rules, db: Db, c: seq<Block>, d: seq<Block>, f: nat, a: Reorg)
    requires WellFormed(R, c, d, f, a)
    ensures d != [] && ReorgDb(R, db, a).complete == db.complete && ReorgDb(R, db, a).walkTip == Some(Id(R, d[|d| - 1]))
  {
    hide AddSpenders, AddBlocks, IndexRows, IndexAll, Forward, ForwardAll, UndoOrphans, DropSpenders, PutAll, IdsAtAll, RowsFit, Rearranged, UtxosAt;
  }

  lemma ForkMarkers(R: Rules, db: Db, b: Block, work: U256)
    ensures ForkDb(R, db, b, work).complete == db.complete && ForkDb(R, db, b, work).walkTip == db.walkTip
  {
  }

  lemma {:induction false} CapMarkers(db: Db, vs: Victims)
    ensures CapDb(db, vs).complete == db.complete && CapDb(db, vs).walkTip == db.walkTip
  {
    if vs != [] { CapMarkers(db, vs[..|vs| - 1]); }
  }

  lemma FinalMarkers(db: Db, u: Utxos, tip: Hash256)
    ensures FinalizedDb(db, u, tip).complete && FinalizedDb(db, u, tip).walkTip == Some(tip)
  {
  }

  lemma CommitStorable(R: Rules, db: Db, c: seq<Block>, b: Block, spent: SpentList, log: seq<Mutation>)
    requires Lawful(R) && LawfulBlocks(R) && DbInv(R, db, c) && Extends(R, c, b) && BlockArgs(R, c + [b], spent, log)
    ensures R.blockSize(b).Some? && RowsSerialize(R, spent) && LogSerializes(R, log) && Indexable(R, b.txs)
  {
    hide Lawful, LawfulBlocks, Committed, Extends, BlockArgs, ChainOk, RowsOk, UtxosOk, IndexesOk, WalkOk, RowsSerialize, LogSerializes, Indexable;
    CommittedSnoc(R, c, b);
    CommittedAccepted(R, c + [b]);
    Storable(R, c + [b], spent, log);
  }

  lemma ReindexKeeps(R: Rules, db: Db, c: seq<Block>)
    requires DbInv(R, db, c)
    ensures db.(spentBy := AddBlocks(R, db.spentBy, c)) == db
  {
    hide Committed, ChainOk, RowsOk, UtxosOk, WalkOk, IndexAll;
    RebuildKeeps(R, c);
  }

  /**
   Every run that starts from genesis on an empty database, whatever the order of its steps and however
   old the cap plans it executes, ends with every table right for the chain that the run commits. The snapshot is
   complete unless it was cleared and not finalized since, and the walk marker names the last tip that was stamped.
   */
  method Run(R: Rules, genesis: Block, genesisLog: seq<Mutation>, ghost genesisSpent: SpentList, steps: seq<Step>)
    returns (s: ChainStorage)
    requires Lawful(R) && LawfulBlocks(R) && Extends(R, [], genesis) && BlockArgs(R, [genesis], genesisSpent, genesisLog)
    requires Legal(R, [genesis], steps)
    ensures fresh(s) && s.R == R && DbInv(R, s.db, ChainAfter([genesis], steps))
    ensures s.db.complete == CompleteAfter(steps) && s.db.walkTip == MarkerAfter(R, [genesis], steps)
    ensures CompleteAfter(steps) ==> s.db.utxos == UtxosAt(R, ChainAfter([genesis], steps))
  {
    hide Lawful, LawfulBlocks, DbInv, Extends, BlockArgs, Enabled, TrueVictims, LogSerializes, Indexable, WorkFromTarget, UtxosAt;
    hide NextComplete, NextMarker;
    ghost var c := [genesis];
    s := new ChainStorage(R);
    GenesisKeeps(R, genesis, genesisLog, genesisSpent);
    GenesisStorable(R, genesis, genesisSpent, genesisLog);
    var ok := s.CommitGenesis(genesis, WorkFromTarget(genesis.header.target), genesisLog);
    var plans: seq<Victims> := [];
    for i := 0 to |steps|
      invariant fresh(s) && s.R == R && DbInv(R, s.db, ChainAfter(c, steps[..i]))
      invariant PlansOk(R, plans) && |plans| == PlansAfter(steps[..i])
      invariant s.db.complete == CompleteAfter(steps[..i]) && s.db.walkTip == MarkerAfter(R, c, steps[..i])
    {
      assert steps[..i + 1][..i] == steps[..i];
      plans := Perform(s, ChainAfter(c, steps[..i]), plans, steps[i]);
    }
    assert steps[..|steps|] == steps;
    SnapshotExact(R, s.db, ChainAfter(c, steps));
  }

  lemma SnapshotExact(R: Rules, db: Db, c: seq<Block>)
    requires DbInv(R, db, c)
    ensures db.complete ==> db.utxos == UtxosAt(R, c) && db.snapshotTip == db.tip
  {
    hide Committed, ChainOk, RowsOk, IndexesOk, WalkOk, UtxosAt;
  }

  lemma GenesisStorable(R: Rules, b: Block, spent: SpentList, log: seq<Mutation>)
    requires Lawful(R) && LawfulBlocks(R) && Extends(R, [], b) && BlockArgs(R, [b], spent, log)
    ensures R.blockSize(b).Some? && LogSerializes(R, log) && Indexable(R, b.txs)
  {
    hide Lawful, LawfulBlocks, Committed, Extends, BlockArgs, RowsSerialize, LogSerializes, Indexable;
    FirstCommitted(R, b);
    CommittedAccepted(R, [b]);
    Storable(R, [b], spent, log);
  }

  /** No legal run replaces the first block. */
  lemma {:induction false} GenesisStays(R: Rules, c: seq<Block>, steps: seq<Step>)
    requires c != [] && Legal(R, c, steps)
    ensures ChainAfter(c, steps) != [] && ChainAfter(c, steps)[0] == c[0]
  {
    hide Extends, BlockArgs, Committed, WorkAt, Genuine, Sealed, UtxosAt, RowsFit, Rearranged;
    if steps != [] {
      var n := |steps| - 1;
      var init := steps[..n];
      forall i | 0 <= i < |init| ensures Enabled(R, ChainAfter(c, init[..i]), PlansAfter(init[..i]), init[i]) {
        assert init[..i] == steps[..i];
        assert Enabled(R, ChainAfter(c, steps[..i]), PlansAfter(steps[..i]), steps[i]);
      }
      GenesisStays(R, c, init);
      assert Enabled(R, ChainAfter(c, steps[..n]), PlansAfter(steps[..n]), steps[n]);
      var d := ChainAfter(c, init);
      match steps[n] {
        case Switch(e, f, a) => assert e[..f][0] == d[..f][0];
        case _ =>
      }
    }
  }
}
