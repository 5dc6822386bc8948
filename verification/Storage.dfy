/**
 The database as an object: every method below is one write transaction, committed as a whole or not at
 all, or one read.
 */
module Storage {
  import opened SmtSpec
  import opened WorkSpec
  import opened Ledger
  import opened UtxoState
  import opened BlockSpec
  import opened DiskUndo
  import opened Headers
  import opened StorageSpec

  // ---- Loops over one table ----

  method ApplyUtxoMutations(R: Rules, u: Utxos, log: seq<Mutation>) returns (ok: bool, r: Utxos)
    ensures ok <==> LogSerializes(R, log)
    ensures ok ==> r == Forward(u, log)
  {
    r := u;
    for i := 0 to |log|
      invariant LogSerializes(R, log[..i]) && r == Forward(u, log[..i])
    {
      assert log[..i + 1][..i] == log[..i];
      match log[i] {
        case Insert(op, entry) =>
          if R.outputSize(entry.output).None? { return false, r; }
          r := r[op := entry];
        case Remove(op, _) =>
          r := r - {op};
      }
    }
    assert log[..|log|] == log;
    ok := true;
  }

  method IndexBlock(R: Rules, m: TxIndex, txs: seq<Tx>, height: nat) returns (r: TxIndex)
    ensures r == m + IndexRows(R, txs, height)
  {
    hide TxIds;
    r := m;
    assert TxIds(R, txs[..0]) == {} by { NoIds(R); }
    for i := 0 to |txs|
      invariant r == m + IndexRows(R, txs[..i], height)
    {
      TxIdsSnoc(R, txs, i);
      if R.txId(txs[i]).Some? {
        r := r[R.txId(txs[i]).value := height];
      }
    }
    assert txs[..|txs|] == txs;
  }

  lemma NoIds(R: Rules)
    ensures TxIds(R, []) == {}
  {
  }

  lemma TxIdsSnoc(R: Rules, txs: seq<Tx>, i: nat)
    requires i < |txs|
    ensures TxIds(R, txs[..i + 1]) == TxIds(R, txs[..i]) + (if R.txId(txs[i]).Some? then {R.txId(txs[i]).value} else {})
  {
    forall id | id in TxIds(R, txs[..i]) ensures id in TxIds(R, txs[..i + 1]) {
      var j :| 0 <= j < i && R.txId(txs[..i][j]) == Some(id);
      assert txs[..i + 1][j] == txs[..i][j];
    }
    assert txs[..i + 1][i] == txs[i];
    forall id | id in TxIds(R, txs[..i + 1]) ensures id in TxIds(R, txs[..i]) || R.txId(txs[i]) == Some(id) {
      var j :| 0 <= j < i + 1 && R.txId(txs[..i + 1][j]) == Some(id);
      if j < i { assert txs[..i][j] == txs[..i + 1][j]; }
    }
  }

  method UnindexBlock(R: Rules, m: TxIndex, txs: seq<Tx>) returns (r: TxIndex)
    ensures r == m - TxIds(R, txs)
  {
    r := m;
    for i := 0 to |txs|
      invariant r == m - TxIds(R, txs[..i])
    {
      TxIdsSnoc(R, txs, i);
      if R.txId(txs[i]).Some? {
        r := r - {R.txId(txs[i]).value};
      }
    }
    assert txs[..|txs|] == txs;
  }

  method ApplySpentBy(R: Rules, m: SpentBy, txs: seq<Tx>, height: nat) returns (ok: bool, r: SpentBy)
    ensures ok <==> Indexable(R, txs)
    ensures ok ==> r == AddSpenders(R, m, txs, height)
  {
    r := m;
    for i := 0 to |txs|
      invariant Indexable(R, txs[..i]) && r == AddSpenders(R, m, txs[..i], height)
    {
      assert txs[..i + 1][..i] == txs[..i];
      if !IsCoinbase(txs[i]) {
        if R.txId(txs[i]).None? { return false, r; }
        r := ApplyInputs(r, R.txId(txs[i]).value, txs[i].inputs, height);
      }
    }
    assert txs[..|txs|] == txs;
    ok := true;
  }

  method ApplyInputs(m: SpentBy, id: Hash256, ops: seq<OutPoint>, height: nat) returns (r: SpentBy)
    ensures r == AddInputs(m, id, ops, height)
  {
    r := m;
    for j := 0 to |ops|
      invariant r == AddInputs(m, id, ops[..j], height)
    {
      assert ops[..j + 1][..j] == ops[..j];
      r := r[ops[j] := Spender(id, j, height)];
    }
    assert ops[..|ops|] == ops;
  }

  method RevertSpentBy(m: SpentBy, txs: seq<Tx>) returns (r: SpentBy)
    ensures r == m - ConsumedBy(txs)
  {
    r := m;
    for i := 0 to |txs|
      invariant r == m - ConsumedBy(txs[..i])
    {
      assert txs[..i + 1][..i] == txs[..i];
      if !IsCoinbase(txs[i]) {
        r := RevertInputs(r, txs[i].inputs);
      }
      assert OpSet([]) == {};
    }
    assert txs[..|txs|] == txs;
  }

  method RevertInputs(m: SpentBy, ops: seq<OutPoint>) returns (r: SpentBy)
    ensures r == m - OpSet(ops)
  {
    r := m;
    for j := 0 to |ops|
      invariant r == m - OpSet(ops[..j])
    {
      OpSetSnoc(ops[..j + 1]);
      assert ops[..j + 1][..j] == ops[..j];
      r := r - {ops[j]};
    }
    assert ops[..|ops|] == ops;
  }

  method DeleteOutputs(R: Rules, u: Utxos, txs: seq<Tx>) returns (r: Utxos)
    ensures r == u - OutputsOf(R, txs)
  {
    r := u;
    for i := 0 to |txs|
      invariant r == u - OutputsOf(R, txs[..i])
    {
      assert txs[..i + 1][..i] == txs[..i];
      if R.txId(txs[i]).Some? {
        r := DeleteOwn(R, r, txs[i]);
      }
    }
    assert txs[..|txs|] == txs;
  }

  method DeleteOwn(R: Rules, u: Utxos, tx: Tx) returns (r: Utxos)
    requires R.txId(tx).Some?
    ensures r == u - OwnOps(R, tx, |tx.outputs|)
  {
    r := u;
    for k := 0 to |tx.outputs|
      invariant r == u - OwnOps(R, tx, k)
    {
      OwnOpsSnoc(R, tx, k);
      r := r - {OutPoint(R.txId(tx).value, k)};
    }
  }

  method RestoreRows(u: Utxos, row: SpentList) returns (r: Utxos)
    ensures r == u + PrevMap(row)
  {
    r := u;
    for i := 0 to |row|
      invariant r == u + PrevMap(row[..i])
    {
      assert row[..i + 1][..i] == row[..i];
      r := r[row[i].0 := row[i].1];
    }
    assert row[..|row|] == row;
  }

  method CheckRows(R: Rules, row: SpentList) returns (ok: bool)
    ensures ok == RowsSerialize(R, row)
  {
    for i := 0 to |row|
      invariant RowsSerialize(R, row[..i])
    {
      if R.outputSize(row[i].1.output).None? { return false; }
    }
    assert row[..|row|] == row;
    ok := true;
  }

  // ---- Loops over the arguments of a reorg ----

  method StoreBlocks(R: Rules, m: map<Hash256, Block>, hs: map<Hash256, Header>, blocks: seq<Block>)
    returns (ok: bool, m': map<Hash256, Block>, hs': map<Hash256, Header>)
    ensures ok <==> forall i | 0 <= i < |blocks| :: R.blockSize(blocks[i]).Some?
    ensures ok ==> m' == PutAll<Block>(m, BlockRows(R, blocks)) && hs' == PutAll<Header>(hs, HeaderRows(R, blocks))
  {
    m', hs' := m, hs;
    for i := 0 to |blocks|
      invariant forall j | 0 <= j < i :: R.blockSize(blocks[j]).Some?
      invariant m' == PutAll<Block>(m, BlockRows(R, blocks[..i])) && hs' == PutAll<Header>(hs, HeaderRows(R, blocks[..i]))
    {
      assert BlockRows(R, blocks[..i + 1])[..i] == BlockRows(R, blocks[..i]);
      assert HeaderRows(R, blocks[..i + 1])[..i] == HeaderRows(R, blocks[..i]);
      if R.blockSize(blocks[i]).None? { return false, m', hs'; }
      m' := m'[Id(R, blocks[i]) := blocks[i]];
      hs' := hs'[Id(R, blocks[i]) := blocks[i].header];
    }
    assert blocks[..|blocks|] == blocks;
    ok := true;
  }

  method StoreRows<V>(m: map<nat, V>, rows: seq<(nat, V)>) returns (r: map<nat, V>)
    ensures r == PutAll<V>(m, rows)
  {
    r := m;
    for i := 0 to |rows|
      invariant r == PutAll<V>(m, rows[..i])
    {
      assert rows[..i + 1][..i] == rows[..i];
      r := r[rows[i].0 := rows[i].1];
    }
    assert rows[..|rows|] == rows;
  }

  method StoreSpent(R: Rules, m: map<Hash256, SpentList>, rows: seq<(Hash256, SpentList)>)
    returns (ok: bool, r: map<Hash256, SpentList>)
    ensures ok <==> forall i | 0 <= i < |rows| :: RowsSerialize(R, rows[i].1)
    ensures ok ==> r == PutAll<SpentList>(m, rows)
  {
    r := m;
    for i := 0 to |rows|
      invariant forall j | 0 <= j < i :: RowsSerialize(R, rows[j].1)
      invariant r == PutAll<SpentList>(m, rows[..i])
    {
      assert rows[..i + 1][..i] == rows[..i];
      var fits := CheckRows(R, rows[i].1);
      if !fits { return false, r; }
      r := r[rows[i].0 := rows[i].1];
    }
    assert rows[..|rows|] == rows;
    ok := true;
  }

  method UnindexHeights(R: Rules, m: TxIndex, index: map<nat, Hash256>, blocks: map<Hash256, Block>, hs: set<nat>)
    returns (r: TxIndex)
    ensures r == m - IdsAtAll(R, index, blocks, hs)
  {
    hide IdsAtAll, TxIds;
    r := m;
    var todo, done := hs, {};
    NoHeights(R, index, blocks);
    while todo != {}
      invariant todo <= hs && done == hs - todo && r == m - IdsAtAll(R, index, blocks, done)
      decreases |todo|
    {
      var h :| h in todo;
      IdsAtOneMore(R, index, blocks, done, h);
      WithoutBoth(m, IdsAtAll(R, index, blocks, done), IdsAt(R, index, blocks, h));
      if h in index && index[h] in blocks {
        r := UnindexBlock(R, r, blocks[index[h]].txs);
      }
      todo, done := todo - {h}, done + {h};
    }
    assert done == hs;
  }

  lemma NoHeights(R: Rules, index: map<nat, Hash256>, blocks: map<Hash256, Block>)
    ensures IdsAtAll(R, index, blocks, {}) == {}
  {
  }

  lemma WithoutBoth(m: TxIndex, a: set<Hash256>, b: set<Hash256>)
    ensures (m - a) - b == m - (a + b) && m - {} == m
  {
  }

  lemma IdsAtOneMore(R: Rules, index: map<nat, Hash256>, blocks: map<Hash256, Block>, hs: set<nat>, h: nat)
    ensures IdsAtAll(R, index, blocks, hs + {h}) == IdsAtAll(R, index, blocks, hs) + IdsAt(R, index, blocks, h)
  {
  }

  method IndexBlocks(R: Rules, m: TxIndex, blocks: seq<Block>) returns (r: TxIndex)
    ensures r == IndexAll(R, m, blocks)
  {
    r := m;
    for i := 0 to |blocks|
      invariant r == IndexAll(R, m, blocks[..i])
    {
      assert blocks[..i + 1][..i] == blocks[..i];
      r := IndexBlock(R, r, blocks[i].txs, blocks[i].header.height);
    }
    assert blocks[..|blocks|] == blocks;
  }

  method UndoOrphan(R: Rules, u: Utxos, spent: map<Hash256, SpentList>, orphan: Block) returns (r: Utxos)
    ensures r == UndoneOnDisk(R, u, orphan.txs, RowOf(spent, Id(R, orphan)))
  {
    hide OutputsOf, PrevMap;
    var id := Id(R, orphan);
    r := DeleteOutputs(R, u, orphan.txs);
    if id in spent {
      r := RestoreRows(r, spent[id]);
    } else {
      EmptyPrev();
      assert r + map[] == r;
    }
  }

  method UndoOrphanBlocks(R: Rules, u: Utxos, spent: map<Hash256, SpentList>, orphans: seq<Block>) returns (r: Utxos)
    ensures r == UndoOrphans(R, u, spent, orphans)
  {
    hide UndoneOnDisk, RowOf;
    r := u;
    for i := 0 to |orphans|
      invariant UndoOrphans(R, r, spent, orphans[i..]) == UndoOrphans(R, u, spent, orphans)
    {
      assert orphans[i..][1..] == orphans[i + 1..];
      r := UndoOrphan(R, r, spent, orphans[i]);
    }
  }

  method RevertOrphans(m: SpentBy, orphans: seq<Block>) returns (r: SpentBy)
    ensures r == DropSpenders(m, orphans)
  {
    r := m;
    for i := 0 to |orphans|
      invariant DropSpenders(r, orphans[i..]) == DropSpenders(m, orphans)
    {
      assert orphans[i..][1..] == orphans[i + 1..];
      r := RevertSpentBy(r, orphans[i].txs);
    }
  }

  method ApplyLogs(R: Rules, u: Utxos, logs: seq<(Hash256, seq<Mutation>)>) returns (ok: bool, r: Utxos)
    ensures ok <==> forall i | 0 <= i < |logs| :: LogSerializes(R, logs[i].1)
    ensures ok ==> r == ForwardAll(u, logs)
  {
    r := u;
    for i := 0 to |logs|
      invariant forall j | 0 <= j < i :: LogSerializes(R, logs[j].1)
      invariant r == ForwardAll(u, logs[..i])
    {
      assert logs[..i + 1][..i] == logs[..i];
      ok, r := ApplyUtxoMutations(R, r, logs[i].1);
      if !ok { return; }
    }
    assert logs[..|logs|] == logs;
    ok := true;
  }

  method ApplySpentByBlocks(R: Rules, m: SpentBy, blocks: seq<Block>) returns (ok: bool, r: SpentBy)
    ensures ok <==> forall i | 0 <= i < |blocks| :: Indexable(R, blocks[i].txs)
    ensures ok ==> r == AddBlocks(R, m, blocks)
  {
    r := m;
    for i := 0 to |blocks|
      invariant forall j | 0 <= j < i :: Indexable(R, blocks[j].txs)
      invariant r == AddBlocks(R, m, blocks[..i])
    {
      assert blocks[..i + 1][..i] == blocks[..i];
      ok, r := ApplySpentBy(R, r, blocks[i].txs, blocks[i].header.height);
      if !ok { return; }
    }
    assert blocks[..|blocks|] == blocks;
    ok := true;
  }

  // ---- The database ----

  class ChainStorage {
    const R: Rules
    var db: Db

    constructor (R: Rules)
      ensures this.R == R && db == EMPTY_DB
    {
      this.R := R;
      db := EMPTY_DB;
    }

    method CommitGenesis(block: Block, work: U256, log: seq<Mutation>) returns (ok: bool)
      modifies this
      ensures ok <==> R.blockSize(block).Some? && LogSerializes(R, log) && Indexable(R, block.txs)
      ensures db == if ok then GenesisDb(R, old(db), block, work, log) else old(db)
    {
      hide Forward, AddSpenders, LogSerializes, Indexable, IndexRows;
      var id := Id(R, block);
      if R.blockSize(block).None? { return false; }
      var txIndex := IndexBlock(R, db.txIndex, block.txs, block.header.height);
      var logged, utxos := ApplyUtxoMutations(R, db.utxos, log);
      if !logged { return false; }
      var indexed, spentBy := ApplySpentBy(R, db.spentBy, block.txs, block.header.height);
      if !indexed { return false; }
      db := db.(blocks := db.blocks[id := block], headers := db.headers[id := block.header],
                heightIndex := db.heightIndex[block.header.height := id], work := db.work[id := work],
                tip := Some(id), complete := true, snapshotTip := Some(id), walkTip := Some(id),
                txIndex := txIndex, utxos := utxos, spentBy := spentBy);
      ok := true;
    }

    method CommitBlock(block: Block, work: U256, spent: SpentList, log: seq<Mutation>) returns (ok: bool)
      modifies this
      ensures ok <==> R.blockSize(block).Some? && RowsSerialize(R, spent) && LogSerializes(R, log) && Indexable(R, block.txs)
      ensures db == if ok then BlockDb(R, old(db), block, work, spent, log) else old(db)
    {
      hide Forward, AddSpenders, LogSerializes, Indexable, IndexRows, RowsSerialize;
      var id := Id(R, block);
      if R.blockSize(block).None? { return false; }
      var fits := CheckRows(R, spent);
      if !fits { return false; }
      var txIndex := IndexBlock(R, db.txIndex, block.txs, block.header.height);
      var logged, utxos := ApplyUtxoMutations(R, db.utxos, log);
      if !logged { return false; }
      var indexed, spentBy := ApplySpentBy(R, db.spentBy, block.txs, block.header.height);
      if !indexed { return false; }
      db := db.(blocks := db.blocks[id := block], headers := db.headers[id := block.header],
                work := db.work[id := work], spent := db.spent[id := spent],
                heightIndex := db.heightIndex[block.header.height := id],
                tip := Some(id), snapshotTip := AdvanceSnapshot(id), walkTip := Some(id),
                forks := db.forks - {id}, txIndex := txIndex, utxos := utxos, spentBy := spentBy);
      ok := true;
    }

    /** A tip update moves the snapshot marker only on top of a complete snapshot. */
    function AdvanceSnapshot(id: Hash256): Option<Hash256>
      reads this
    {
      if db.complete then Some(id) else db.snapshotTip
    }

    method CommitReorg(a: Reorg) returns (ok: bool)
      modifies this
      ensures ok <==> ReorgSerializes(R, a)
      ensures db == if ok then ReorgDb(R, old(db), a) else old(db)
    {
      hide Forward, ForwardAll, UndoOrphans, AddSpenders, AddBlocks, DropSpenders, LogSerializes, Indexable, IndexRows, RowsSerialize;
      hide IndexAll, IdsAtAll, StaleRange, HeightsOf, IdsOf, BlockRows, HeaderRows, PutAll;
      var id := Id(R, a.trigger);
      if R.blockSize(a.trigger).None? { return false; }
      var sized, blocks, headers := StoreBlocks(R, db.blocks[id := a.trigger], db.headers[id := a.trigger.header], a.blocks);
      if !sized { return false; }
      var work := StoreRows<U256>(db.work[id := a.work], a.works);
      var fits, spent := StoreSpent(R, db.spent, a.spent);
      if !fits { return false; }
      var stale := StaleRange(a.stale);
      var txIndex := UnindexHeights(R, db.txIndex, db.heightIndex, blocks, stale + HeightsOf(a.heights));
      var heightIndex := StoreRows<Hash256>(db.heightIndex, a.heights);
      heightIndex := heightIndex - stale;
      txIndex := IndexBlock(R, txIndex, a.trigger.txs, a.trigger.header.height);
      txIndex := IndexBlocks(R, txIndex, a.blocks);
      var utxos := UndoOrphanBlocks(R, db.utxos, spent, a.orphans);
      var spentBy := RevertOrphans(db.spentBy, a.orphans);
      var logged;
      logged, utxos := ApplyLogs(R, utxos, a.logs);
      if !logged { return false; }
      var indexed;
      indexed, spentBy := ApplySpentBy(R, spentBy, a.trigger.txs, a.trigger.header.height);
      if !indexed { return false; }
      indexed, spentBy := ApplySpentByBlocks(R, spentBy, a.blocks);
      if !indexed { return false; }
      db := db.(blocks := blocks, headers := headers, work := work, spent := spent, heightIndex := heightIndex,
                tip := Some(a.tip), snapshotTip := AdvanceSnapshot(a.tip), walkTip := Some(a.tip),
                forks := db.forks - IdsOf(a.heights) - {id}, txIndex := txIndex, utxos := utxos, spentBy := spentBy);
      ok := true;
    }

    method StoreForkBlock(block: Block, work: U256) returns (ok: bool)
      modifies this
      ensures ok <==> R.blockSize(block).Some?
      ensures db == if ok then ForkDb(R, old(db), block, work) else old(db)
    {
      var id := Id(R, block);
      if R.blockSize(block).None? { return false; }
      db := db.(blocks := db.blocks[id := block], headers := db.headers[id := block.header],
                work := db.work[id := work], forks := db.forks[id := work]);
      ok := true;
    }

    /** The write transaction of an eviction; the cap that follows it is `PlanCap` and `EnforceCap`. */
    method EvictForkBlock(id: Hash256)
      modifies this
      ensures db == EvictDb(old(db), id)
    {
      if id in db.headers && CanonicalAt(db, id, db.headers[id].height) {
        db := db.(forks := db.forks - {id});
      } else {
        var retained := db.retained;
        if id in db.headers { retained := retained[id := db.headers[id].height]; }
        db := db.(blocks := db.blocks - {id}, spent := db.spent - {id}, retained := retained, forks := db.forks - {id});
      }
    }

    /** The read half of the cap: the rows beyond the limit, lowest heights first. */
    method PlanCap(limit: nat) returns (vs: Victims)
      ensures |vs| == if |db.retained| > limit then |db.retained| - limit else 0
      ensures FromTable(db.retained, vs) && Distinct(vs)
      ensures LowestFirst(db.retained, vs)
    {
      var left := db.retained;
      vs := [];
      while |left| > limit
        invariant |left| + |vs| == |db.retained| && (|left| >= limit || vs == [])
        invariant Planned(db.retained, left, vs)
        decreases |left|
      {
        var id := Lowest(left);
        PlanStep(db.retained, left, vs, id);
        vs, left := vs + [(id, left[id])], left - {id};
      }
      PlanDone(db.retained, left, vs);
    }

    /** The write half, on whatever the tables are by now. */
    method EnforceCap(vs: Victims)
      modifies this
      ensures db == CapDb(old(db), vs)
    {
      for i := 0 to |vs|
        invariant db == CapDb(old(db), vs[..i])
      {
        assert vs[..i + 1][..i] == vs[..i];
        var id, height := vs[i].0, vs[i].1;
        if CanonicalAt(db, id, height) {
          db := db.(retained := db.retained - {id});
        } else {
          db := db.(retained := db.retained - {id}, headers := db.headers - {id},
                    work := db.work - {id}, spent := db.spent - {id});
        }
      }
      assert vs[..|vs|] == vs;
    }

    method FinalizeSnapshot(u: Utxos, tip: Hash256) returns (ok: bool)
      modifies this
      ensures ok <==> forall op | op in u :: R.outputSize(u[op].output).Some?
      ensures db == if ok then FinalizedDb(old(db), u, tip) else old(db)
    {
      var utxos;
      ok, utxos := WriteEntries(R, db.utxos, u);
      if !ok { return; }
      db := db.(utxos := utxos, complete := true, snapshotTip := Some(tip), walkTip := Some(tip));
      ok := true;
    }

    method ClearSnapshot()
      modifies this
      ensures db == ClearedDb(old(db))
    {
      db := db.(utxos := map[], complete := false, snapshotTip := None, walkTip := None);
    }

    method SetWalkTip(tip: Hash256)
      modifies this
      ensures db == old(db).(walkTip := Some(tip))
    {
      db := db.(walkTip := Some(tip));
    }
  }

  /** Write every entry of a map over a table. */
  method WriteEntries(R: Rules, base: Utxos, u: Utxos) returns (ok: bool, r: Utxos)
    ensures ok <==> forall op | op in u :: R.outputSize(u[op].output).Some?
    ensures ok ==> r == base + u
  {
    var todo := u.Keys;
    r := base;
    LoadDone(base, u);
    while todo != {}
      invariant todo <= u.Keys
      invariant forall op | op in u && op !in todo :: R.outputSize(u[op].output).Some?
      invariant r == base + (u - todo)
      decreases |todo|
    {
      var op :| op in todo;
      if R.outputSize(u[op].output).None? { return false, r; }
      LoadStep(base, u, todo, op);
      r := r[op := u[op]];
      todo := todo - {op};
    }
    ok := true;
  }

  lemma LoadStep(base: Utxos, u: Utxos, todo: set<OutPoint>, op: OutPoint)
    requires op in todo && op in u
    ensures (base + (u - todo))[op := u[op]] == base + (u - (todo - {op}))
  {
  }

  lemma LoadDone(base: Utxos, u: Utxos)
    ensures base + (u - u.Keys) == base && u - {} == u
  {
  }

  // ---- The retained-header cap ----

  ghost predicate FromTable(m: map<Hash256, nat>, vs: Victims) {
    forall i | 0 <= i < |vs| :: vs[i].0 in m && m[vs[i].0] == vs[i].1
  }

  /** Heights ascend, and no row outside the list is lower than one in it. */
  ghost predicate LowestFirst(m: map<Hash256, nat>, vs: Victims) {
    && (forall i, j | 0 <= i < j < |vs| :: vs[i].1 <= vs[j].1)
    && (forall i, id | 0 <= i < |vs| && id in m && (id, m[id]) !in vs :: vs[i].1 <= m[id])
  }

  /** The rows are split into those taken, in ascending order, and those left, which are no lower. */
  ghost predicate Planned(m: map<Hash256, nat>, left: map<Hash256, nat>, vs: Victims) {
    && FromTable(m, vs) && Distinct(vs)
    && (forall i, j | 0 <= i < j < |vs| :: vs[i].1 <= vs[j].1)
    && (forall id | id in left :: id in m && left[id] == m[id])
    && (forall i | 0 <= i < |vs| :: vs[i].0 !in left)
    && (forall id | id in m && id !in left :: (id, m[id]) in vs)
    && (forall i, id | 0 <= i < |vs| && id in left :: vs[i].1 <= left[id])
  }

  lemma PlanStep(m: map<Hash256, nat>, left: map<Hash256, nat>, vs: Victims, id: Hash256)
    requires Planned(m, left, vs) && id in left && forall x | x in left :: left[id] <= left[x]
    ensures Planned(m, left - {id}, vs + [(id, left[id])]) && |left| == |left - {id}| + 1
  {
    DropRow(left, id);
    var left', vs' := left - {id}, vs + [(id, left[id])];
    assert vs'[|vs|] == (id, m[id]);
    forall x | x in m && x !in left' ensures (x, m[x]) in vs' {
      if x != id { assert (x, m[x]) in vs; }
    }
  }

  lemma PlanDone(m: map<Hash256, nat>, left: map<Hash256, nat>, vs: Victims)
    requires Planned(m, left, vs)
    ensures FromTable(m, vs) && Distinct(vs) && LowestFirst(m, vs)
  {
  }

  method Lowest(m: map<Hash256, nat>) returns (id: Hash256)
    requires m != map[]
    ensures id in m && forall x | x in m :: m[id] <= m[x]
  {
    id :| id in m;
    var todo := m.Keys - {id};
    while todo != {}
      invariant todo <= m.Keys && id in m && forall x | x in m && x !in todo :: m[id] <= m[x]
      decreases |todo|
    {
      var x :| x in todo;
      if m[x] < m[id] { id := x; }
      todo := todo - {x};
    }
  }

  lemma DropRow<K, V>(m: map<K, V>, k: K)
    requires k in m
    ensures |m| == |m - {k}| + 1
  {
    assert m == (m - {k})[k := m[k]];
  }
}
