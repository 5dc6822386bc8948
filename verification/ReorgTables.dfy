/**
 A reorg on the UTXO table and the two indexes: the orphans' effects are taken out exactly, and the new
 blocks' effects put in.
 */
module ReorgTables {
  import opened SmtSpec
  import opened WorkSpec
  import opened Ledger
  import opened UtxoState
  import opened Chain
  import opened DiskUndo
  import opened Headers
  import opened StorageSpec
  import opened StorageInv
  import opened OrphanOrder
  import opened ReorgInv
  import opened Indexes

  // ---- The UTXO table ----

  /** The orphans' rows are still there after the new rows have been written, even if a block is on both sides. */
  lemma SpentRowsKept(R: Rules, db: Db, c: seq<Block>, d: seq<Block>, f: nat, a: Reorg)
    requires LawfulBlocks(R) && Committed(R, c) && Committed(R, d) && WellFormed(R, c, d, f, a) && ChainOk(R, db, c)
    ensures OwnRows(R, c, f, PutAll<SpentList>(db.spent, a.spent))
  {
    hide LawfulBlocks, Committed, WorkAt, BlockArgs, Rearranged, PutAll, SpentRow;
    forall i | f <= i < |c| ensures OwnRow(R, c, PutAll<SpentList>(db.spent, a.spent), i) {
      assert Resolves(R, db, c, i);
      forall j | 0 <= j < |a.spent| && a.spent[j].0 == Id(R, c[i]) ensures a.spent[j].1 == SpentRow(R, c[..i + 1]) {
        assert RowsFit(R, d, f, a, j);
        SharedPrefix(R, c, d, i, f + j);
        BlockArgsRow(R, d[..f + j + 1], a.spent[j].1, a.logs[j].1);
      }
      PutHit<SpentList>(db.spent, a.spent, Id(R, c[i]), SpentRow(R, c[..i + 1]));
    }
  }

  /** Each log belongs to its block of the new chain. */
  ghost predicate LogsFit(R: Rules, d: seq<Block>, f: nat, logs: seq<(Hash256, seq<Mutation>)>) {
    f + |logs| <= |d| && forall i | 0 <= i < |logs| :: LogFits(R, d, f + i, logs[i].1)
  }

  ghost predicate LogFits(R: Rules, d: seq<Block>, h: nat, log: seq<Mutation>)
    requires h < |d|
  {
    BlockArgs(R, d[..h + 1], SpentRow(R, d[..h + 1]), log)
  }

  /** Replaying the logs from the fork point leads up the new chain. */
  lemma {:induction false} LogsReplayed(R: Rules, d: seq<Block>, f: nat, logs: seq<(Hash256, seq<Mutation>)>)
    requires Lawful(R) && Committed(R, d) && f <= |d| && LogsFit(R, d, f, logs)
    ensures ForwardAll(UtxosAt(R, d[..f]), logs) == UtxosAt(R, d[..f + |logs|])
    decreases |logs|
  {
    hide Lawful, Committed, UtxosAt, Forward, LogFits, LogsFit, ForwardAll;
    ForwardAllStep(UtxosAt(R, d[..f]), logs);
    if logs != [] {
      var n := |logs| - 1;
      LogsFitInit(R, d, f, logs);
      LogsReplayed(R, d, f, logs[..n]);
      LogReplayed(R, d, f + n, logs[n].1);
    }
  }

  lemma LogReplayed(R: Rules, d: seq<Block>, h: nat, log: seq<Mutation>)
    requires Lawful(R) && Committed(R, d) && h < |d| && LogFits(R, d, h, log)
    ensures Forward(UtxosAt(R, d[..h]), log) == UtxosAt(R, d[..h + 1])
  {
    hide Lawful, Committed, UtxosAt, Forward, BlockArgs, SpentRow;
    var p := d[..h + 1];
    assert p[..|p| - 1] == d[..h];
    CommittedPrefix(R, d, h + 1);
    CommittedAccepted(R, p);
    UtxosForward(R, UtxosAt(R, d[..h]), p, SpentRow(R, p), log);
  }

  /** A log decides every outpoint it names and passes over the others. */
  lemma {:induction false} ForwardAt(u: Utxos, v: Utxos, log: seq<Mutation>, op: OutPoint)
    ensures InLog(log, op) ==> (op in Forward(u, log) <==> op in Forward(v, log))
    ensures InLog(log, op) && op in Forward(u, log) ==> Forward(u, log)[op] == Forward(v, log)[op]
    ensures !InLog(log, op) ==> (op in Forward(u, log) <==> op in u) && (op in u ==> Forward(u, log)[op] == u[op])
    ensures !InLog(log, op) ==> (op in Forward(v, log) <==> op in v) && (op in v ==> Forward(v, log)[op] == v[op])
  {
    if log != [] {
      var n := |log| - 1;
      var init := log[..n];
      ForwardAt(u, v, init, op);
      if InLog(init, op) {
        var j :| 0 <= j < n && init[j].op == op;
        assert log[j].op == op;
      } else if log[n].op != op {
        forall j | 0 <= j < |log| ensures log[j].op != op {
          if j < n { assert init[j].op != op; }
        }
      }
    }
  }

  lemma {:induction false} ForwardAllAt(u: Utxos, v: Utxos, logs: seq<(Hash256, seq<Mutation>)>, op: OutPoint)
    ensures InLogs(logs, op) ==> (op in ForwardAll(u, logs) <==> op in ForwardAll(v, logs))
    ensures InLogs(logs, op) && op in ForwardAll(u, logs) ==> ForwardAll(u, logs)[op] == ForwardAll(v, logs)[op]
    ensures !InLogs(logs, op) ==> (op in ForwardAll(u, logs) <==> op in u) && (op in u ==> ForwardAll(u, logs)[op] == u[op])
    ensures !InLogs(logs, op) ==> (op in ForwardAll(v, logs) <==> op in v) && (op in v ==> ForwardAll(v, logs)[op] == v[op])
  {
    hide Forward, InLog;
    if logs != [] {
      var n := |logs| - 1;
      var init := logs[..n];
      ForwardAllAt(u, v, init, op);
      ForwardAt(ForwardAll(u, init), ForwardAll(v, init), logs[n].1, op);
      if InLogs(init, op) {
        var i :| 0 <= i < n && InLog(init[i].1, op);
        assert InLog(logs[i].1, op);
      } else if !InLog(logs[n].1, op) {
        forall i | 0 <= i < |logs| ensures !InLog(logs[i].1, op) {
          if i < n { assert init[i] == logs[i]; }
        }
      }
    }
  }

  lemma ForwardAllStep(u: Utxos, logs: seq<(Hash256, seq<Mutation>)>)
    ensures logs == [] ==> ForwardAll(u, logs) == u
    ensures logs != [] ==> ForwardAll(u, logs) == Forward(ForwardAll(u, logs[..|logs| - 1]), logs[|logs| - 1].1)
  {
  }

  lemma LogsFitInit(R: Rules, d: seq<Block>, f: nat, logs: seq<(Hash256, seq<Mutation>)>)
    requires logs != [] && LogsFit(R, d, f, logs)
    ensures f + |logs| <= |d| && LogsFit(R, d, f, logs[..|logs| - 1]) && LogFits(R, d, f + |logs| - 1, logs[|logs| - 1].1)
  {
    hide LogFits;
  }

  lemma ArgLogsFit(R: Rules, c: seq<Block>, d: seq<Block>, f: nat, a: Reorg)
    requires WellFormed(R, c, d, f, a)
    ensures LogsFit(R, d, f, a.logs)
  {
    hide WorkAt, BlockArgs, Rearranged, SpentRow;
    forall i | 0 <= i < |a.logs| ensures LogFits(R, d, f + i, a.logs[i].1) {
      assert RowsFit(R, d, f, a, i);
      BlockArgsRow(R, d[..f + i + 1], a.spent[i].1, a.logs[i].1);
    }
  }

  lemma ReorgSnapshot(R: Rules, db: Db, a: Reorg)
    ensures var t := ReorgDb(R, db, a);
            && t.utxos == ForwardAll(UndoOrphans(R, db.utxos, PutAll<SpentList>(db.spent, a.spent), a.orphans), a.logs)
            && t.complete == db.complete && t.tip == Some(a.tip) && (t.complete ==> t.snapshotTip == t.tip)
            && t.walkTip == Some(a.tip)
  {
    hide PutAll, IndexAll, IdsAtAll, StaleRange, ForwardAll, UndoOrphans, AddBlocks, AddSpenders, DropSpenders, IndexRows, BlockRows, HeaderRows;
  }

  lemma ReorgShape(R: Rules, c: seq<Block>, d: seq<Block>, f: nat, a: Reorg) returns (order: seq<nat>)
    requires WellFormed(R, c, d, f, a)
    ensures 0 < f <= |c| && f < |d| && d[..f] == c[..f] && f + |a.logs| == |d| && d[..f + |a.logs|] == d
    ensures Rearranged(c, f, order, a.orphans) && a.tip == Id(R, d[|d| - 1])
  {
    hide RowsFit, Rearranged, WorkAt;
    order :| Rearranged(c, f, order, a.orphans);
  }

  /** The UTXO table at one outpoint: right after the reorg unless the outpoint is left behind and not logged. */
  lemma ReorgUtxoAt(R: Rules, db: Db, c: seq<Block>, d: seq<Block>, f: nat, a: Reorg, op: OutPoint)
    requires Lawful(R) && LawfulBlocks(R) && Committed(R, c) && Committed(R, d) && WellFormed(R, c, d, f, a)
    requires ChainOk(R, db, c) && UtxosOk(R, db, c)
    ensures var t, goal := ReorgDb(R, db, a).utxos, UtxosAt(R, d);
            var bad := LeftBehind(R, a.orphans, op) && !InLogs(a.logs, op);
            && (bad ==> op in t && op !in goal)
            && (!bad && op in t ==> op in goal && t[op] == goal[op])
            && (!bad && op in goal && db.complete ==> op in t)
  {
    hide Lawful, LawfulBlocks, Committed, UtxosAt, PutAll, ForwardAll, UndoOrphans, ChainOk, OwnRows, LogsFit, ReorgDb, WellFormed, LeftBehind, InLogs, Rearranged, Accepted, Forward;
    ReorgSnapshot(R, db, a);
    var order := ReorgShape(R, c, d, f, a);
    var spent, base := PutAll<SpentList>(db.spent, a.spent), UtxosAt(R, c[..f]);
    CommittedAccepted(R, c);
    SpentRowsKept(R, db, c, d, f, a);
    ListUndoneAt(R, c, f, order, a.orphans, spent, db.utxos, op);
    ArgLogsFit(R, c, d, f, a);
    LogsReplayed(R, d, f, a.logs);
    ForwardAllAt(UndoOrphans(R, db.utxos, spent, a.orphans), base, a.logs, op);
  }

  /** The UTXO table is right for the new chain if and only if whatever the orphans leave behind is logged again. */
  lemma ReorgUtxosIff(R: Rules, db: Db, c: seq<Block>, d: seq<Block>, f: nat, a: Reorg)
    requires Lawful(R) && LawfulBlocks(R) && Committed(R, c) && Committed(R, d) && WellFormed(R, c, d, f, a)
    requires ChainOk(R, db, c) && UtxosOk(R, db, c)
    ensures UtxosOk(R, ReorgDb(R, db, a), d) <==> Healed(R, a)
  {
    hide Lawful, LawfulBlocks, Committed, UtxosAt, PutAll, ForwardAll, UndoOrphans, ChainOk, ReorgDb, WellFormed, LeftBehind, InLogs;
    ReorgSnapshot(R, db, a);
    forall op {
      ReorgUtxoAt(R, db, c, d, f, a, op);
    }
    if Healed(R, a) && db.complete {
      assert ReorgDb(R, db, a).utxos == UtxosAt(R, d);
    }
  }

  // ---- The indexes ----

  lemma {:induction false} DroppedAt(m: SpentBy, orphans: seq<Block>, op: OutPoint)
    ensures op in DropSpenders(m, orphans) <==> op in m && forall k | 0 <= k < |orphans| :: op !in ConsumedBy(orphans[k].txs)
    ensures op in DropSpenders(m, orphans) ==> DropSpenders(m, orphans)[op] == m[op]
    decreases |orphans|
  {
    hide ConsumedBy;
    if orphans != [] {
      DroppedAt(m - ConsumedBy(orphans[0].txs), orphans[1..], op);
      forall k | 0 <= k < |orphans| ensures k > 0 ==> orphans[k] == orphans[1..][k - 1] {}
    }
  }

  /** In whatever order the orphans are listed, the same spenders go. */
  lemma DropsAlike(c: seq<Block>, f: nat, order: seq<nat>, orphans: seq<Block>, m: SpentBy)
    requires f <= |c| && Rearranged(c, f, order, orphans)
    ensures DropSpenders(m, orphans) == DropSpenders(m, NewestFirst(c, f))
  {
    hide ConsumedBy, NewestFirst, DropSpenders, Rearranged;
    var newest := NewestFirst(c, f);
    NewestFirstListed(c, f);
    forall op
      ensures op in DropSpenders(m, orphans) <==> op in DropSpenders(m, newest)
      ensures op in DropSpenders(m, orphans) ==> DropSpenders(m, orphans)[op] == DropSpenders(m, newest)[op]
    {
      DroppedAt(m, orphans, op);
      DroppedAt(m, newest, op);
      ConsumedAlike(c, f, order, orphans, op);
      ConsumedAlike(c, f, Downwards(|c|, f), newest, op);
    }
  }

  lemma ConsumedAlike(c: seq<Block>, f: nat, order: seq<nat>, orphans: seq<Block>, op: OutPoint)
    requires f <= |c| && Rearranged(c, f, order, orphans)
    ensures (forall k | 0 <= k < |orphans| :: op !in ConsumedBy(orphans[k].txs)) <==> NoneConsumes(c, f, op)
  {
    hide ConsumedBy;
    forall h | f <= h < |c| ensures exists k :: 0 <= k < |orphans| && orphans[k] == c[h] {
      assert h in order;
      var k :| 0 <= k < |order| && order[k] == h;
      assert orphans[k] == c[h];
    }
  }

  lemma {:induction false} SpendersDropped(R: Rules, c: seq<Block>, f: nat)
    requires Lawful(R) && Accepted(R, c) && f <= |c|
    ensures DropSpenders(Backfill(R, c), NewestFirst(c, f)) == Backfill(R, c[..f])
    decreases |c|
  {
    hide Lawful, Accepted, Backfill, ConsumedBy;
    if |c| == f {
      assert c[..f] == c;
    } else {
      var init := c[..|c| - 1];
      AcceptedPrefix(R, c, |c| - 1);
      BackfillPop(R, c);
      SpendersDropped(R, init, f);
      assert NewestFirst(c, f)[1..] == NewestFirst(init, f);
      assert init[..f] == c[..f];
    }
  }

  /** The bodies of the old chain are still found while the new ones are already written. */
  lemma BodiesKept(R: Rules, db: Db, c: seq<Block>, d: seq<Block>, f: nat, a: Reorg, h: nat)
    requires LawfulBlocks(R) && Committed(R, c) && Committed(R, d) && WellFormed(R, c, d, f, a) && ChainOk(R, db, c) && h < |c|
    ensures var blocks := PutAll<Block>(db.blocks[Id(R, a.trigger) := a.trigger], BlockRows(R, a.blocks));
            IdsAt(R, db.heightIndex, blocks, h) == TxIds(R, c[h].txs)
  {
    hide LawfulBlocks, Committed, WorkAt, BlockArgs, Rearranged, PutAll, SpentRow, TxIds;
    assert Resolves(R, db, c, h);
    var id, m, rows := Id(R, c[h]), db.blocks[Id(R, a.trigger) := a.trigger], BlockRows(R, a.blocks);
    if id == Id(R, a.trigger) { SharedPrefix(R, c, d, h, |d| - 1); }
    forall j | 0 <= j < |rows| && rows[j].0 == id ensures rows[j].1 == c[h] {
      assert RowsFit(R, d, f, a, j);
      SharedPrefix(R, c, d, h, f + j);
    }
    PutHit<Block>(m, rows, id, c[h]);
  }

  /** The heights whose rows go are those from the fork point on. */
  lemma HeightsCovered(R: Rules, c: seq<Block>, d: seq<Block>, f: nat, a: Reorg, h: nat)
    requires WellFormed(R, c, d, f, a)
    ensures f <= h < |c| ==> h in StaleRange(a.stale) + HeightsOf(a.heights)
    ensures h in StaleRange(a.stale) + HeightsOf(a.heights) ==> f <= h
  {
    hide WorkAt, BlockArgs, Rearranged, StaleRange;
    StaleMember(a.stale, h);
    if f <= h < |d| {
      assert RowsFit(R, d, f, a, h - f);
      assert a.heights[h - f].0 == h;
    }
    if h in HeightsOf(a.heights) {
      var j :| 0 <= j < |a.heights| && a.heights[j].0 == h;
      assert RowsFit(R, d, f, a, j);
    }
  }

  lemma OldIdsOut(R: Rules, db: Db, c: seq<Block>, d: seq<Block>, f: nat, a: Reorg)
    requires Lawful(R) && LawfulBlocks(R) && Committed(R, c) && Committed(R, d) && WellFormed(R, c, d, f, a) && ChainOk(R, db, c)
    ensures var blocks := PutAll<Block>(db.blocks[Id(R, a.trigger) := a.trigger], BlockRows(R, a.blocks));
            var hs := StaleRange(a.stale) + HeightsOf(a.heights);
            IndexAll(R, map[], c) - IdsAtAll(R, db.heightIndex, blocks, hs) == IndexAll(R, map[], c[..f])
  {
    hide Lawful, LawfulBlocks, Committed, WellFormed, PutAll, TxIds, IndexAll, Accepted, Resolves, StaleRange, HeightsOf, BlockRows;
    var blocks := PutAll<Block>(db.blocks[Id(R, a.trigger) := a.trigger], BlockRows(R, a.blocks));
    var hs := StaleRange(a.stale) + HeightsOf(a.heights);
    var ids := IdsAtAll(R, db.heightIndex, blocks, hs);
    CommittedAccepted(R, c);
    var order := ReorgShape(R, c, d, f, a);
    forall h | f <= h < |c| ensures TxIds(R, c[h].txs) <= ids {
      HeightsCovered(R, c, d, f, a, h);
      BodiesKept(R, db, c, d, f, a, h);
    }
    forall id | id in ids ensures exists h :: f <= h < |c| && id in TxIds(R, c[h].txs) {
      var h :| h in hs && id in IdsAt(R, db.heightIndex, blocks, h);
      HeightsCovered(R, c, d, f, a, h);
      BodiesKept(R, db, c, d, f, a, h);
    }
    IndexCut(R, c, f, ids);
  }

  lemma ReorgIndexes(R: Rules, db: Db, a: Reorg)
    ensures var t := ReorgDb(R, db, a);
            var blocks := PutAll<Block>(db.blocks[Id(R, a.trigger) := a.trigger], BlockRows(R, a.blocks));
            var left := db.txIndex - IdsAtAll(R, db.heightIndex, blocks, StaleRange(a.stale) + HeightsOf(a.heights));
            && t.txIndex == IndexAll(R, left + IndexRows(R, a.trigger.txs, a.trigger.header.height), a.blocks)
            && t.spentBy == AddBlocks(R, AddSpenders(R, DropSpenders(db.spentBy, a.orphans), a.trigger.txs, a.trigger.header.height), a.blocks)
  {
    hide PutAll, IndexAll, IdsAtAll, StaleRange, ForwardAll, UndoOrphans, AddBlocks, AddSpenders, DropSpenders, IndexRows, BlockRows, HeaderRows;
  }

  lemma NewBlocks(R: Rules, c: seq<Block>, d: seq<Block>, f: nat, a: Reorg)
    requires WellFormed(R, c, d, f, a)
    ensures a.blocks != [] && a.trigger == a.blocks[|a.blocks| - 1] && d == c[..f] + a.blocks
  {
    hide WorkAt, BlockArgs, Rearranged;
    forall i | 0 <= i < |a.blocks| ensures a.blocks[i] == d[f + i] { assert RowsFit(R, d, f, a, i); }
    assert d == d[..f] + a.blocks;
  }

  lemma ReorgIndexesOk(R: Rules, db: Db, c: seq<Block>, d: seq<Block>, f: nat, a: Reorg)
    requires Lawful(R) && LawfulBlocks(R) && Committed(R, c) && Committed(R, d) && WellFormed(R, c, d, f, a)
    requires ChainOk(R, db, c) && IndexesOk(R, db, c)
    ensures IndexesOk(R, ReorgDb(R, db, a), d)
  {
    hide Lawful, LawfulBlocks, Committed, WellFormed, ReorgDb, PutAll, IndexAll, IdsAtAll, AddBlocks, AddSpenders, DropSpenders, IndexRows, ChainOk, StaleRange, HeightsOf, BlockRows, NewestFirst, Accepted, Rearranged;
    CommittedAccepted(R, c);
    var order := ReorgShape(R, c, d, f, a);
    NewBlocks(R, c, d, f, a);
    ReorgIndexes(R, db, a);
    OldIdsOut(R, db, c, d, f, a);
    SpendersDropped(R, c, f);
    DropsAlike(c, f, order, a.orphans, Backfill(R, c));
    LastTwice(R, IndexAll(R, map[], c[..f]), Backfill(R, c[..f]), a.blocks);
    IndexConcat(R, map[], c[..f], a.blocks);
    AddConcat(R, map[], c[..f], a.blocks);
  }

  /**
   A reorg commit, its orphans listed in any order, turns a database that is right for the old chain into one
   that is right for the new if and only if whatever the undo leaves behind is logged again.
   */
  lemma ReorgKeepsIff(R: Rules, db: Db, c: seq<Block>, d: seq<Block>, f: nat, a: Reorg)
    requires Lawful(R) && LawfulBlocks(R) && DbInv(R, db, c) && Committed(R, d) && WellFormed(R, c, d, f, a)
    ensures DbInv(R, ReorgDb(R, db, a), d) <==> Healed(R, a)
  {
    hide Lawful, LawfulBlocks, Committed, WellFormed, ReorgDb, ChainOk, RowsOk, UtxosOk, IndexesOk, Healed, Rearranged;
    ReorgChainOk(R, db, c, d, f, a);
    ReorgRowsOk(R, db, c, d, f, a);
    ReorgUtxosIff(R, db, c, d, f, a);
    ReorgIndexesOk(R, db, c, d, f, a);
    ReorgSnapshot(R, db, a);
    var order := ReorgShape(R, c, d, f, a);
    assert ReorgDb(R, db, a).walkTip == Some(Id(R, d[|d| - 1]));
  }

  /** Writing the rows of the new blocks leaves those of any other block alone. */
  lemma RowsMissed(R: Rules, db: Db, c: seq<Block>, d: seq<Block>, f: nat, a: Reorg, other: Hash256)
    requires WellFormed(R, c, d, f, a) && forall i | f <= i < |d| :: Id(R, d[i]) != other
    ensures var next := ReorgDb(R, db, a);
            && (other in next.blocks <==> other in db.blocks) && (other in db.blocks ==> next.blocks[other] == db.blocks[other])
            && (other in next.headers <==> other in db.headers) && (other in db.headers ==> next.headers[other] == db.headers[other])
            && (other in next.work <==> other in db.work) && (other in db.work ==> next.work[other] == db.work[other])
            && (other in next.spent <==> other in db.spent) && (other in db.spent ==> next.spent[other] == db.spent[other])
  {
    hide AddSpenders, AddBlocks, IndexRows, IndexAll, Forward, ForwardAll, UndoOrphans, DropSpenders, PutAll, IdsAtAll, Rearranged, WorkAt, BlockArgs;
    hide StaleRange, HeightsOf, IdsOf, RowsFit;
    var id := Id(R, a.trigger);
    AllKeyed(R, c, d, f, a);
    PutMiss<Block>(db.blocks[id := a.trigger], BlockRows(R, a.blocks), other);
    PutMiss<Header>(db.headers[id := a.trigger.header], HeaderRows(R, a.blocks), other);
    PutMiss<U256>(db.work[id := a.work], a.works, other);
    PutMiss<SpentList>(db.spent, a.spent, other);
  }

  lemma HeightsName(R: Rules, c: seq<Block>, d: seq<Block>, f: nat, a: Reorg, id: Hash256)
    requires WellFormed(R, c, d, f, a)
    ensures id in IdsOf(a.heights) <==> exists i :: f <= i < |d| && Id(R, d[i]) == id
  {
    hide Rearranged, WorkAt, BlockArgs;
    forall i | f <= i < |d| ensures Id(R, d[i]) in IdsOf(a.heights) {
      assert RowsFit(R, d, f, a, i - f);
      assert a.heights[i - f].1 == Id(R, d[i]);
    }
    if id in IdsOf(a.heights) {
      var i :| 0 <= i < |a.heights| && a.heights[i].1 == id;
      assert RowsFit(R, d, f, a, i);
      assert Id(R, d[f + i]) == id;
    }
  }

  lemma ReorgForks(R: Rules, db: Db, a: Reorg)
    ensures ReorgDb(R, db, a).forks == db.forks - IdsOf(a.heights) - {Id(R, a.trigger)} && ReorgDb(R, db, a).retained == db.retained
  {
    hide AddSpenders, AddBlocks, IndexRows, IndexAll, Forward, ForwardAll, UndoOrphans, DropSpenders, PutAll, IdsAtAll, StaleRange, HeightsOf, IdsOf;
  }

  /**
   A reorg touches no block that is not new: the orphans keep body, header, work and spent row and can come back. The
   new blocks leave the fork table.
   */
  lemma ReorgTouches(R: Rules, db: Db, c: seq<Block>, d: seq<Block>, f: nat, a: Reorg, id: Hash256)
    requires WellFormed(R, c, d, f, a)
    ensures if exists i :: f <= i < |d| && Id(R, d[i]) == id then id !in ReorgDb(R, db, a).forks
            else RowsKept(db, ReorgDb(R, db, a), id)
  {
    hide ReorgDb, Rearranged, WorkAt, BlockArgs, IdsOf, RowsFit;
    HeightsName(R, c, d, f, a, id);
    ReorgForks(R, db, a);
    if forall i | f <= i < |d| :: Id(R, d[i]) != id { RowsMissed(R, db, c, d, f, a, id); }
  }
}
