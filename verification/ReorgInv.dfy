/**
 A reorg: from the invariant for the old chain to the invariant for the new one.
 */
module ReorgInv {
  import opened SmtSpec
  import opened WorkSpec
  import opened Ledger
  import opened UtxoState
  import opened Chain
  import opened DiskUndo
  import opened Headers
  import opened StorageSpec
  import opened StorageInv
  import opened OrphanOrder

  /** The rows passed for new block `i` of the chain `d` are its own. */
  ghost predicate RowsFit(R: Rules, d: seq<Block>, f: nat, a: Reorg, i: nat)
    requires f + |a.blocks| == |d| && i < |a.blocks|
  {
    var id, p := Id(R, d[f + i]), d[..f + i + 1];
    && |a.heights| == |a.works| == |a.spent| == |a.logs| == |a.blocks|
    && a.blocks[i] == d[f + i] && a.heights[i] == (f + i, id) && a.works[i] == (id, WorkAt(p))
    && a.spent[i].0 == id && BlockArgs(R, p, a.spent[i].1, a.logs[i].1)
  }

  /**
   The arguments describe the move from chain `c` to chain `d`, which share their first `f` blocks: the
   orphans in any order, and for every new block its rows.
   */
  ghost predicate WellFormed(R: Rules, c: seq<Block>, d: seq<Block>, f: nat, a: Reorg) {
    && 0 < f <= |c| && f < |d| && d[..f] == c[..f] && |a.blocks| == |d| - f
    && |a.heights| == |a.works| == |a.spent| == |a.logs| == |a.blocks|
    && a.trigger == d[|d| - 1] && a.work == WorkAt(d) && a.tip == Id(R, a.trigger)
    && (exists order :: Rearranged(c, f, order, a.orphans))
    && a.stale == (if |c| > |d| then Some((|d|, |c| - 1)) else None)
    && (forall i | 0 <= i < |a.blocks| :: RowsFit(R, d, f, a, i))
  }

  ghost predicate InLog(log: seq<Mutation>, op: OutPoint) {
    exists j :: 0 <= j < |log| && log[j].op == op
  }

  ghost predicate InLogs(logs: seq<(Hash256, seq<Mutation>)>, op: OutPoint) {
    exists i :: 0 <= i < |logs| && InLog(logs[i].1, op)
  }

  /**
   Every outpoint that the undo of the orphans leaves behind is written or removed again by the new blocks.
   This holds whenever spenders are listed first, since then none is left behind.
   */
  ghost predicate Healed(R: Rules, a: Reorg) {
    forall op | LeftBehind(R, a.orphans, op) :: InLogs(a.logs, op)
  }

  /** The orphans newest first, none of which spends its own output. */
  lemma CleanOrderHeals(R: Rules, c: seq<Block>, f: nat, a: Reorg)
    requires Lawful(R) && Accepted(R, c) && f <= |c| && a.orphans == NewestFirst(c, f)
    requires forall h | f <= h < |c| :: !SelfSpends(R, c[h].txs)
    ensures Healed(R, a) && exists order :: Rearranged(c, f, order, a.orphans)
  {
    hide Lawful, Accepted, NewestFirst, SelfSpends, SpendersFirst, LeftBehind, Rearranged;
    NewestFirstIff(R, c, f);
    SpendersFirstIff(R, a.orphans);
    NewestFirstListed(c, f);
  }

  // ---- Writing rows ----

  lemma {:induction false} PutMiss<V>(m: map<nat, V>, rows: seq<(nat, V)>, k: nat)
    requires forall i | 0 <= i < |rows| :: rows[i].0 != k
    ensures k in PutAll<V>(m, rows) <==> k in m
    ensures k in m ==> PutAll<V>(m, rows)[k] == m[k]
  {
    if rows != [] { PutMiss<V>(m, rows[..|rows| - 1], k); }
  }

  lemma {:induction false} PutHit<V>(m: map<nat, V>, rows: seq<(nat, V)>, k: nat, v: V)
    requires (exists i :: 0 <= i < |rows| && rows[i].0 == k) || (k in m && m[k] == v)
    requires forall i | 0 <= i < |rows| && rows[i].0 == k :: rows[i].1 == v
    ensures k in PutAll<V>(m, rows) && PutAll<V>(m, rows)[k] == v
  {
    if rows != [] && rows[|rows| - 1].0 != k {
      var rest := rows[..|rows| - 1];
      if i :| 0 <= i < |rows| && rows[i].0 == k { assert rest[i].0 == k; }
      PutHit<V>(m, rest, k, v);
    }
  }

  lemma {:induction false} PutSource<V>(m: map<nat, V>, rows: seq<(nat, V)>, k: nat)
    requires k in PutAll<V>(m, rows)
    ensures (exists i :: 0 <= i < |rows| && rows[i] == (k, PutAll<V>(m, rows)[k])) || (k in m && PutAll<V>(m, rows)[k] == m[k])
  {
    if rows != [] {
      if rows[|rows| - 1].0 == k {
        assert rows[|rows| - 1] == (k, PutAll<V>(m, rows)[k]);
      } else {
        var rest := rows[..|rows| - 1];
        PutSource<V>(m, rest, k);
        if i :| 0 <= i < |rest| && rest[i] == (k, PutAll<V>(m, rest)[k]) { assert rows[i] == rest[i]; }
      }
    }
  }

  // ---- Tables keyed by block id ----

  /** One row for every block from height `f` on. */
  ghost predicate Keyed<V>(R: Rules, d: seq<Block>, f: nat, rows: seq<(Hash256, V)>) {
    f + |rows| == |d| && forall i | 0 <= i < |rows| :: rows[i].0 == Id(R, d[f + i])
  }

  lemma KeyedHit<V>(R: Rules, d: seq<Block>, f: nat, m: map<Hash256, V>, rows: seq<(Hash256, V)>, i: nat)
    requires LawfulBlocks(R) && Committed(R, d) && Keyed(R, d, f, rows) && i < |rows|
    ensures Id(R, d[f + i]) in PutAll<V>(m, rows) && PutAll<V>(m, rows)[Id(R, d[f + i])] == rows[i].1
  {
    hide LawfulBlocks, Committed, PutAll;
    var id := Id(R, d[f + i]);
    assert rows[i].0 == id;
    forall j | 0 <= j < |rows| && rows[j].0 == id ensures rows[j].1 == rows[i].1 {
      IdsUnique(R, d, f + j, f + i);
    }
    PutHit<V>(m, rows, id, rows[i].1);
  }

  lemma KeyedMiss<V>(R: Rules, d: seq<Block>, f: nat, m: map<Hash256, V>, rows: seq<(Hash256, V)>, h: nat)
    requires LawfulBlocks(R) && Committed(R, d) && Keyed(R, d, f, rows) && h < f
    ensures Id(R, d[h]) in PutAll<V>(m, rows) <==> Id(R, d[h]) in m
    ensures Id(R, d[h]) in m ==> PutAll<V>(m, rows)[Id(R, d[h])] == m[Id(R, d[h])]
  {
    hide LawfulBlocks, Committed, PutAll;
    forall j | 0 <= j < |rows| ensures rows[j].0 != Id(R, d[h]) {
      if rows[j].0 == Id(R, d[h]) { IdsUnique(R, d, f + j, h); }
    }
    PutMiss<V>(m, rows, Id(R, d[h]));
  }

  lemma AllKeyed(R: Rules, c: seq<Block>, d: seq<Block>, f: nat, a: Reorg)
    requires WellFormed(R, c, d, f, a)
    ensures Keyed(R, d, f, BlockRows(R, a.blocks)) && Keyed(R, d, f, HeaderRows(R, a.blocks))
    ensures Keyed(R, d, f, a.works) && Keyed(R, d, f, a.spent)
  {
    hide WorkAt, BlockArgs, Rearranged;
    forall i | 0 <= i < |a.blocks|
      ensures a.blocks[i] == d[f + i] && a.works[i].0 == Id(R, d[f + i]) && a.spent[i].0 == Id(R, d[f + i])
    {
      assert RowsFit(R, d, f, a, i);
    }
  }

  // ---- The height index ----

  lemma StaleMember(stale: Option<(nat, nat)>, h: nat)
    ensures h in StaleRange(stale) <==> IsStale(stale, h)
  {
  }

  lemma IndexHit(R: Rules, c: seq<Block>, d: seq<Block>, f: nat, a: Reorg, m: map<nat, Hash256>, i: nat)
    requires WellFormed(R, c, d, f, a) && i < |a.blocks|
    ensures var t := PutAll<Hash256>(m, a.heights) - StaleRange(a.stale); f + i in t && t[f + i] == Id(R, d[f + i])
  {
    hide WorkAt, BlockArgs, Rearranged, PutAll, StaleRange;
    StaleMember(a.stale, f + i);
    assert RowsFit(R, d, f, a, i);
    forall j | 0 <= j < |a.heights| && a.heights[j].0 == f + i ensures a.heights[j].1 == Id(R, d[f + i]) {
      assert RowsFit(R, d, f, a, j);
    }
    assert a.heights[i].0 == f + i;
    PutHit<Hash256>(m, a.heights, f + i, Id(R, d[f + i]));
  }

  lemma IndexMiss(R: Rules, c: seq<Block>, d: seq<Block>, f: nat, a: Reorg, m: map<nat, Hash256>, h: nat)
    requires WellFormed(R, c, d, f, a) && h < f && h in m
    ensures var t := PutAll<Hash256>(m, a.heights) - StaleRange(a.stale); h in t && t[h] == m[h]
  {
    hide WorkAt, BlockArgs, Rearranged, PutAll, StaleRange;
    StaleMember(a.stale, h);
    forall j | 0 <= j < |a.heights| ensures a.heights[j].0 != h {
      assert RowsFit(R, d, f, a, j);
    }
    PutMiss<Hash256>(m, a.heights, h);
  }

  /** No entry is left above the new tip. */
  lemma IndexBounded(R: Rules, c: seq<Block>, d: seq<Block>, f: nat, a: Reorg, m: map<nat, Hash256>, h: nat)
    requires WellFormed(R, c, d, f, a) && (h in m ==> h < |c|)
    requires h in PutAll<Hash256>(m, a.heights) - StaleRange(a.stale)
    ensures h < |d|
  {
    hide WorkAt, BlockArgs, Rearranged, PutAll, StaleRange;
    StaleMember(a.stale, h);
    PutSource<Hash256>(m, a.heights, h);
    if j :| 0 <= j < |a.heights| && a.heights[j] == (h, PutAll<Hash256>(m, a.heights)[h]) {
      assert RowsFit(R, d, f, a, j);
    }
  }

  // ---- Every height resolves ----

  lemma ReorgFields(R: Rules, db: Db, a: Reorg)
    ensures var t, id := ReorgDb(R, db, a), Id(R, a.trigger);
            && t.blocks == PutAll<Block>(db.blocks[id := a.trigger], BlockRows(R, a.blocks))
            && t.headers == PutAll<Header>(db.headers[id := a.trigger.header], HeaderRows(R, a.blocks))
            && t.work == PutAll<U256>(db.work[id := a.work], a.works) && t.spent == PutAll<SpentList>(db.spent, a.spent)
            && t.heightIndex == PutAll<Hash256>(db.heightIndex, a.heights) - StaleRange(a.stale)
            && t.tip == Some(a.tip) && t.retained == db.retained
  {
    hide PutAll, IndexAll, IdsAtAll, StaleRange, ForwardAll, UndoOrphans, AddBlocks, AddSpenders, DropSpenders, IndexRows, BlockRows, HeaderRows;
  }

  lemma NewResolves(R: Rules, db: Db, c: seq<Block>, d: seq<Block>, f: nat, a: Reorg, h: nat)
    requires LawfulBlocks(R) && Committed(R, d) && WellFormed(R, c, d, f, a) && f <= h < |d|
    ensures Resolves(R, ReorgDb(R, db, a), d, h)
  {
    hide LawfulBlocks, Committed, WorkAt, BlockArgs, Rearranged, PutAll, SpentRow, StaleRange, ReorgDb;
    var i, id := h - f, Id(R, a.trigger);
    ReorgFields(R, db, a);
    AllKeyed(R, c, d, f, a);
    assert RowsFit(R, d, f, a, i);
    KeyedHit(R, d, f, db.blocks[id := a.trigger], BlockRows(R, a.blocks), i);
    KeyedHit(R, d, f, db.headers[id := a.trigger.header], HeaderRows(R, a.blocks), i);
    KeyedHit<U256>(R, d, f, db.work[id := a.work], a.works, i);
    KeyedHit<SpentList>(R, d, f, db.spent, a.spent, i);
    IndexHit(R, c, d, f, a, db.heightIndex, i);
    BlockArgsRow(R, d[..h + 1], a.spent[i].1, a.logs[i].1);
  }

  lemma OldResolves(R: Rules, db: Db, c: seq<Block>, d: seq<Block>, f: nat, a: Reorg, h: nat)
    requires LawfulBlocks(R) && Committed(R, d) && WellFormed(R, c, d, f, a) && h < f && Resolves(R, db, c, h)
    ensures Resolves(R, ReorgDb(R, db, a), d, h)
  {
    hide LawfulBlocks, Committed, WorkAt, BlockArgs, Rearranged, PutAll, SpentRow, StaleRange, ReorgDb, RowsFit;
    var id := Id(R, a.trigger);
    ReorgFields(R, db, a);
    AllKeyed(R, c, d, f, a);
    assert d[h] == d[..f][h] && c[h] == c[..f][h];
    assert d[..h + 1] == d[..f][..h + 1] && c[..h + 1] == c[..f][..h + 1];
    if Id(R, d[h]) == id { IdsUnique(R, d, h, |d| - 1); }
    KeyedMiss(R, d, f, db.blocks[id := a.trigger], BlockRows(R, a.blocks), h);
    KeyedMiss(R, d, f, db.headers[id := a.trigger.header], HeaderRows(R, a.blocks), h);
    KeyedMiss<U256>(R, d, f, db.work[id := a.work], a.works, h);
    KeyedMiss<SpentList>(R, d, f, db.spent, a.spent, h);
    IndexMiss(R, c, d, f, a, db.heightIndex, h);
  }

  lemma ReorgChainOk(R: Rules, db: Db, c: seq<Block>, d: seq<Block>, f: nat, a: Reorg)
    requires LawfulBlocks(R) && Committed(R, d) && WellFormed(R, c, d, f, a) && ChainOk(R, db, c)
    ensures ChainOk(R, ReorgDb(R, db, a), d)
  {
    hide LawfulBlocks, Committed, Resolves, PutAll, StaleRange, ReorgDb;
    var db' := ReorgDb(R, db, a);
    ReorgFields(R, db, a);
    forall h | h in db'.heightIndex ensures h < |d| {
      IndexBounded(R, c, d, f, a, db.heightIndex, h);
    }
    forall h | 0 <= h < |d| ensures Resolves(R, db', d, h) {
      if h < f {
        OldResolves(R, db, c, d, f, a, h);
      } else {
        NewResolves(R, db, c, d, f, a, h);
      }
    }
  }

  lemma ReorgRowsOk(R: Rules, db: Db, c: seq<Block>, d: seq<Block>, f: nat, a: Reorg)
    requires Committed(R, d) && WellFormed(R, c, d, f, a) && RowsOk(R, db)
    ensures RowsOk(R, ReorgDb(R, db, a))
  {
    hide Committed, WorkAt, BlockArgs, Rearranged, PutAll, ReorgDb, StaleRange, Genuine, TrueHeight, Sealed;
    ReorgFields(R, db, a);
    var db' := ReorgDb(R, db, a);
    var id := Id(R, a.trigger);
    var headers, work := db.headers[id := a.trigger.header], db.work[id := a.work];
    var blocks := db.blocks[id := a.trigger];
    BlockFacts(R, d, |d| - 1);
    forall x | x in db'.blocks ensures Sealed(R, db'.blocks[x]) && Id(R, db'.blocks[x]) == x {
      PutSource<Block>(blocks, BlockRows(R, a.blocks), x);
      if i :| 0 <= i < |a.blocks| && BlockRows(R, a.blocks)[i] == (x, db'.blocks[x]) {
        assert RowsFit(R, d, f, a, i);
        BlockFacts(R, d, f + i);
      }
    }
    forall x | x in db'.headers ensures R.blockId(db'.headers[x]) == x {
      PutSource<Header>(headers, HeaderRows(R, a.blocks), x);
    }
    ChainGenuine(R, d, |d| - 1);
    assert d[..|d|] == d;
    forall x | x in db'.work ensures Genuine(R, x, db'.work[x]) {
      PutSource<U256>(work, a.works, x);
      if i :| 0 <= i < |a.works| && a.works[i] == (x, db'.work[x]) {
        assert RowsFit(R, d, f, a, i);
        ChainGenuine(R, d, f + i);
      }
    }
  }
}
