/**
 What the database owes to its canonical chain, and why every write transaction keeps it.
 */
module StorageInv {
  import opened SmtSpec
  import opened WorkSpec
  import opened Ledger
  import opened UtxoState
  import opened BlockSpec
  import opened Chain
  import opened DiskUndo
  import opened Headers
  import opened StorageSpec

  // ---- Chains that share a block ----

  /** Two chains that have a block id in common agree up to it. */
  lemma {:induction false} SharedPrefix(R: Rules, c: seq<Block>, d: seq<Block>, i: nat, j: nat)
    requires LawfulBlocks(R) && Committed(R, c) && Committed(R, d)
    requires i < |c| && j < |d| && Id(R, c[i]) == Id(R, d[j])
    ensures i == j && c[..i + 1] == d[..j + 1]
    decreases i
  {
    hide Committed, Sealed, LawfulBlocks;
    BlockFacts(R, c, i);
    BlockFacts(R, d, j);
    SealedById(R, c[i], d[j]);
    if i > 0 {
      SharedPrefix(R, c, d, i - 1, j - 1);
      assert c[..i + 1] == c[..i] + [c[i]] && d[..j + 1] == d[..j] + [d[j]];
    }
  }

  // ---- Work ----

  function WorkAt(c: seq<Block>): U256 {
    if c == [] then 0 else AddWork(WorkAt(c[..|c| - 1]), WorkFromTarget(c[|c| - 1].header.target))
  }

  /** The work of all blocks together. */
  function TotalWork(c: seq<Block>): nat {
    if c == [] then 0 else TotalWork(c[..|c| - 1]) + WorkFromTarget(c[|c| - 1].header.target)
  }

  /** The recorded work is that total, as far as 256 bits hold it. */
  lemma {:induction false} WorkIsTotal(c: seq<Block>)
    ensures WorkAt(c) == if TotalWork(c) <= U256_MAX then TotalWork(c) else U256_MAX
  {
    hide WorkFromTarget;
    if c != [] { WorkIsTotal(c[..|c| - 1]); }
  }

  /** A line of headers from one without parent. */
  ghost predicate HeaderLine(R: Rules, hs: seq<Header>) {
    && hs != [] && hs[0].prevId == ZERO
    && forall i | 0 < i < |hs| :: hs[i].prevId == R.blockId(hs[i - 1])
  }

  function LineWork(hs: seq<Header>): U256 {
    if hs == [] then 0 else AddWork(LineWork(hs[..|hs| - 1]), WorkFromTarget(hs[|hs| - 1].target))
  }

  /** The work is what the ancestry of this block adds up to. */
  ghost predicate Genuine(R: Rules, id: Hash256, work: U256) {
    exists hs :: LineTo(R, hs, id, work)
  }

  ghost predicate LineTo(R: Rules, hs: seq<Header>, id: Hash256, work: U256) {
    HeaderLine(R, hs) && R.blockId(hs[|hs| - 1]) == id && LineWork(hs) == work
  }

  lemma {:induction false} LinesUnique(R: Rules, a: seq<Header>, b: seq<Header>)
    requires LawfulBlocks(R) && HeaderLine(R, a) && HeaderLine(R, b) && R.blockId(a[|a| - 1]) == R.blockId(b[|b| - 1])
    ensures a == b
  {
    var m, n := |a| - 1, |b| - 1;
    assert a[m] == b[n];
    assert m == 0 <==> a[m].prevId == ZERO by { if m > 0 { assert R.blockId(a[m - 1]) != ZERO; } }
    assert n == 0 <==> b[n].prevId == ZERO by { if n > 0 { assert R.blockId(b[n - 1]) != ZERO; } }
    if m > 0 {
      LinePrefix(R, a);
      LinePrefix(R, b);
      LinesUnique(R, a[..m], b[..n]);
    }
    assert a == a[..m] + [a[m]] && b == b[..n] + [b[n]];
  }

  lemma LinePrefix(R: Rules, hs: seq<Header>)
    requires HeaderLine(R, hs) && |hs| > 1
    ensures HeaderLine(R, hs[..|hs| - 1])
  {
  }

  lemma GenuineUnique(R: Rules, id: Hash256, a: U256, b: U256)
    requires LawfulBlocks(R) && Genuine(R, id, a) && Genuine(R, id, b)
    ensures a == b
  {
    hide LawfulBlocks;
    var x :| LineTo(R, x, id, a);
    var y :| LineTo(R, y, id, b);
    LinesUnique(R, x, y);
  }

  /** Work computed from a genuine parent row is genuine, however long ago that row was read. */
  lemma GenuineChild(R: Rules, parent: Hash256, work: U256, header: Header)
    requires Genuine(R, parent, work) && header.prevId == parent
    ensures Genuine(R, R.blockId(header), AddWork(work, WorkFromTarget(header.target)))
  {
    hide AddWork, WorkFromTarget;
    var hs :| LineTo(R, hs, parent, work);
    var hs' := hs + [header];
    assert hs'[..|hs|] == hs;
    assert LineTo(R, hs', R.blockId(header), AddWork(work, WorkFromTarget(header.target)));
  }

  lemma GenuineRoot(R: Rules, header: Header)
    requires header.prevId == ZERO
    ensures Genuine(R, R.blockId(header), AddWork(0, WorkFromTarget(header.target)))
  {
    var hs := [header];
    assert hs[..0] == [];
    assert LineTo(R, hs, R.blockId(header), AddWork(0, WorkFromTarget(header.target)));
  }

  lemma {:induction false} ChainGenuine(R: Rules, c: seq<Block>, i: nat)
    requires Committed(R, c) && i < |c|
    ensures Genuine(R, Id(R, c[i]), WorkAt(c[..i + 1]))
    decreases i
  {
    hide Committed, Sealed, Genuine, AddWork, WorkFromTarget;
    BlockFacts(R, c, i);
    assert c[..i + 1][..i] == c[..i];
    if i == 0 {
      GenuineRoot(R, c[0].header);
      assert c[..0] == [];
    } else {
      ChainGenuine(R, c, i - 1);
      GenuineChild(R, Id(R, c[i - 1]), WorkAt(c[..i]), c[i].header);
    }
  }

  // ---- The invariant ----

  /** The height belongs to the header behind the id. */
  ghost predicate TrueHeight(R: Rules, id: Hash256, height: nat) {
    exists h: Header :: R.blockId(h) == id && h.height == height
  }

  /** Block `h` of the chain is found in the tables with everything that belongs to it. */
  ghost predicate Resolves(R: Rules, db: Db, c: seq<Block>, h: nat)
    requires h < |c|
  {
    var id := Id(R, c[h]);
    && h in db.heightIndex && db.heightIndex[h] == id
    && id in db.blocks && db.blocks[id] == c[h]
    && id in db.headers && db.headers[id] == c[h].header
    && id in db.work && db.work[id] == WorkAt(c[..h + 1])
    && (h > 0 ==> id in db.spent && db.spent[id] == SpentRow(R, c[..h + 1]))
  }

  /** The index ends at the tip and every height up to it resolves. */
  ghost predicate ChainOk(R: Rules, db: Db, c: seq<Block>) {
    && c != [] && db.tip == Some(Id(R, c[|c| - 1]))
    && (forall h | h in db.heightIndex :: h < |c|)
    && (forall h | 0 <= h < |c| :: Resolves(R, db, c, h))
  }

  /** Rows of any block, canonical or not, are about the block that their key names. */
  ghost predicate RowsOk(R: Rules, db: Db) {
    && (forall id | id in db.blocks :: Sealed(R, db.blocks[id]) && Id(R, db.blocks[id]) == id)
    && (forall id | id in db.headers :: R.blockId(db.headers[id]) == id)
    && (forall id | id in db.retained :: TrueHeight(R, id, db.retained[id]))
    && (forall id | id in db.work :: Genuine(R, id, db.work[id]))
  }

  /** The UTXO table never holds anything but unspent outputs, and holds all of them once marked complete. */
  ghost predicate UtxosOk(R: Rules, db: Db, c: seq<Block>) {
    && Within(db.utxos, UtxosAt(R, c))
    && (db.complete ==> db.utxos == UtxosAt(R, c) && db.snapshotTip == db.tip)
  }

  /** Both indexes are what a scan of the chain from genesis would write. */
  ghost predicate IndexesOk(R: Rules, db: Db, c: seq<Block>) {
    db.txIndex == IndexAll(R, map[], c) && db.spentBy == Backfill(R, c)
  }

  ghost predicate WalkOk(R: Rules, db: Db, c: seq<Block>) {
    db.walkTip.None? || exists k :: 0 <= k < |c| && db.walkTip == Some(Id(R, c[k]))
  }

  ghost predicate DbInv(R: Rules, db: Db, c: seq<Block>) {
    Committed(R, c) && ChainOk(R, db, c) && RowsOk(R, db) && UtxosOk(R, db, c) && IndexesOk(R, db, c) && WalkOk(R, db, c)
  }

  /** Spent list and mutation log are those of the chain's last block. */
  ghost predicate BlockArgs(R: Rules, c: seq<Block>, spent: SpentList, log: seq<Mutation>) {
    && c != []
    && var u, b := UtxosAt(R, c[..|c| - 1]), c[|c| - 1];
    && Flows(R, u, b.txs, b.header.height, |b.txs|)
    && spent == SpentRow(R, c) && log == LogAfter(R, u, b.txs, b.header.height, |b.txs|)
  }

  // ---- One more block ----

  lemma ResolvesStill(R: Rules, db: Db, c: seq<Block>, b: Block, work: U256, spent: SpentList, log: seq<Mutation>, h: nat)
    requires h < |c| && Resolves(R, db, c, h) && Id(R, c[h]) != Id(R, b) && b.header.height == |c|
    ensures Resolves(R, BlockDb(R, db, b, work, spent, log), c + [b], h)
  {
    hide SpentRow, AddSpenders, IndexRows, Forward;
    assert (c + [b])[..h + 1] == c[..h + 1];
  }

  lemma ChainOkBlock(R: Rules, db: Db, c: seq<Block>, b: Block, work: U256, spent: SpentList, log: seq<Mutation>)
    requires LawfulBlocks(R) && Committed(R, c + [b]) && ChainOk(R, db, c)
    requires work == WorkAt(c + [b]) && spent == SpentRow(R, c + [b])
    ensures ChainOk(R, BlockDb(R, db, b, work, spent, log), c + [b])
  {
    hide Committed, Sealed, LawfulBlocks, WorkAt, SpentRow, AddSpenders, IndexRows, Forward;
    var d, c' := BlockDb(R, db, b, work, spent, log), c + [b];
    BlockFacts(R, c', |c|);
    assert c'[..|c| + 1] == c';
    assert Resolves(R, d, c', |c|);
    forall h | 0 <= h < |c'| ensures Resolves(R, d, c', h) {
      if h < |c| {
        if Id(R, c'[h]) == Id(R, c'[|c|]) { IdsUnique(R, c', h, |c|); }
        ResolvesStill(R, db, c, b, work, spent, log, h);
      }
    }
  }

  lemma RowsOkBlock(R: Rules, db: Db, c: seq<Block>, work: U256, spent: SpentList, log: seq<Mutation>)
    requires Committed(R, c) && c != [] && RowsOk(R, db) && work == WorkAt(c)
    ensures RowsOk(R, BlockDb(R, db, c[|c| - 1], work, spent, log))
  {
    hide Committed, WorkAt, Genuine, TrueHeight, AddSpenders, IndexRows, Forward, Sealed;
    BlockFacts(R, c, |c| - 1);
    ChainGenuine(R, c, |c| - 1);
    assert c[..|c|] == c;
  }

  /** Replaying the log of the last block advances the table with the chain. */
  lemma UtxosForward(R: Rules, u: Utxos, c: seq<Block>, spent: SpentList, log: seq<Mutation>)
    requires Lawful(R) && Accepted(R, c) && BlockArgs(R, c, spent, log) && Within(u, UtxosAt(R, c[..|c| - 1]))
    ensures Within(Forward(u, log), UtxosAt(R, c))
    ensures u == UtxosAt(R, c[..|c| - 1]) ==> Forward(u, log) == UtxosAt(R, c)
  {
    hide Lawful, Accepted, UtxosAt, Flows, LogAfter, After, Clean, SpentRow, Forward, Within;
    AcceptedClean(R, c);
    var v, b := UtxosAt(R, c[..|c| - 1]), c[|c| - 1];
    RunReplays(R, v, b.txs, b.header.height, |b.txs|);
    ForwardMonotone(u, v, log);
  }

  lemma IndexesOkBlock(R: Rules, db: Db, c: seq<Block>, b: Block, work: U256, spent: SpentList, log: seq<Mutation>)
    requires IndexesOk(R, db, c)
    ensures IndexesOk(R, BlockDb(R, db, b, work, spent, log), c + [b])
  {
    hide AddSpenders, IndexRows, Forward;
    assert (c + [b])[..|c|] == c;
  }

  lemma UtxosOkBlock(R: Rules, db: Db, c: seq<Block>, b: Block, work: U256, spent: SpentList, log: seq<Mutation>)
    requires Lawful(R) && Accepted(R, c + [b]) && UtxosOk(R, db, c) && BlockArgs(R, c + [b], spent, log)
    ensures UtxosOk(R, BlockDb(R, db, b, work, spent, log), c + [b])
  {
    hide Lawful, Accepted, UtxosAt, Forward, Within, BlockArgs, AddSpenders, IndexRows;
    assert (c + [b])[..|c|] == c;
    UtxosForward(R, db.utxos, c + [b], spent, log);
  }

  lemma WalkOkBlock(R: Rules, db: Db, c: seq<Block>, b: Block, work: U256, spent: SpentList, log: seq<Mutation>)
    ensures WalkOk(R, BlockDb(R, db, b, work, spent, log), c + [b])
  {
    hide Forward, AddSpenders, IndexRows;
    assert Id(R, (c + [b])[|c|]) == Id(R, b);
  }

  /** Committing a block that extends the chain keeps the invariant for the longer chain. */
  lemma BlockKeeps(R: Rules, db: Db, c: seq<Block>, b: Block, work: U256, spent: SpentList, log: seq<Mutation>)
    requires Lawful(R) && LawfulBlocks(R) && DbInv(R, db, c) && Extends(R, c, b)
    requires work == AddWork(WorkAt(c), WorkFromTarget(b.header.target)) && BlockArgs(R, c + [b], spent, log)
    ensures DbInv(R, BlockDb(R, db, b, work, spent, log), c + [b])
  {
    hide Lawful, LawfulBlocks, Committed, Extends, ChainOk, RowsOk, UtxosOk, IndexesOk, WalkOk, BlockArgs, BlockDb, WorkAt;
    var c' := c + [b];
    WorkSnoc(c, b);
    CommittedSnoc(R, c, b);
    CommittedAccepted(R, c');
    BlockArgsRow(R, c', spent, log);
    ChainOkBlock(R, db, c, b, work, spent, log);
    RowsOkBlock(R, db, c', work, spent, log);
    UtxosOkBlock(R, db, c, b, work, spent, log);
    IndexesOkBlock(R, db, c, b, work, spent, log);
    WalkOkBlock(R, db, c, b, work, spent, log);
  }

  lemma WorkSnoc(c: seq<Block>, b: Block)
    ensures WorkAt(c + [b]) == AddWork(WorkAt(c), WorkFromTarget(b.header.target))
  {
    assert (c + [b])[..|c|] == c;
  }

  lemma BlockArgsRow(R: Rules, c: seq<Block>, spent: SpentList, log: seq<Mutation>)
    requires BlockArgs(R, c, spent, log)
    ensures spent == SpentRow(R, c)
  {
  }

  // ---- The first block ----

  lemma GenesisChainOk(R: Rules, b: Block, work: U256, log: seq<Mutation>)
    requires b.header.height == 0 && work == WorkAt([b])
    ensures ChainOk(R, GenesisDb(R, EMPTY_DB, b, work, log), [b])
  {
    hide Forward, AddSpenders, IndexRows, SpentRow, WorkAt;
    assert [b][..1] == [b];
    assert Resolves(R, GenesisDb(R, EMPTY_DB, b, work, log), [b], 0);
  }

  lemma GenesisTables(R: Rules, b: Block, work: U256, log: seq<Mutation>)
    requires Sealed(R, b) && Genuine(R, Id(R, b), work) && Forward(map[], log) == UtxosAt(R, [b])
    ensures var d := GenesisDb(R, EMPTY_DB, b, work, log);
            RowsOk(R, d) && UtxosOk(R, d, [b]) && IndexesOk(R, d, [b]) && WalkOk(R, d, [b])
  {
    hide Forward, AddSpenders, IndexRows, UtxosAt, Genuine, Sealed;
    var d := GenesisDb(R, EMPTY_DB, b, work, log);
    var none: seq<Block> := [];
    assert none + [b] == [b] && [b][..0] == none;
    assert d.txIndex == IndexAll(R, map[], none) + IndexRows(R, b.txs, b.header.height);
    assert d.spentBy == AddSpenders(R, AddBlocks(R, map[], none), b.txs, b.header.height);
    assert Id(R, [b][0]) == Id(R, b);
  }

  /** Committing genesis to the empty database establishes the invariant. */
  lemma GenesisKeeps(R: Rules, b: Block, log: seq<Mutation>, spent: SpentList)
    requires Lawful(R) && LawfulBlocks(R) && Extends(R, [], b) && BlockArgs(R, [b], spent, log)
    ensures DbInv(R, GenesisDb(R, EMPTY_DB, b, WorkFromTarget(b.header.target), log), [b])
  {
    hide Lawful, LawfulBlocks, Committed, Extends, Forward, Within, BlockArgs, GenesisDb, UtxosAt, Genuine, WorkFromTarget, WorkAt;
    hide ChainOk, RowsOk, UtxosOk, IndexesOk, WalkOk, Sealed;
    assert [b][..0] == [] && [b][..1] == [b] && [] + [b] == [b];
    FirstCommitted(R, b);
    CommittedAccepted(R, [b]);
    BlockFacts(R, [b], 0);
    ChainGenuine(R, [b], 0);
    WorkSnoc([], b);
    FirstWork(b);
    NothingWithin(R);
    UtxosForward(R, map[], [b], spent, log);
    GenesisChainOk(R, b, WorkFromTarget(b.header.target), log);
    GenesisTables(R, b, WorkFromTarget(b.header.target), log);
  }

  lemma FirstWork(b: Block)
    ensures WorkAt([b]) == WorkFromTarget(b.header.target)
  {
    assert [b][..0] == [];
  }

  lemma FirstCommitted(R: Rules, b: Block)
    requires Extends(R, [], b)
    ensures Committed(R, [b])
  {
    hide Extends;
    assert [b][..0] == [];
  }

  lemma NothingWithin(R: Rules)
    ensures UtxosAt(R, []) == map[] && Within(map[], map[])
  {
  }

  // ---- Forks, eviction and the cap ----

  /** Storing a fork block changes nothing for the chain: if its id is canonical, it is that very block. */
  lemma ForkKeeps(R: Rules, db: Db, c: seq<Block>, b: Block, work: U256)
    requires LawfulBlocks(R) && DbInv(R, db, c) && Sealed(R, b) && Genuine(R, Id(R, b), work)
    ensures DbInv(R, ForkDb(R, db, b, work), c)
  {
    hide LawfulBlocks, Committed, UtxosOk, IndexesOk, WalkOk, Sealed, Genuine, TrueHeight, SpentRow, WorkAt;
    var d := ForkDb(R, db, b, work);
    forall h | 0 <= h < |c| ensures Resolves(R, d, c, h) {
      assert Resolves(R, db, c, h);
      if Id(R, c[h]) == Id(R, b) {
        BlockFacts(R, c, h);
        SealedById(R, c[h], b);
        ChainGenuine(R, c, h);
        GenuineUnique(R, Id(R, b), work, WorkAt(c[..h + 1]));
      }
    }
    SameTables(R, db, d, c);
  }

  lemma SameTables(R: Rules, a: Db, b: Db, c: seq<Block>)
    requires a.utxos == b.utxos && a.complete == b.complete && a.snapshotTip == b.snapshotTip && a.tip == b.tip
    requires a.txIndex == b.txIndex && a.spentBy == b.spentBy && a.walkTip == b.walkTip
    ensures UtxosOk(R, a, c) == UtxosOk(R, b, c) && IndexesOk(R, a, c) == IndexesOk(R, b, c) && WalkOk(R, a, c) == WalkOk(R, b, c)
  {
    hide IndexAll, Backfill, UtxosAt, Within;
  }

  /** The canonical guard is exact: a canonical id is guarded at its header's height and nowhere else. */
  lemma Guarded(R: Rules, db: Db, c: seq<Block>, h: nat, height: nat)
    requires LawfulBlocks(R) && Committed(R, c) && ChainOk(R, db, c) && h < |c| && TrueHeight(R, Id(R, c[h]), height)
    ensures height == h && CanonicalAt(db, Id(R, c[h]), height)
  {
    hide Committed, Sealed, SpentRow, WorkAt;
    BlockFacts(R, c, h);
    var x: Header :| R.blockId(x) == Id(R, c[h]) && x.height == height;
    assert x == c[h].header;
    assert Resolves(R, db, c, h);
  }

  lemma EvictResolves(R: Rules, db: Db, c: seq<Block>, id: Hash256, h: nat)
    requires LawfulBlocks(R) && Committed(R, c) && ChainOk(R, db, c) && RowsOk(R, db) && h < |c|
    ensures Resolves(R, EvictDb(db, id), c, h)
  {
    hide LawfulBlocks, Committed, Genuine, SpentRow, WorkAt, RowsOk;
    assert Resolves(R, db, c, h);
    if id == Id(R, c[h]) {
      assert TrueHeight(R, id, db.headers[id].height);
      Guarded(R, db, c, h, db.headers[id].height);
    }
  }

  lemma EvictRows(R: Rules, db: Db, id: Hash256)
    requires RowsOk(R, db)
    ensures RowsOk(R, EvictDb(db, id))
  {
    hide Genuine, Sealed;
    if id in db.headers { assert R.blockId(db.headers[id]) == id; }
  }

  /** Eviction of any id keeps the invariant. */
  lemma EvictKeeps(R: Rules, db: Db, c: seq<Block>, id: Hash256)
    requires LawfulBlocks(R) && DbInv(R, db, c)
    ensures DbInv(R, EvictDb(db, id), c)
  {
    hide LawfulBlocks, Committed, UtxosOk, IndexesOk, WalkOk, RowsOk, Resolves;
    forall h | 0 <= h < |c| ensures Resolves(R, EvictDb(db, id), c, h) {
      EvictResolves(R, db, c, id, h);
    }
    EvictRows(R, db, id);
    SameTables(R, db, EvictDb(db, id), c);
  }

  /** Every victim carries the height of its header, as every row of the retained table does. */
  ghost predicate TrueVictims(R: Rules, vs: Victims) {
    forall i | 0 <= i < |vs| :: TrueHeight(R, vs[i].0, vs[i].1)
  }

  lemma CapResolves(R: Rules, db: Db, c: seq<Block>, v: (Hash256, nat), h: nat)
    requires LawfulBlocks(R) && Committed(R, c) && ChainOk(R, db, c) && TrueHeight(R, v.0, v.1) && h < |c|
    ensures Resolves(R, CapDbOne(db, v), c, h)
  {
    hide LawfulBlocks, Committed, SpentRow, WorkAt, TrueHeight, CapDbOne;
    assert Resolves(R, db, c, h);
    CapOneFields(db, v);
    if v.0 == Id(R, c[h]) { Guarded(R, db, c, h, v.1); }
  }

  lemma CapOneFields(db: Db, v: (Hash256, nat))
    ensures var t, keep := CapDbOne(db, v), CanonicalAt(db, v.0, v.1);
            && t.blocks == db.blocks && t.heightIndex == db.heightIndex
            && t.headers == (if keep then db.headers else db.headers - {v.0})
            && t.work == (if keep then db.work else db.work - {v.0})
            && t.spent == (if keep then db.spent else db.spent - {v.0})
  {
  }

  lemma CapRows(R: Rules, db: Db, v: (Hash256, nat))
    requires RowsOk(R, db)
    ensures RowsOk(R, CapDbOne(db, v))
  {
    hide Genuine, TrueHeight, Sealed;
  }

  lemma CapOneKeeps(R: Rules, db: Db, c: seq<Block>, v: (Hash256, nat))
    requires LawfulBlocks(R) && DbInv(R, db, c) && TrueHeight(R, v.0, v.1)
    ensures DbInv(R, CapDbOne(db, v), c)
  {
    hide LawfulBlocks, Committed, UtxosOk, IndexesOk, WalkOk, RowsOk, TrueHeight, Resolves;
    forall h | 0 <= h < |c| ensures Resolves(R, CapDbOne(db, v), c, h) {
      CapResolves(R, db, c, v, h);
    }
    CapRows(R, db, v);
    SameTables(R, db, CapDbOne(db, v), c);
  }

  /**
   The write half of the cap keeps the invariant even when its victims were read from an older state and
   have since become canonical.
   */
  lemma {:induction false} CapKeeps(R: Rules, db: Db, c: seq<Block>, vs: Victims)
    requires LawfulBlocks(R) && DbInv(R, db, c) && TrueVictims(R, vs)
    ensures DbInv(R, CapDb(db, vs), c)
    decreases |vs|
  {
    hide LawfulBlocks, DbInv, TrueHeight, CapDbOne;
    if vs != [] {
      CapKeeps(R, db, c, vs[..|vs| - 1]);
      CapOneKeeps(R, CapDb(db, vs[..|vs| - 1]), c, vs[|vs| - 1]);
    }
  }

  // ---- The snapshot ----

  /** Writing the whole map over a table that is part of it leaves exactly the map. */
  lemma FinalizeKeeps(R: Rules, db: Db, c: seq<Block>)
    requires DbInv(R, db, c)
    ensures DbInv(R, FinalizedDb(db, UtxosAt(R, c), Id(R, c[|c| - 1])), c)
    ensures FinalizedDb(db, UtxosAt(R, c), Id(R, c[|c| - 1])).utxos == UtxosAt(R, c)
  {
    hide Committed, RowsOk, IndexAll, Backfill, UtxosAt;
    var d := FinalizedDb(db, UtxosAt(R, c), Id(R, c[|c| - 1]));
    Overwritten(db.utxos, UtxosAt(R, c));
    SameRows(R, db, d, c);
    assert d.walkTip == Some(Id(R, c[|c| - 1]));
  }

  lemma Overwritten(a: Utxos, b: Utxos)
    requires Within(a, b)
    ensures a + b == b && Within(b, b)
  {
  }

  lemma SameRows(R: Rules, a: Db, b: Db, c: seq<Block>)
    requires a.blocks == b.blocks && a.headers == b.headers && a.heightIndex == b.heightIndex && a.work == b.work
    requires a.spent == b.spent && a.retained == b.retained && a.tip == b.tip
    ensures ChainOk(R, a, c) ==> ChainOk(R, b, c)
    ensures RowsOk(R, a) ==> RowsOk(R, b)
  {
    hide SpentRow, WorkAt, Genuine, TrueHeight, Sealed;
    if ChainOk(R, a, c) {
      forall h | 0 <= h < |c| ensures Resolves(R, b, c, h) { assert Resolves(R, a, c, h); }
    }
  }

  lemma ClearKeeps(R: Rules, db: Db, c: seq<Block>)
    requires DbInv(R, db, c)
    ensures DbInv(R, ClearedDb(db), c)
  {
    hide Committed, RowsOk, ChainOk, IndexAll, Backfill, UtxosAt;
    SameRows(R, db, ClearedDb(db), c);
  }

  lemma WalkKeeps(R: Rules, db: Db, c: seq<Block>)
    requires DbInv(R, db, c)
    ensures DbInv(R, db.(walkTip := Some(Id(R, c[|c| - 1]))), c)
  {
    hide Committed, RowsOk, IndexAll, Backfill, UtxosAt;
    var d := db.(walkTip := Some(Id(R, c[|c| - 1])));
    SameRows(R, db, d, c);
    assert d.walkTip == Some(Id(R, c[|c| - 1]));
  }

  // ---- Rows of blocks off the chain ----

  /** All tables have the same rows for this block. */
  ghost predicate RowsKept(a: Db, b: Db, id: Hash256) {
    && (id in a.blocks <==> id in b.blocks) && (id in a.blocks ==> a.blocks[id] == b.blocks[id])
    && (id in a.headers <==> id in b.headers) && (id in a.headers ==> a.headers[id] == b.headers[id])
    && (id in a.work <==> id in b.work) && (id in a.work ==> a.work[id] == b.work[id])
    && (id in a.spent <==> id in b.spent) && (id in a.spent ==> a.spent[id] == b.spent[id])
    && (id in a.forks <==> id in b.forks) && (id in a.forks ==> a.forks[id] == b.forks[id])
    && (id in a.retained <==> id in b.retained) && (id in a.retained ==> a.retained[id] == b.retained[id])
  }

  /** A stored fork block can be found with body, header and work, and no other block is touched. */
  lemma ForkStored(R: Rules, db: Db, block: Block, work: U256, other: Hash256)
    ensures var next, id := ForkDb(R, db, block, work), Id(R, block);
            && id in next.blocks && next.blocks[id] == block && id in next.headers && next.headers[id] == block.header
            && id in next.work && next.work[id] == work && id in next.forks && next.forks[id] == work
            && (other != id ==> RowsKept(db, next, other))
            && next.heightIndex == db.heightIndex && next.tip == db.tip && next.utxos == db.utxos
  {
  }

  /**
   Evicting a fork block takes its body and its spent row, keeps its header and work, and remembers its height; a
   block on the chain keeps everything and only leaves the fork table. No other block is touched.
   */
  lemma EvictMeans(db: Db, id: Hash256, other: Hash256)
    ensures var next := EvictDb(db, id);
            && id !in next.forks && next.headers == db.headers && next.work == db.work
            && (other != id ==> RowsKept(db, next, other))
            && next.heightIndex == db.heightIndex && next.tip == db.tip && next.utxos == db.utxos
            && (if exists h :: h in db.heightIndex && id in db.headers && db.headers[id].height == h && db.heightIndex[h] == id then
                  next.blocks == db.blocks && next.spent == db.spent && next.retained == db.retained
                else
                  && id !in next.blocks && id !in next.spent
                  && (id in db.headers ==> id in next.retained && next.retained[id] == db.headers[id].height))
  {
  }

  /**
   Enforcing the cap: whatever the plan names leaves the tracker, and loses header, work and spent row unless the index
   has it at the height of the plan. Bodies and everything unnamed stay.
   */
  lemma {:induction false} CapMeans(db: Db, vs: Victims, id: Hash256)
    ensures var next := CapDb(db, vs);
            && next.blocks == db.blocks && next.forks == db.forks && next.heightIndex == db.heightIndex && next.tip == db.tip
            && (if exists i :: 0 <= i < |vs| && vs[i].0 == id then id !in next.retained
                else (id in next.retained <==> id in db.retained) && (id in db.retained ==> next.retained[id] == db.retained[id]))
            && (if exists i :: 0 <= i < |vs| && vs[i].0 == id && !(vs[i].1 in db.heightIndex && db.heightIndex[vs[i].1] == id)
                then id !in next.headers && id !in next.work && id !in next.spent
                else
                  && (id in next.headers <==> id in db.headers) && (id in db.headers ==> next.headers[id] == db.headers[id])
                  && (id in next.work <==> id in db.work) && (id in db.work ==> next.work[id] == db.work[id])
                  && (id in next.spent <==> id in db.spent) && (id in db.spent ==> next.spent[id] == db.spent[id]))
  {
    hide CapDbOne;
    if vs != [] {
      var n := |vs| - 1;
      CapMeans(db, vs[..n], id);
      CapOneMeans(CapDb(db, vs[..n]), vs[n], id);
      assert forall i | 0 <= i < n :: vs[..n][i] == vs[i];
    }
  }

  lemma CapOneMeans(db: Db, v: (Hash256, nat), id: Hash256)
    ensures var next := CapDbOne(db, v);
            && next.blocks == db.blocks && next.forks == db.forks && next.heightIndex == db.heightIndex && next.tip == db.tip
            && (if v.0 == id then id !in next.retained
                else (id in next.retained <==> id in db.retained) && (id in db.retained ==> next.retained[id] == db.retained[id]))
            && (if v.0 == id && !(v.1 in db.heightIndex && db.heightIndex[v.1] == id)
                then id !in next.headers && id !in next.work && id !in next.spent
                else
                  && (id in next.headers <==> id in db.headers) && (id in db.headers ==> next.headers[id] == db.headers[id])
                  && (id in next.work <==> id in db.work) && (id in db.work ==> next.work[id] == db.work[id])
                  && (id in next.spent <==> id in db.spent) && (id in db.spent ==> next.spent[id] == db.spent[id]))
  {
  }

  /** A commit touches no other block, and takes this one off the fork table. */
  lemma CommitTouches(R: Rules, db: Db, b: Block, work: U256, spent: SpentList, log: seq<Mutation>, other: Hash256)
    ensures var next := BlockDb(R, db, b, work, spent, log);
            && Id(R, b) !in next.forks && next.retained == db.retained && (other != Id(R, b) ==> RowsKept(db, next, other))
  {
    hide AddSpenders, IndexRows, Forward;
  }
}
