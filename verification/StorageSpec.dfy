/**
 The tables of the database and what each write transaction does to them.
 */
module StorageSpec {
  import opened SmtSpec
  import opened WorkSpec
  import opened Ledger
  import opened UtxoState
  import opened DiskUndo
  import opened Headers

  datatype Spender = Spender(txId: Hash256, input: nat, height: nat)

  type SpentBy = map<OutPoint, Spender>
  type TxIndex = map<Hash256, nat>

  datatype Db = Db(
    blocks: map<Hash256, Block>,
    headers: map<Hash256, Header>,
    heightIndex: map<nat, Hash256>,
    work: map<Hash256, U256>,
    spent: map<Hash256, SpentList>,
    forks: map<Hash256, U256>,
    retained: map<Hash256, nat>,
    txIndex: TxIndex,
    utxos: Utxos,
    spentBy: SpentBy,
    tip: Option<Hash256>,
    complete: bool,                  // the snapshot-complete marker
    snapshotTip: Option<Hash256>,
    walkTip: Option<Hash256>         // the chain through this block passed a structural walk
  )

  const EMPTY_DB: Db := Db(map[], map[], map[], map[], map[], map[], map[], map[], map[], map[], None, false, None, None)

  // ---- Rows ----

  function PutAll<V>(m: map<nat, V>, rows: seq<(nat, V)>): map<nat, V> {
    if rows == [] then m else PutAll<V>(m, rows[..|rows| - 1])[rows[|rows| - 1].0 := rows[|rows| - 1].1]
  }

  function BlockRows(R: Rules, blocks: seq<Block>): (rows: seq<(Hash256, Block)>)
    ensures |rows| == |blocks| && forall i | 0 <= i < |rows| :: rows[i] == (Id(R, blocks[i]), blocks[i])
  {
    seq(|blocks|, i requires 0 <= i < |blocks| => (Id(R, blocks[i]), blocks[i]))
  }

  function HeaderRows(R: Rules, blocks: seq<Block>): (rows: seq<(Hash256, Header)>)
    ensures |rows| == |blocks| && forall i | 0 <= i < |rows| :: rows[i] == (Id(R, blocks[i]), blocks[i].header)
  {
    seq(|blocks|, i requires 0 <= i < |blocks| => (Id(R, blocks[i]), blocks[i].header))
  }

  // ---- The transaction index ----

  function TxIds(R: Rules, txs: seq<Tx>): set<Hash256> {
    set i | 0 <= i < |txs| && R.txId(txs[i]).Some? :: R.txId(txs[i]).value
  }

  /** The rows of a block in the transaction index: transactions without an id are passed over. */
  function IndexRows(R: Rules, txs: seq<Tx>, height: nat): TxIndex {
    map id | id in TxIds(R, txs) :: height
  }

  function IndexAll(R: Rules, m: TxIndex, blocks: seq<Block>): TxIndex {
    if blocks == [] then m
    else
      var b := blocks[|blocks| - 1];
      IndexAll(R, m, blocks[..|blocks| - 1]) + IndexRows(R, b.txs, b.header.height)
  }

  // ---- The spent-by index ----

  function AddInputs(m: SpentBy, id: Hash256, ops: seq<OutPoint>, height: nat): SpentBy {
    if ops == [] then m
    else AddInputs(m, id, ops[..|ops| - 1], height)[ops[|ops| - 1] := Spender(id, |ops| - 1, height)]
  }

  /** Every input of every payment points to its spender. */
  function AddSpenders(R: Rules, m: SpentBy, txs: seq<Tx>, height: nat): SpentBy {
    if txs == [] then m
    else
      var rest, tx := AddSpenders(R, m, txs[..|txs| - 1], height), txs[|txs| - 1];
      if IsCoinbase(tx) || R.txId(tx).None? then rest else AddInputs(rest, R.txId(tx).value, tx.inputs, height)
  }

  function AddBlocks(R: Rules, m: SpentBy, blocks: seq<Block>): SpentBy {
    if blocks == [] then m
    else
      var b := blocks[|blocks| - 1];
      AddSpenders(R, AddBlocks(R, m, blocks[..|blocks| - 1]), b.txs, b.header.height)
  }

  /** What a backfill from genesis writes into an empty table. */
  function Backfill(R: Rules, c: seq<Block>): SpentBy {
    AddBlocks(R, map[], c)
  }

  ghost function DropSpenders(m: SpentBy, orphans: seq<Block>): SpentBy
    decreases |orphans|
  {
    if orphans == [] then m else DropSpenders(m - ConsumedBy(orphans[0].txs), orphans[1..])
  }

  /** Every payment has an id to point to. */
  ghost predicate Indexable(R: Rules, txs: seq<Tx>) {
    forall i | 0 <= i < |txs| && !IsCoinbase(txs[i]) :: R.txId(txs[i]).Some?
  }

  // ---- The UTXO table ----

  ghost function RowOf(spent: map<Hash256, SpentList>, id: Hash256): SpentList {
    if id in spent then spent[id] else []
  }

  /** Undo the orphans in the given order. */
  ghost function UndoOrphans(R: Rules, u: Utxos, spent: map<Hash256, SpentList>, orphans: seq<Block>): Utxos
    decreases |orphans|
  {
    if orphans == [] then u
    else UndoOrphans(R, UndoneOnDisk(R, u, orphans[0].txs, RowOf(spent, Id(R, orphans[0]))), spent, orphans[1..])
  }

  ghost function ForwardAll(u: Utxos, logs: seq<(Hash256, seq<Mutation>)>): Utxos {
    if logs == [] then u else Forward(ForwardAll(u, logs[..|logs| - 1]), logs[|logs| - 1].1)
  }

  // ---- What must serialize for a write transaction to commit ----

  ghost predicate RowsSerialize(R: Rules, s: SpentList) {
    forall i | 0 <= i < |s| :: R.outputSize(s[i].1.output).Some?
  }

  ghost predicate LogSerializes(R: Rules, log: seq<Mutation>) {
    forall i | 0 <= i < |log| && log[i].Insert? :: R.outputSize(log[i].entry.output).Some?
  }

  // ---- Write transactions ----

  ghost function GenesisDb(R: Rules, db: Db, block: Block, work: U256, log: seq<Mutation>): Db {
    var id := Id(R, block);
    db.(blocks := db.blocks[id := block],
        headers := db.headers[id := block.header],
        heightIndex := db.heightIndex[block.header.height := id],
        work := db.work[id := work],
        tip := Some(id),
        complete := true, snapshotTip := Some(id), walkTip := Some(id),
        txIndex := db.txIndex + IndexRows(R, block.txs, block.header.height),
        utxos := Forward(db.utxos, log),
        spentBy := AddSpenders(R, db.spentBy, block.txs, block.header.height))
  }

  ghost function BlockDb(R: Rules, db: Db, block: Block, work: U256, spent: SpentList, log: seq<Mutation>): Db {
    var id := Id(R, block);
    db.(blocks := db.blocks[id := block],
        headers := db.headers[id := block.header],
        heightIndex := db.heightIndex[block.header.height := id],
        work := db.work[id := work],
        spent := db.spent[id := spent],
        tip := Some(id),
        snapshotTip := (if db.complete then Some(id) else db.snapshotTip),
        walkTip := Some(id),
        forks := db.forks - {id},
        txIndex := db.txIndex + IndexRows(R, block.txs, block.header.height),
        utxos := Forward(db.utxos, log),
        spentBy := AddSpenders(R, db.spentBy, block.txs, block.header.height))
  }

  /** The arguments of a reorg commit. */
  datatype Reorg = Reorg(
    trigger: Block,
    work: U256,
    orphans: seq<Block>,
    spent: seq<(Hash256, SpentList)>,
    logs: seq<(Hash256, seq<Mutation>)>,
    heights: seq<(nat, Hash256)>,
    blocks: seq<Block>,
    works: seq<(Hash256, U256)>,
    stale: Option<(nat, nat)>,       // first and last height above the new tip
    tip: Hash256
  )

  ghost predicate ReorgSerializes(R: Rules, a: Reorg) {
    && R.blockSize(a.trigger).Some? && Indexable(R, a.trigger.txs)
    && (forall i | 0 <= i < |a.blocks| :: R.blockSize(a.blocks[i]).Some? && Indexable(R, a.blocks[i].txs))
    && (forall i | 0 <= i < |a.spent| :: RowsSerialize(R, a.spent[i].1))
    && (forall i | 0 <= i < |a.logs| :: LogSerializes(R, a.logs[i].1))
  }

  predicate IsStale(stale: Option<(nat, nat)>, h: nat) {
    stale.Some? && stale.value.0 <= h <= stale.value.1
  }

  function StaleRange(stale: Option<(nat, nat)>): set<nat> {
    if stale.None? then {} else set h: nat | stale.value.0 <= h <= stale.value.1 && IsStale(stale, h)
  }

  function HeightsOf(rows: seq<(nat, Hash256)>): set<nat> {
    set i | 0 <= i < |rows| :: rows[i].0
  }

  function IdsOf(rows: seq<(nat, Hash256)>): set<Hash256> {
    set i | 0 <= i < |rows| :: rows[i].1
  }

  /** Transaction ids of the block that the index names at a height, as far as both tables know it. */
  function IdsAt(R: Rules, index: map<nat, Hash256>, blocks: map<Hash256, Block>, h: nat): set<Hash256> {
    if h in index && index[h] in blocks then TxIds(R, blocks[index[h]].txs) else {}
  }

  /** Transaction ids of all blocks at the given heights. */
  ghost function IdsAtAll(R: Rules, index: map<nat, Hash256>, blocks: map<Hash256, Block>, hs: set<nat>): set<Hash256> {
    set h, id | h in hs && id in IdsAt(R, index, blocks, h) :: id
  }

  ghost function ReorgDb(R: Rules, db: Db, a: Reorg): Db {
    var id := Id(R, a.trigger);
    var blocks := PutAll<Block>(db.blocks[id := a.trigger], BlockRows(R, a.blocks));
    var spent := PutAll<SpentList>(db.spent, a.spent);
    var unindexed := db.txIndex - IdsAtAll(R, db.heightIndex, blocks, StaleRange(a.stale) + HeightsOf(a.heights));
    db.(blocks := blocks,
        headers := PutAll<Header>(db.headers[id := a.trigger.header], HeaderRows(R, a.blocks)),
        heightIndex := PutAll<Hash256>(db.heightIndex, a.heights) - StaleRange(a.stale),
        work := PutAll<U256>(db.work[id := a.work], a.works),
        spent := spent,
        tip := Some(a.tip),
        snapshotTip := (if db.complete then Some(a.tip) else db.snapshotTip),
        walkTip := Some(a.tip),
        forks := db.forks - IdsOf(a.heights) - {id},
        txIndex := IndexAll(R, unindexed + IndexRows(R, a.trigger.txs, a.trigger.header.height), a.blocks),
        utxos := ForwardAll(UndoOrphans(R, db.utxos, spent, a.orphans), a.logs),
        spentBy := AddBlocks(R, AddSpenders(R, DropSpenders(db.spentBy, a.orphans), a.trigger.txs, a.trigger.header.height), a.blocks))
  }

  ghost function ForkDb(R: Rules, db: Db, block: Block, work: U256): Db {
    var id := Id(R, block);
    db.(blocks := db.blocks[id := block], headers := db.headers[id := block.header],
        work := db.work[id := work], forks := db.forks[id := work])
  }

  /** The index names this block at the given height. */
  predicate CanonicalAt(db: Db, id: Hash256, height: nat) {
    height in db.heightIndex && db.heightIndex[height] == id
  }

  /** The body goes, header and work stay and are tracked; a block that became canonical only leaves the fork table. */
  function EvictDb(db: Db, id: Hash256): Db {
    var keep := id in db.headers && CanonicalAt(db, id, db.headers[id].height);
    db.(blocks := if keep then db.blocks else db.blocks - {id},
        spent := if keep then db.spent else db.spent - {id},
        retained := if !keep && id in db.headers then db.retained[id := db.headers[id].height] else db.retained,
        forks := db.forks - {id})
  }

  type Victims = seq<(Hash256, nat)>

  /** A victim leaves the tracker, and its rows go unless it has become canonical. */
  function CapDbOne(db: Db, v: (Hash256, nat)): Db {
    var keep := CanonicalAt(db, v.0, v.1);
    db.(retained := db.retained - {v.0},
        headers := if keep then db.headers else db.headers - {v.0},
        work := if keep then db.work else db.work - {v.0},
        spent := if keep then db.spent else db.spent - {v.0})
  }

  /** The write half of the retained-header cap, with victims chosen by an earlier read. */
  function CapDb(db: Db, vs: Victims): Db {
    if vs == [] then db else CapDbOne(CapDb(db, vs[..|vs| - 1]), vs[|vs| - 1])
  }

  ghost function FinalizedDb(db: Db, u: Utxos, tip: Hash256): Db {
    db.(utxos := db.utxos + u, complete := true, snapshotTip := Some(tip), walkTip := Some(tip))
  }

  function ClearedDb(db: Db): Db {
    db.(utxos := map[], complete := false, snapshotTip := None, walkTip := None)
  }
}
