/**
 Inputs that the node can receive and on which a rollback or an undo is not exact: blocks on chains that
 satisfy every rule. They show that the exceptions in the general results do occur.
 */
module Examples {
  import opened SmtSpec
  import opened SmtArena
  import opened WorkSpec
  import opened Ledger
  import opened UtxoState
  import opened BlockSpec
  import opened Chain
  import opened DiskUndo
  import opened Headers
  import opened StorageSpec
  import opened StorageInv
  import opened OrphanOrder
  import opened MiningRound
  import opened MedianTime
  import opened ToyWorld
  import opened Connect
  import opened Boot

  /** The first height at which the coinbase of genesis can be spent. */
  const RIPE: nat := 360

  ghost function Added(u: Utxos, h: nat): Utxos {
    u[OutPoint(10 + h, 0) := UtxoEntry(COIN, h, true)]
  }

  /** One payment instead of another entry. */
  ghost function Moved(u: Utxos, h: nat, op: OutPoint, id: Hash256): Utxos {
    (u - {op})[OutPoint(id, 0) := UtxoEntry(COIN, h, false)]
  }

  lemma RipeFacts()
    ensures OutPoint(10, 0) in Coins(RIPE) && Coins(RIPE)[OutPoint(10, 0)] == UtxoEntry(COIN, 0, true)
    ensures OutPoint(1, 0) !in Coins(RIPE) && OutPoint(2, 0) !in Coins(RIPE)
    ensures OutPoint(10 + RIPE, 0) !in Coins(RIPE) && OutPoint(10 + RIPE + 1, 0) !in Coins(RIPE)
  {
    hide Coins;
    CoinsAt(RIPE, OutPoint(10, 0));
    CoinsAt(RIPE, OutPoint(1, 0));
    CoinsAt(RIPE, OutPoint(2, 0));
    CoinsAt(RIPE, OutPoint(10 + RIPE, 0));
    CoinsAt(RIPE, OutPoint(10 + RIPE + 1, 0));
  }

  lemma PaymentOps(tx: Tx, op: OutPoint, id: Hash256)
    requires tx == Tx([op], [COIN], []) && op.txId != ZERO && IdOf(tx) == Some(id)
    ensures OpSet(Consumed(tx)) == {op} && TxOutputs(Toy(), tx) == {OutPoint(id, 0)}
  {
    OneOp(op);
    assert OwnOps(Toy(), tx, 1) == {OutPoint(id, 0)};
  }

  // ---- A block that spends its own output ----

  /** The chain of coinbases with a block on top that pays, and pays on from that payment. */
  lemma SelfSpendChain() returns (c: seq<Block>)
    ensures GoodChain(c) && |c| == RIPE + 1 && c[RIPE].txs == [Cb(RIPE), PAY, CHAINED]
  {
    hide Running, GoodChain, Accepts, UtxosAt, Lawful, LawfulBlocks, Coins, ToyChain, Extends, Code;
    var p, txs := ToyChain(RIPE), [Cb(RIPE), PAY, CHAINED];
    ToyChainGood(RIPE);
    RipeFacts();
    var u := Coins(RIPE);
    StartRunning(u, txs, RIPE);
    KeepRunning(u, txs, RIPE, 1, Added(u, RIPE), OutPoint(10, 0), 1);
    KeepRunning(u, txs, RIPE, 2, Moved(Added(u, RIPE), RIPE, OutPoint(10, 0), 1), OutPoint(1, 0), 2);
    Finished(u, NextBlock(p, txs), Moved(Moved(Added(u, RIPE), RIPE, OutPoint(10, 0), 1), RIPE, OutPoint(1, 0), 2));
    NextExtends(p, txs);
    c := p + [NextBlock(p, txs)];
  }

  /** On a chain that satisfies every rule, the disk undo of the last block does not lead back to its parent. */
  lemma SelfSpendExample() returns (c: seq<Block>)
    ensures Lawful(Toy()) && LawfulBlocks(Toy()) && Committed(Toy(), c) && c != []
    ensures var txs := c[|c| - 1].txs;
            SelfSpends(Toy(), txs) && UndoneOnDisk(Toy(), UtxosAt(Toy(), c), txs, SpentRow(Toy(), c)) != UtxosAt(Toy(), c[..|c| - 1])
  {
    hide Lawful, LawfulBlocks, Committed, Accepted, UtxosAt, UndoneOnDisk, SpentRow, OutputsOf, ConsumedBy;
    ToyLawful();
    ToyLawfulBlocks();
    c := SelfSpendChain();
    var txs := c[RIPE].txs;
    PaymentOps(PAY, OutPoint(10, 0), 1);
    PaymentOps(CHAINED, OutPoint(1, 0), 2);
    assert OutPoint(1, 0) in Consumed(CHAINED);
    ConsumedAt(txs, 2, OutPoint(1, 0));
    OutputsAt(Toy(), txs, 1, OutPoint(1, 0));
    CommittedAccepted(Toy(), c);
    OrphanUndoIff(Toy(), c);
  }

  // ---- Orphans taken oldest first ----

  /** The chain of coinbases with a block on top that spends the one of genesis. */
  lemma PaidChain() returns (c: seq<Block>)
    ensures GoodChain(c) && |c| == RIPE + 1 && c[RIPE].txs == [Cb(RIPE), PAY]
    ensures UtxosAt(Toy(), c) == Moved(Added(Coins(RIPE), RIPE), RIPE, OutPoint(10, 0), 1)
  {
    hide Running, GoodChain, Accepts, UtxosAt, Lawful, LawfulBlocks, Coins, ToyChain, Extends, Code, After;
    var p, txs := ToyChain(RIPE), [Cb(RIPE), PAY];
    ToyChainGood(RIPE);
    RipeFacts();
    var u := Coins(RIPE);
    var v := Moved(Added(u, RIPE), RIPE, OutPoint(10, 0), 1);
    StartRunning(u, txs, RIPE);
    KeepRunning(u, txs, RIPE, 1, Added(u, RIPE), OutPoint(10, 0), 1);
    Finished(u, NextBlock(p, txs), v);
    NextExtends(p, txs);
    FinalMap(u, txs, RIPE, v);
    GrowsTo(Toy(), p, NextBlock(p, txs));
    c := p + [NextBlock(p, txs)];
  }

  /** The two payments in two blocks. */
  lemma TwoStepChain() returns (c: seq<Block>)
    ensures GoodChain(c) && |c| == RIPE + 2 && c[RIPE].txs == [Cb(RIPE), PAY] && c[RIPE + 1].txs == [Cb(RIPE + 1), CHAINED]
  {
    hide Running, GoodChain, Accepts, UtxosAt, Lawful, LawfulBlocks, Coins, ToyChain, Extends, Code, After;
    var q := PaidChain();
    var more := [Cb(RIPE + 1), CHAINED];
    RipeFacts();
    var v := Moved(Added(Coins(RIPE), RIPE), RIPE, OutPoint(10, 0), 1);
    StartRunning(v, more, RIPE + 1);
    KeepRunning(v, more, RIPE + 1, 1, Added(v, RIPE + 1), OutPoint(1, 0), 2);
    Finished(v, NextBlock(q, more), Moved(Added(v, RIPE + 1), RIPE + 1, OutPoint(1, 0), 2));
    NextExtends(q, more);
    c := q + [NextBlock(q, more)];
  }

  lemma BlockOps(h: nat, tx: Tx, op: OutPoint, id: Hash256)
    requires h < HEIGHTS && tx == Tx([op], [COIN], []) && op.txId != ZERO && IdOf(tx) == Some(id)
    ensures var txs := [Cb(h), tx]; ConsumedBy(txs) == {op} && OutputsOf(Toy(), txs) == {OutPoint(10 + h, 0), OutPoint(id, 0)}
  {
    PaymentOps(tx, op, id);
    OneOp(op);
    var txs := [Cb(h), tx];
    assert txs[..1] == [Cb(h)];
    CoinbaseOps(h);
  }

  lemma CoinbaseOps(h: nat)
    requires h < HEIGHTS
    ensures ConsumedBy([Cb(h)]) == {} && OutputsOf(Toy(), [Cb(h)]) == {OutPoint(10 + h, 0)}
  {
    OneOp(OutPoint(0, 0));
    assert [Cb(h)][..0] == [] && ConsumedBy([]) == {} && OutputsOf(Toy(), []) == {};
    assert IdOf(Cb(h)) == Some(10 + h);
    assert OwnOps(Toy(), Cb(h), 1) == {OutPoint(10 + h, 0)};
  }

  ghost function RowsOf(R: Rules, c: seq<Block>): map<Hash256, SpentList>
    requires |c| >= 2
  {
    var n := |c|;
    map[Id(R, c[n - 2]) := SpentRow(R, c[..n - 1]), Id(R, c[n - 1]) := SpentRow(R, c)]
  }

  lemma RowsOwn(R: Rules, c: seq<Block>)
    requires LawfulBlocks(R) && Committed(R, c) && |c| >= 2
    ensures OwnRows(R, c, |c| - 2, RowsOf(R, c))
  {
    hide Committed, LawfulBlocks, SpentRow;
    var n := |c|;
    if Id(R, c[n - 2]) == Id(R, c[n - 1]) { IdsUnique(R, c, n - 2, n - 1); }
    assert c[..n] == c;
    forall i | n - 2 <= i < n ensures OwnRow(R, c, RowsOf(R, c), i) {
      assert i == n - 2 || i == n - 1;
    }
  }

  /**
   On a chain that satisfies every rule and whose last two blocks spend none of their own outputs, undoing
   these two newest first leads back to their parent, and oldest first does not.
   */
  lemma OldestFirstExample() returns (c: seq<Block>)
    ensures Lawful(Toy()) && LawfulBlocks(Toy()) && Committed(Toy(), c) && |c| >= 2
    ensures var R, n := Toy(), |c|;
            var older, newer, back := c[n - 2], c[n - 1], UtxosAt(Toy(), c[..n - 2]);
            && !SelfSpends(R, older.txs) && !SelfSpends(R, newer.txs)
            && UndoOrphans(R, UtxosAt(R, c), RowsOf(R, c), [newer, older]) == back
            && UndoOrphans(R, UtxosAt(R, c), RowsOf(R, c), [older, newer]) != back
  {
    hide Lawful, LawfulBlocks, Committed, Accepted, UtxosAt, UndoOrphans, SpentRow, OutputsOf, ConsumedBy, RowsOf, OwnRows, NewestFirst;
    ToyLawful();
    ToyLawfulBlocks();
    c := TwoStepChain();
    var R, n := Toy(), |c|;
    CommittedAccepted(R, c);
    RowsOwn(R, c);
    BlockOps(RIPE, PAY, OutPoint(10, 0), 1);
    BlockOps(RIPE + 1, CHAINED, OutPoint(1, 0), 2);
    OldestFirstIff(R, c, RowsOf(R, c));
    NewestFirstAt(c, n - 2);
    assert NewestFirst(c, n - 2) == [c[n - 1], c[n - 2]];
    NewestFirstListed(c, n - 2);
    NewestFirstIff(R, c, n - 2);
    ReorgOrderIff(R, c, n - 2, Downwards(n, n - 2), NewestFirst(c, n - 2), RowsOf(R, c));
  }

  // ---- A coinbase that is already there ----

  /** A second block with the coinbase of genesis passes every header rule, and collides. */
  lemma CollidingBlock()
    ensures ToyChain(1) == [NextBlock([], [Cb(0)])] && Extends(Toy(), [], NextBlock([], [Cb(0)])) && GoodChain(ToyChain(1))
    ensures var bad := NextBlock(ToyChain(1), [Cb(0)]);
            && FollowsHeaders(Toy(), ToyChain(1), bad) && bad.header.height == 1 && bad.txs == [Cb(0)]
            && OutPoint(10, 0) in UtxosAt(Toy(), ToyChain(1)) && Collides(Toy(), UtxosAt(Toy(), ToyChain(1)), Cb(0))
  {
    hide Toy, ToyChain, GoodChain, UtxosAt, Extends, FollowsHeaders, Collides, NextBlock, Coins, Lawful, LawfulBlocks;
    ToyChainGood(1);
    var c := ToyChain(1);
    OneBlock();
    GenesisExtends(c);
    SingleBody();
    HeaderOnTop(c, [Cb(0)]);
    GenesisCoin();
  }

  lemma OneBlock()
    ensures ToyChain(1) == [NextBlock([], [Cb(0)])]
  {
    hide NextBlock;
    assert ToyChain(0) == [];
  }

  lemma GenesisExtends(c: seq<Block>)
    requires GoodChain(c) && |c| == 1
    ensures Extends(Toy(), [], c[0])
  {
    hide Committed, Extends, Regular, Toy;
    CommittedAt(Toy(), c, 0);
    assert c[..0] == [];
  }

  lemma GenesisCoin()
    ensures OutPoint(10, 0) in Coins(1) && Collides(Toy(), Coins(1), Cb(0))
  {
    hide Coins;
    CoinsAt(1, OutPoint(10, 0));
    assert IdOf(Cb(0)) == Some(10) && OutPoint(10, 0) in Coins(1);
  }

  /** Any body that satisfies the body rules can be put on top of the chain. */
  lemma HeaderOnTop(c: seq<Block>, txs: seq<Tx>)
    requires GoodChain(c) && 0 < |c| < HEIGHTS && txs != [] && (forall tx | tx in txs :: Fits(tx))
    requires CoinbaseRule(txs, |txs|).None? && RepeatRule(Toy(), txs, |txs|).None? && FirstRepeat(PaymentInputs(txs)).None?
    ensures var b := NextBlock(c, txs); FollowsHeaders(Toy(), c, b) && b.header.height == |c| && b.txs == txs
  {
    hide Median, Committed, UtxosAt, NextTarget, Mtp, HeaderCode, Recent, CoinbaseRule, RepeatRule, FirstRepeat, PaymentInputs, Code, Fits;
    var R, b := Toy(), NextBlock(c, txs);
    NextTime(c);
    NextShape(c, txs);
    BlockFacts(R, c, |c| - 1);
    MinerAlwaysHasTime(R, c, |c|, b.header);
  }

  lemma SingleBody()
    ensures Fits(Cb(0)) && CoinbaseRule([Cb(0)], 1).None? && RepeatRule(Toy(), [Cb(0)], 1).None? && PaymentInputs([Cb(0)]) == []
  {
    assert RepeatRule(Toy(), [Cb(0)], 0).None?;
  }

  /** Start from nothing, connect a first block, then one whose coinbase collides with an unspent output. */
  method ConnectTwo(R: Rules, first: Block, second: Block) returns (utxo: UtxoSet, r: Result<seq<Mutation>, ConnectError>)
    requires Lawful(R) && Extends(R, [], first) && FollowsHeaders(R, [first], second) && second.header.height == 1
    requires second.txs != [] && Collides(R, UtxosAt(R, [first]), second.txs[0])
    ensures utxo.Valid() && utxo.R == R && r.Err? && LosesOutputs(R, UtxosAt(R, [first]), utxo.utxos, second.txs[0])
  {
    hide UtxoSet.Valid, UtxosAt, Committed, FollowsHeaders, Extends, Collides, LosesOutputs, Lawful, BlockArgs;
    FirstBlock(R, first);
    utxo := new UtxoSet(R);
    r := ApplyChecked(utxo, first, []);
    assert [] + [first] == [first];
    r := ApplyChecked(utxo, second, [first]);
  }

  lemma FirstBlock(R: Rules, first: Block)
    requires Extends(R, [], first)
    ensures FollowsHeaders(R, [], first) && first.header.height == 0
    ensures Committed(R, []) && Committed(R, [first]) && UtxosAt(R, []) == map[]
  {
    hide FollowsHeaders, Accepts;
    assert [first][..0] == [];
  }

  /** Connecting that block fails, and the output of genesis is lost from the set. */
  method CollisionExample() returns (utxo: UtxoSet, bad: Block, r: Result<seq<Mutation>, ConnectError>)
    ensures utxo.Valid() && utxo.R == Toy()
    ensures Committed(Toy(), ToyChain(1)) && FollowsHeaders(Toy(), ToyChain(1), bad) && r.Err?
    ensures OutPoint(10, 0) in UtxosAt(Toy(), ToyChain(1)) && OutPoint(10, 0) !in utxo.utxos
  {
    hide UtxoSet.Valid, UtxosAt, Committed, FollowsHeaders, Extends, Collides, LosesOutputs, Lawful, Toy, ToyChain, NextBlock;
    CollidingBlock();
    ToyLawful();
    bad := NextBlock(ToyChain(1), [Cb(0)]);
    utxo, r := ConnectTwo(Toy(), NextBlock([], [Cb(0)]), bad);
    LostCoin(UtxosAt(Toy(), ToyChain(1)), utxo.utxos);
  }

  lemma LostCoin(u: Utxos, w: Utxos)
    requires LosesOutputs(Toy(), u, w, Cb(0))
    ensures OutPoint(10, 0) !in w
  {
    var i, k :| 0 <= i < k <= 1 && OutPoint(10, i) in u && w == u - OwnOps(Toy(), Cb(0), k);
    assert OutPoint(10, 0) in OwnOps(Toy(), Cb(0), 1);
  }

  // ---- A spent coinbase that comes back on the trusted path ----

  lemma ReplayedIds()
    ensures Fits(Cb(0)) && Fits(PAY) && NoRepeats(Toy(), [Cb(0), PAY]) && !IsCoinbase(PAY)
  {
    assert IdOf(Cb(0)) == Some(10) && IdOf(PAY) == Some(1);
  }

  lemma ReplayedBody()
    ensures var txs := [Cb(0), PAY];
            && (forall tx | tx in txs :: Fits(tx)) && CoinbaseRule(txs, 2).None? && RepeatRule(Toy(), txs, 2).None?
            && FirstRepeat(PaymentInputs(txs)).None?
  {
    hide Toy, Fits, NoRepeats, CoinbaseRule, RepeatRule, FirstRepeat;
    var txs := [Cb(0), PAY];
    ReplayedIds();
    CoinbaseRuleMeans(txs, 2);
    RepeatRuleMeans(Toy(), txs, 2);
    assert txs[..2] == txs && txs[..1] == [Cb(0)];
    assert PaymentInputs([Cb(0)]) == [] && PaymentInputs(txs) == [] + PAY.inputs;
    FirstRepeatMeans([] + PAY.inputs);
  }

  /** With the coinbase of genesis in again, its payment can be afforded again. */
  lemma PaidAgain(v: Utxos, h: nat)
    requires OutPoint(10, 0) in v && v[OutPoint(10, 0)].output == COIN && OutPoint(1, 0) in v
    ensures Affordable(v, PAY) && Clashes(Toy(), v, PAY)
  {
    OneOp(OutPoint(10, 0));
    OneCoin(1, h, false);
    assert Entries(v, PAY.inputs) == [v[OutPoint(10, 0)]];
    assert OutPoint(1, 0) in v - OpSet(Consumed(PAY));
  }

  /** The coinbase of genesis goes in again, is spent again, and the output of that payment is still there. */
  lemma ClashesOnTrust(u: Utxos, h: nat)
    requires OutPoint(10, 0) !in u && OutPoint(1, 0) in u
    ensures var txs := [Cb(0), PAY]; !Collides(Toy(), u, Cb(0)) && TrustedClashes(Toy(), u, txs, h)
  {
    hide Applies, Applied, Affordable, Clashes, SpentBytes;
    var R, txs := Toy(), [Cb(0), PAY];
    var v := u[OutPoint(10, 0) := UtxoEntry(COIN, h, true)];
    OneCoinbase(u, Cb(0), 0, h);
    PaidAgain(v, h);
    assert After(R, u, txs, h, 0) == u && Trusted(R, u, txs, h, 0) && SpentAfter(R, u, txs, h, 0) == [];
    assert After(R, u, txs, h, 1) == v && Trusted(R, u, txs, h, 1) && SpentAfter(R, u, txs, h, 1) == [];
    ToySpentBytes(SpentAfter(R, u, txs, h, 2));
    assert TrustedClashAt(R, u, txs, h, 1);
  }

  /**
   On a chain that satisfies every rule, a block that passes every header rule and whose coinbase collides with
   nothing clashes on the trusted path: its coinbase is one that the chain has spent, and so is its payment.
   */
  lemma TrustedExample() returns (c: seq<Block>, bad: Block)
    ensures Lawful(Toy()) && LawfulBlocks(Toy()) && Committed(Toy(), c) && FollowsHeaders(Toy(), c, bad) && bad.header.height == |c|
    ensures WellListed(Toy(), bad.txs) && !Collides(Toy(), UtxosAt(Toy(), c), bad.txs[0])
    ensures TrustedClashes(Toy(), UtxosAt(Toy(), c), bad.txs, bad.header.height)
  {
    hide Toy, Committed, UtxosAt, FollowsHeaders, Collides, TrustedClashes, NextBlock, Coins, Lawful, LawfulBlocks, WellListed, CoinbaseRule, RepeatRule, FirstRepeat;
    ToyLawful();
    ToyLawfulBlocks();
    c := PaidChain();
    RipeFacts();
    ReplayedBody();
    HeaderOnTop(c, [Cb(0), PAY]);
    bad := NextBlock(c, [Cb(0), PAY]);
    HeadersListed(Toy(), c, bad);
    ClashesOnTrust(UtxosAt(Toy(), c), |c|);
  }

  // ---- A genesis row with another body ----

  const WITNESSED: Tx := Cb(0).(witnesses := [1])

  /** The same header over a body with another witness. */
  lemma ForgedFacts()
    ensures var g, id := NextBlock([], [Cb(0)]), Id(Toy(), NextBlock([], [Cb(0)]));
            var forged := Block(g.header, [WITNESSED]);
            && Id(Toy(), forged) == id && g.header.height == 0 && g.header.prevId == ZERO && !Sealed(Toy(), forged)
            && Accepts(Toy(), map[], forged) && forged.header.stateRoot == StateRoot(Toy(), UtxosAt(Toy(), [forged]))
  {
    hide Code, HeaderCode, Running, UtxosAt, StateRoot, Accepts;
    var forged := Block(NextBlock([], [Cb(0)]).header, [WITNESSED]);
    assert Fits(WITNESSED) && Fits(Cb(0));
    assert [WITNESSED][0] != [Cb(0)][0];
    if Code([WITNESSED]) == Code([Cb(0)]) { CodeInjective([WITNESSED], [Cb(0)]); }
    StartRunning(map[], forged.txs, 0);
    Finished(map[], forged, map[OutPoint(10, 0) := UtxoEntry(COIN, 0, true)]);
    ToyRoot(UtxosAt(Toy(), [forged]));
  }

  /** Whatever body is stored with genesis, the replay accepts it if it applies and has the header's state root. */
  lemma GenesisBodyUnchecked(R: Rules, db: Db, g: Block, stored: Block)
    requires LawfulBlocks(R) && DbInv(R, db, [g]) && stored.header == g.header
    requires Accepts(R, map[], stored) && stored.header.stateRoot == StateRoot(R, UtxosAt(R, [stored]))
    ensures Replays(R, db.(blocks := db.blocks[Id(R, g) := stored]), Id(R, g), Id(R, g), [stored], 0)
  {
    hide LawfulBlocks, DbInv, UtxosAt, StateRoot, Accepts, WorkAt, HeaderPasses, Committed;
    GoodTip(R, db, [g]);
    GoodStep(R, db, [g], 0);
    var changed, p := db.(blocks := db.blocks[Id(R, g) := stored]), [stored];
    assert p[..0] == [] && p[..1] == p && [g][..0] == [];
    NothingYetReplayed(R, changed, Id(R, g), p);
    assert Turned(R, changed, Id(R, g), p, 0, 0);
  }

  /**
   A database that is right but for the witness stored with genesis: the replay accepts the stored body, though
   it is not the one that the header of genesis seals.
   */
  lemma GenesisBodyExample() returns (db: Db, forged: Block)
    ensures Lawful(Toy()) && LawfulBlocks(Toy())
    ensures var g := NextBlock([], [Cb(0)]);
            var id := Id(Toy(), g);
            && DbInv(Toy(), db, [g]) && forged.header == g.header && forged.txs == [WITNESSED]
            && Replays(Toy(), db.(blocks := db.blocks[id := forged]), id, id, [forged], 0) && !Committed(Toy(), [forged])
  {
    hide Toy, Lawful, LawfulBlocks, Committed, DbInv, Extends, UtxosAt, StateRoot, Accepts, NextBlock, Sealed, ToyChain, GenesisDb, Replays, Flows, LogAfter;
    CollidingBlock();
    ToyLawful();
    ToyLawfulBlocks();
    var R, g := Toy(), NextBlock([], [Cb(0)]);
    var spent, log := GenesisGood(R, g);
    db := GenesisDb(R, EMPTY_DB, g, WorkFromTarget(g.header.target), log);
    forged := Block(g.header, [WITNESSED]);
    ForgedFacts();
    GenesisBodyUnchecked(R, db, g, forged);
    ReplayedIff(R, db.(blocks := db.blocks[Id(R, g) := forged]), Id(R, g), Id(R, g), [forged]);
  }
}
