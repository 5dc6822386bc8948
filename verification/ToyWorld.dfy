/**
 A small world of rules in which everything assumed about hashes holds, and a chain in it that satisfies
 every block rule. The failing inputs of `Examples` live on this chain.
 */
module ToyWorld {
  import opened SmtSpec
  import opened SmtArena
  import opened Ledger
  import opened UtxoState
  import opened BlockSpec
  import opened Chain
  import opened MedianTime
  import opened Headers
  import opened Miner
  import opened MiningRound

  const COIN: TxOutput := TxOutput(1000, [], [])
  const HEIGHTS: nat := 1000

  /** The coinbase of a height. */
  function Cb(h: nat): Tx {
    Tx([OutPoint(ZERO, h)], [COIN], [])
  }

  /** Spends the coinbase of genesis. */
  const PAY: Tx := Tx([OutPoint(10, 0)], [COIN], [])

  /** Spends the output of PAY. */
  const CHAINED: Tx := Tx([OutPoint(1, 0)], [COIN], [])

  // ---- Ids ----

  function IdOf(tx: Tx): Option<Hash256> {
    if |tx.inputs| != 1 || tx.outputs != [COIN] then None
    else if tx.inputs[0] == OutPoint(10, 0) then Some(1)
    else if tx.inputs[0] == OutPoint(1, 0) then Some(2)
    else if tx.inputs[0].txId == ZERO && tx.inputs[0].index < HEIGHTS then Some(10 + tx.inputs[0].index)
    else None
  }

  predicate Fits(tx: Tx) {
    IdOf(tx).Some?
  }

  /** An id in two digits of base 128, one mark for each. */
  function KeyOf(op: OutPoint): Key {
    seq(SMT_DEPTH, i => i == op.txId % 128 || i == 128 + op.txId / 128)
  }

  // ---- An injective header id ----

  /** 2 to the power a, times 2b + 1. */
  function Pair(a: nat, b: nat): nat {
    if a == 0 then 2 * b + 1 else 2 * Pair(a - 1, b)
  }

  lemma {:induction false} PairInjective(a: nat, b: nat, c: nat, d: nat)
    requires Pair(a, b) == Pair(c, d)
    ensures a == c && b == d
  {
    if a > 0 && c > 0 { PairInjective(a - 1, b, c - 1, d); }
  }

  function Pack(s: Bytes): nat {
    if s == [] then 0 else 1 + Pair(s[0], Pack(s[1..]))
  }

  lemma {:induction false} PackInjective(a: Bytes, b: Bytes)
    requires Pack(a) == Pack(b)
    ensures a == b
  {
    hide Pair;
    if a != [] && b != [] {
      PairInjective(a[0], Pack(a[1..]), b[0], Pack(b[1..]));
      PackInjective(a[1..], b[1..]);
      assert a == [a[0]] + a[1..] && b == [b[0]] + b[1..];
    }
  }

  function HeaderCode(h: Header): nat {
    Pair(h.height, Pair(h.prevId, Pair(h.timestamp, Pair(h.target, Pair(h.txRoot, Pair(h.stateRoot, Pack(h.seal)))))))
  }

  lemma HeaderCodeInjective(a: Header, b: Header)
    requires HeaderCode(a) == HeaderCode(b)
    ensures a == b
  {
    hide Pair, Pack;
    var a6, b6 := Pair(a.stateRoot, Pack(a.seal)), Pair(b.stateRoot, Pack(b.seal));
    var a5, b5 := Pair(a.txRoot, a6), Pair(b.txRoot, b6);
    var a4, b4 := Pair(a.target, a5), Pair(b.target, b5);
    var a3, b3 := Pair(a.timestamp, a4), Pair(b.timestamp, b4);
    var a2, b2 := Pair(a.prevId, a3), Pair(b.prevId, b3);
    PairInjective(a.height, a2, b.height, b2);
    PairInjective(a.prevId, a3, b.prevId, b3);
    PairInjective(a.timestamp, a4, b.timestamp, b4);
    PairInjective(a.target, a5, b.target, b5);
    PairInjective(a.txRoot, a6, b.txRoot, b6);
    PairInjective(a.stateRoot, Pack(a.seal), b.stateRoot, Pack(b.seal));
    PackInjective(a.seal, b.seal);
  }

  // ---- An injective transaction root ----

  /** The last transaction by its witnesses and its id, and the ones before it. */
  function Code(txs: seq<Tx>): nat {
    if txs == [] then 0
    else
      var tx := txs[|txs| - 1];
      Pair(Pack(tx.witnesses), Code(txs[..|txs| - 1]) * 2048 + if IdOf(tx).Some? then IdOf(tx).value else 0)
  }

  lemma {:induction false} CodeInjective(a: seq<Tx>, b: seq<Tx>)
    requires (forall tx | tx in a :: Fits(tx)) && (forall tx | tx in b :: Fits(tx)) && Code(a) == Code(b)
    ensures a == b
  {
    hide Pair, Pack;
    CodePositive(a);
    CodePositive(b);
    if a != [] {
      var m, n := |a| - 1, |b| - 1;
      var x, y := a[m], b[n];
      assert Fits(x) && Fits(y);
      var p, q := Code(a[..m]) * 2048 + IdOf(x).value, Code(b[..n]) * 2048 + IdOf(y).value;
      PairInjective(Pack(x.witnesses), p, Pack(y.witnesses), q);
      PackInjective(x.witnesses, y.witnesses);
      DigitApart(Code(a[..m]), IdOf(x).value, Code(b[..n]), IdOf(y).value);
      CodeInjective(a[..m], b[..n]);
      assert x.inputs == [x.inputs[0]] && y.inputs == [y.inputs[0]];
      assert a == a[..m] + [x] && b == b[..n] + [y];
    }
  }

  lemma CodePositive(a: seq<Tx>)
    ensures Code(a) > 0 <==> a != []
  {
    if a != [] { PairPositive(Pack(a[|a| - 1].witnesses)); }
  }

  lemma {:induction false} PairPositive(a: nat)
    ensures forall b: nat :: Pair(a, b) > 0
  {
    if a > 0 { PairPositive(a - 1); }
  }

  lemma DigitApart(p: nat, x: nat, q: nat, y: nat)
    requires x < 2048 && y < 2048 && p * 2048 + x == q * 2048 + y
    ensures p == q && x == y
  {
  }

  // ---- The rules ----

  function Toy(): Rules {
    Rules(
      IdOf,
      (o: TxOutput) => Some(1),
      KeyOf,
      (e: UtxoEntry) => 0,
      (a, b) => 0,
      Fits,
      (tx: Tx) => true,
      (o: TxOutput) => true,
      (tx: Tx) => true,
      (tx: Tx, es: seq<UtxoEntry>, h: nat) => true,
      (tx: Tx, es: seq<UtxoEntry>, h: nat) => 0,
      (tx: Tx, h: nat) => true,
      (h: nat) => 1000,
      (h: Header) => 1 + HeaderCode(h),
      (h: Header) => true,
      (h: Header) => true,
      (txs: seq<Tx>) => if forall tx | tx in txs :: Fits(tx) then Some(Code(txs)) else None,
      (b: Block) => Some(0))
  }

  lemma ToyIds()
    ensures IdInjective(Toy()) && IdCoversOutputs(Toy())
  {
    forall a: Tx, b: Tx | IdOf(a).Some? && IdOf(a) == IdOf(b) ensures a.inputs == b.inputs && a.outputs == b.outputs {
      assert a.inputs == [a.inputs[0]] && b.inputs == [b.inputs[0]];
    }
  }

  lemma ToyKnown(op: OutPoint)
    requires Known(Toy(), op)
    ensures op.index == 0 && op.txId < 2048
  {
    var tx :| IdOf(tx) == Some(op.txId) && op.index < |tx.outputs|;
  }

  lemma ToyLawful()
    ensures Lawful(Toy())
  {
    hide IdInjective, IdCoversOutputs, Known;
    ToyIds();
    var R := Toy();
    forall a, b | Known(R, a) && Known(R, b) && R.leafKey(a) == R.leafKey(b) ensures a == b {
      ToyKnown(a);
      ToyKnown(b);
      KeysApart(a, b);
    }
  }

  lemma KeysApart(a: OutPoint, b: OutPoint)
    requires a.txId < 2048 && b.txId < 2048 && KeyOf(a) == KeyOf(b)
    ensures a.txId == b.txId
  {
    assert KeyOf(a)[a.txId % 128] && KeyOf(b)[a.txId % 128];
    assert KeyOf(a)[128 + a.txId / 128] && KeyOf(b)[128 + a.txId / 128];
  }

  lemma ToyLawfulBlocks()
    ensures LawfulBlocks(Toy())
  {
    hide Code, HeaderCode, NoRepeats, Fits;
    var R := Toy();
    forall a: Header, b: Header | R.blockId(a) == R.blockId(b) ensures a == b { HeaderCodeInjective(a, b); }
    forall a, b | R.txRoot(a).Some? && R.txRoot(a) == R.txRoot(b) && NoRepeats(R, a) && NoRepeats(R, b) ensures a == b {
      CodeInjective(a, b);
    }
  }

  lemma ToyRoot(u: Utxos)
    ensures StateRoot(Toy(), u) == 0
  {
    assert EmptyHash(Toy().hash2, SMT_DEPTH) == 0;
  }

  // ---- One transaction ----

  lemma OneOp(op: OutPoint)
    ensures OpSet([op]) == {op} && OpSet([]) == {}
  {
    assert [op][0] == op;
  }

  lemma OneCoin(id: Hash256, h: nat, coinbase: bool)
    ensures Created(id, [COIN], h, coinbase) == map[OutPoint(id, 0) := UtxoEntry(COIN, h, coinbase)]
    ensures SumOutputs([COIN]) == 1000 && forall e: UtxoEntry :: SumEntries([e]) == e.output.value
  {
    assert [COIN][..0] == [];
    forall e: UtxoEntry ensures SumEntries([e]) == e.output.value { assert [e][..0] == []; }
  }

  /** A coinbase of this height, with whatever witness. */
  ghost predicate CbOf(tx: Tx, h: nat) {
    h < HEIGHTS && tx == Cb(h).(witnesses := tx.witnesses)
  }

  lemma OneCoinbase(u: Utxos, tx: Tx, named: nat, h: nat)
    requires CbOf(tx, named) && OutPoint(10 + named, 0) !in u
    ensures var R := Toy();
            && Applies(R, u, tx) && IdOf(tx) == Some(10 + named) && SpentOf(u, tx) == []
            && Applied(R, u, tx, h) == u[OutPoint(10 + named, 0) := UtxoEntry(COIN, h, true)]
  {
    OneOp(OutPoint(0, 0));
    OneCoin(10 + named, h, true);
    assert u - {} == u;
  }

  lemma OnePayment(u: Utxos, h: nat, op: OutPoint, tx: Tx, id: Hash256)
    requires tx == Tx([op], [COIN], []) && op.txId != ZERO && IdOf(tx) == Some(id)
    requires op in u && u[op].output == COIN && Mature(u[op], h) && OutPoint(id, 0) !in u
    ensures var R := Toy();
            && Applies(R, u, tx) && ValidateTx(R, u, tx, h) == Ok(0) && SpentOf(u, tx) == [(op, u[op])]
            && Applied(R, u, tx, h) == (u - {op})[OutPoint(id, 0) := UtxoEntry(COIN, h, false)]
  {
    OneOp(op);
    OneCoin(id, h, false);
    NoBadOutput(Toy(), tx.outputs);
    NoBadInput(u, tx.inputs, h);
    assert Entries(u, tx.inputs) == [u[op]];
  }

  lemma {:induction false} ToySpentBytes(s: SpentList)
    ensures SpentBytes(Toy(), s) == 54 * |s|
  {
    if s != [] { ToySpentBytes(s[..|s| - 1]); }
  }

  // ---- Blocks ----

  /** The state of a run that started with the height's coinbase and takes no fees. */
  ghost predicate Running(u: Utxos, txs: seq<Tx>, h: nat, n: nat, now: Utxos) {
    && 0 < n <= |txs| && CbOf(txs[0], h)
    && Ran(Toy(), u, txs, h, n) && FeesAfter(Toy(), u, txs, h, n) == 0
    && |SpentAfter(Toy(), u, txs, h, n)| < n && After(Toy(), u, txs, h, n) == now
  }

  lemma StartRunning(u: Utxos, txs: seq<Tx>, h: nat)
    requires txs != [] && CbOf(txs[0], h) && OutPoint(10 + h, 0) !in u
    ensures Running(u, txs, h, 1, u[OutPoint(10 + h, 0) := UtxoEntry(COIN, h, true)])
  {
    var R := Toy();
    OneCoinbase(u, txs[0], h, h);
    hide Applies, Applied, SpentOf;
    assert Ran(R, u, txs, h, 0) && After(R, u, txs, h, 0) == u && SpentAfter(R, u, txs, h, 0) == [];
  }

  lemma KeepRunning(u: Utxos, txs: seq<Tx>, h: nat, n: nat, now: Utxos, op: OutPoint, id: Hash256)
    requires n < |txs| && Running(u, txs, h, n, now) && txs[n] == Tx([op], [COIN], []) && op.txId != ZERO && IdOf(txs[n]) == Some(id)
    requires op in now && now[op].output == COIN && Mature(now[op], h) && OutPoint(id, 0) !in now
    ensures Running(u, txs, h, n + 1, (now - {op})[OutPoint(id, 0) := UtxoEntry(COIN, h, false)])
  {
    hide Ran, After, Applies, Applied, SpentOf, ValidateTx, FeesAfter;
    OnePayment(now, h, op, txs[n], id);
    RanNext(Toy(), u, txs, h, n);
  }

  lemma Finished(u: Utxos, block: Block, now: Utxos)
    requires |block.txs| <= 100 && Running(u, block.txs, block.header.height, |block.txs|, now)
    ensures Accepts(Toy(), u, block)
  {
    hide Ran, After, SpentAfter, SpentBytes, FeesAfter;
    var n, h := |block.txs|, block.header.height;
    ToySpentBytes(SpentAfter(Toy(), u, block.txs, h, n));
    OneCoin(10 + h, h, true);
  }

  function NextBlock(c: seq<Block>, txs: seq<Tx>): Block
    requires |c| < HEIGHTS
  {
    Block(Header(|c|, if c == [] then ZERO else Id(Toy(), c[|c| - 1]), |c|, 0, Code(txs), 0, []), txs)
  }

  /** Block times are heights and the target never moves. */
  ghost predicate Regular(c: seq<Block>) {
    forall i | 0 <= i < |c| :: c[i].header.timestamp == i && c[i].header.target == 0
  }

  ghost predicate GoodChain(c: seq<Block>) {
    Committed(Toy(), c) && Regular(c) && |c| <= HEIGHTS
  }

  lemma NextTime(c: seq<Block>)
    requires GoodChain(c) && c != [] && |c| < HEIGHTS
    ensures ClampTime(|c|, Mtp(Timestamps(c)) + 1, LatestTime(c[|c| - 1].header.timestamp)) == |c| && NextTarget(c) == 0
    ensures c[0].header.timestamp <= LATEST_GENESIS
  {
    hide Committed, Mtp;
    CommittedTimes(Toy(), c);
    MtpBelowParent(Timestamps(c));
  }

  lemma NextShape(c: seq<Block>, txs: seq<Tx>)
    requires |c| < HEIGHTS && forall tx | tx in txs :: Fits(tx)
    ensures var R, b := Toy(), NextBlock(c, txs);
            && b.txs == txs && b.header.height == |c| && b.header.timestamp == |c| && b.header.target == 0
            && b.header.prevId == (if c == [] then ZERO else Id(R, c[|c| - 1]))
            && R.txRoot(txs) == Some(b.header.txRoot) && b.header.stateRoot == 0
            && R.version(b.header) && R.pow(b.header) && R.blockSize(b) == Some(0)
  {
    hide Code, HeaderCode, Fits;
  }

  /** A block of fitting transactions that block application accepts extends the chain. */
  lemma NextExtends(c: seq<Block>, txs: seq<Tx>)
    requires GoodChain(c) && |c| < HEIGHTS && txs != [] && IsCoinbase(txs[0]) && (forall tx | tx in txs :: Fits(tx))
    requires Accepts(Toy(), UtxosAt(Toy(), c), NextBlock(c, txs))
    ensures Extends(Toy(), c, NextBlock(c, txs)) && GoodChain(c + [NextBlock(c, txs)])
  {
    hide Toy, NextBlock, Committed, Extends, UtxosAt, Accepts, After, StateRoot, Mtp, NextTarget, Lawful, Fits, Timestamps;
    var R, b := Toy(), NextBlock(c, txs);
    NextShape(c, txs);
    ToyLawful();
    ToyRoot(After(R, UtxosAt(R, c), txs, |c|, |txs|));
    GrowsTo(R, c, b);
    if c == [] {
      FirstExtends(R, b);
    } else {
      NextTime(c);
      TemplateExtends(R, c, b, |c|);
    }
    CommittedSnoc(R, c, b);
  }

  /** A first block needs no parent. */
  lemma FirstExtends(R: Rules, b: Block)
    requires Lawful(R) && Accepts(R, UtxosAt(R, []), b) && b.txs != [] && IsCoinbase(b.txs[0])
    requires b.header.height == 0 && b.header.prevId == ZERO && R.txRoot(b.txs) == Some(b.header.txRoot)
    requires b.header.stateRoot == StateRoot(R, UtxosAt(R, [] + [b]))
    ensures Extends(R, [], b)
  {
    hide Lawful, UtxosAt, Accepts, StateRoot, NoRepeats;
    BlockApart(R, [], b);
  }

  // ---- A chain of coinbases ----

  function ToyChain(n: nat): (c: seq<Block>)
    requires n <= HEIGHTS
    ensures |c| == n
  {
    if n == 0 then [] else var c := ToyChain(n - 1); c + [NextBlock(c, [Cb(n - 1)])]
  }

  ghost function Coins(n: nat): Utxos {
    if n == 0 then map[] else Coins(n - 1)[OutPoint(10 + n - 1, 0) := UtxoEntry(COIN, n - 1, true)]
  }

  lemma {:induction false} CoinsAt(n: nat, op: OutPoint)
    ensures op in Coins(n) <==> op.index == 0 && 10 <= op.txId < 10 + n
    ensures op in Coins(n) ==> Coins(n)[op] == UtxoEntry(COIN, op.txId - 10, true)
  {
    if n > 0 { CoinsAt(n - 1, op); }
  }

  /** In this world there are chains of every length up to HEIGHTS that satisfy every block rule. */
  lemma {:induction false} ToyChainGood(n: nat)
    requires n <= HEIGHTS
    ensures Lawful(Toy()) && LawfulBlocks(Toy()) && GoodChain(ToyChain(n)) && UtxosAt(Toy(), ToyChain(n)) == Coins(n)
  {
    hide Lawful, LawfulBlocks, Committed, Extends, After, Accepts, Running, Fits, NextBlock;
    ToyLawful();
    ToyLawfulBlocks();
    if n == 0 {
      NoChain();
    } else {
      var c, txs := ToyChain(n - 1), [Cb(n - 1)];
      ToyChainGood(n - 1);
      CoinbaseBlock(c);
    }
  }

  lemma NoChain()
    ensures GoodChain([]) && UtxosAt(Toy(), []) == map[]
  {
  }

  lemma CoinbaseBlock(c: seq<Block>)
    requires GoodChain(c) && |c| < HEIGHTS && UtxosAt(Toy(), c) == Coins(|c|)
    ensures var d := c + [NextBlock(c, [Cb(|c|)])]; GoodChain(d) && UtxosAt(Toy(), d) == Coins(|c| + 1)
  {
    hide Lawful, Committed, UtxosAt, Accepts, After, Running, Extends, GoodChain;
    var txs, b := [Cb(|c|)], NextBlock(c, [Cb(|c|)]);
    CoinsAt(|c|, OutPoint(10 + |c|, 0));
    StartRunning(Coins(|c|), txs, |c|);
    Finished(Coins(|c|), b, Coins(|c| + 1));
    FinalMap(Coins(|c|), txs, |c|, Coins(|c| + 1));
    NextExtends(c, txs);
    GrowsTo(Toy(), c, b);
  }

  lemma FinalMap(u: Utxos, txs: seq<Tx>, h: nat, now: Utxos)
    requires Running(u, txs, h, |txs|, now)
    ensures After(Toy(), u, txs, h, |txs|) == now
  {
  }
}
