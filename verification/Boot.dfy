/**
 Opening a stored chain: replaying it from genesis, or trusting the persisted snapshot after a structural
 walk. On every database that is right for a chain all ways return that chain's tip, work and UTXO map.
 */
module Boot {
  import opened SmtSpec
  import opened SmtArena
  import opened WorkSpec
  import opened Ledger
  import opened UtxoState
  import opened BlockSpec
  import opened BlockApply
  import opened Chain
  import opened DiskUndo
  import opened MedianTime
  import opened Headers
  import opened Ancestry
  import opened ForkChoice
  import opened StorageSpec
  import opened Storage
  import opened StorageInv
  import opened StorageRuns

  const ASSUME_VALID_HEIGHT: nat := 500_000

  datatype BootError =
    | MissingTipHeader
    | MissingHeight(height: nat)
    | WrongGenesis
    | MissingBlock(height: nat)
    | BrokenLink(height: nat)
    | MissingParent(height: nat)
    | MissingAncestor(height: nat)
    | BadHeader(height: nat, header: HeaderError)
    | ApplyFailed(height: nat, reason: BlockError)
    | StateRootMismatch(height: nat)
    | TipMismatch
    | NotEmpty
    | CannotBootstrap
    | GenesisFailed
    | WriteFailed
    | BadSnapshot

  // ---- Reading and checking one block ----

  /** The index, the body table and the link to the previous block agree at this height. */
  ghost predicate Readable(R: Rules, db: Db, height: nat, prevId: Hash256, genesisId: Hash256) {
    && height in db.heightIndex
    && var id := db.heightIndex[height];
    && (height == 0 ==> id == genesisId) && id in db.blocks && Id(R, db.blocks[id]) == id
    && db.blocks[id].header.prevId == prevId
  }

  method ReadBlock(R: Rules, db: Db, height: nat, prevId: Hash256, genesisId: Hash256) returns (r: Result<Block, BootError>)
    ensures r.Ok? <==> Readable(R, db, height, prevId, genesisId)
    ensures r.Ok? ==> r.value == db.blocks[db.heightIndex[height]]
  {
    if height !in db.heightIndex { return Err(MissingHeight(height)); }
    var id := db.heightIndex[height];
    if height == 0 && id != genesisId { return Err(WrongGenesis); }
    if id !in db.blocks || Id(R, db.blocks[id]) != id { return Err(MissingBlock(height)); }
    if db.blocks[id].header.prevId != prevId { return Err(BrokenLink(height)); }
    r := Ok(db.blocks[id]);
  }

  /** The header rules hold against the ancestors that the header table knows. */
  ghost predicate HeaderPasses(R: Rules, t: HeaderTable, block: Block, skipPow: bool) {
    var prev := block.header.prevId;
    && prev in t && TargetOver(t, prev, block.header.height).Ok?
    && ValidateHeader(R, block, Some(t[prev]), TimesOver(t, prev, MTP_WINDOW),
                      TargetOver(t, prev, block.header.height).value, None, skipPow).None?
  }

  method CheckHeader(R: Rules, t: HeaderTable, block: Block, skipPow: bool) returns (err: Option<BootError>)
    ensures err.None? <==> HeaderPasses(R, t, block, skipPow)
  {
    hide TargetOver, TimesOver, ValidateHeader;
    var prev, height := block.header.prevId, block.header.height;
    if prev !in t { return Some(MissingParent(height)); }
    var ancestors := GetAncestorTimestamps(t, prev, MTP_WINDOW);
    var target := ExpectedDifficulty(t, prev, height);
    if target.Err? { return Some(MissingAncestor(height)); }
    var bad := ValidateBlockHeader(R, block, Some(t[prev]), ancestors, target.value, None, skipPow);
    err := if bad.Some? then Some(BadHeader(height, bad.value)) else None;
  }

  lemma SkipPow(R: Rules, block: Block, parent: Option<Header>, ancestors: seq<nat>, target: U256)
    requires ValidateHeader(R, block, parent, ancestors, target, None, false).None?
    ensures ValidateHeader(R, block, parent, ancestors, target, None, true).None?
  {
    hide ValidateBody, TimeRule, HeightRule;
  }

  /** What the check says about the parent's row and the body. */
  lemma PassedFacts(R: Rules, t: HeaderTable, block: Block, skipPow: bool)
    requires HeaderPasses(R, t, block, skipPow)
    ensures var prev := block.header.prevId;
            prev in t && R.blockId(t[prev]) == prev && block.header.height == t[prev].height + 1
    ensures block.txs != [] && IsCoinbase(block.txs[0])
  {
    hide TargetOver, TimesOver, ValidateHeader;
    var prev := block.header.prevId;
    ValidHeaderFacts(R, block, t[prev], TimesOver(t, prev, MTP_WINDOW), TargetOver(t, prev, block.header.height).value, None, skipPow);
  }

  lemma PassesTrusted(R: Rules, t: HeaderTable, block: Block)
    requires HeaderPasses(R, t, block, false)
    ensures HeaderPasses(R, t, block, true)
  {
    hide TargetOver, TimesOver, ValidateHeader;
    var prev := block.header.prevId;
    SkipPow(R, block, Some(t[prev]), TimesOver(t, prev, MTP_WINDOW), TargetOver(t, prev, block.header.height).value);
  }

  /** With the headers of the chain in the table, the check is the rule for following that chain. */
  lemma PassesIffFollows(R: Rules, t: HeaderTable, p: seq<Block>, block: Block)
    requires LawfulBlocks(R) && Linked(R, p) && p != [] && HasHeaders(R, t, p)
    requires block.header.prevId == Id(R, p[|p| - 1]) && block.header.height == |p|
    ensures HeaderPasses(R, t, block, false) <==> FollowsHeaders(R, p, block)
  {
    hide LawfulBlocks, Linked, TargetOver, TimesOver, ValidateHeader, NextTarget;
    var n := |p| - 1;
    TargetOnChain(R, t, p);
    TimesOnChain(R, t, p, n, MTP_WINDOW);
    assert p[..n + 1] == p;
  }

  /** Apply with validation, or trusting it. */
  method ApplyBlock(utxo: UtxoSet, block: Block, trusted: bool) returns (err: Option<BlockError>)
    requires utxo.Valid() && block.txs != [] && IsCoinbase(block.txs[0])
    modifies utxo, utxo.smt
    ensures utxo.Valid()
    ensures err.None? <==> if trusted then TrustedAccepts(utxo.R, old(utxo.utxos), block) else Accepts(utxo.R, old(utxo.utxos), block)
    ensures err.None? ==> utxo.utxos == After(utxo.R, old(utxo.utxos), block.txs, block.header.height, |block.txs|)
  {
    hide Accepts, TrustedAccepts, After, Flows, UtxoSet.Valid, Safe, Clean, Collides, FeesAfter, LogAfter, TrustedFees;
    var r;
    if trusted {
      r := ApplyBlockAssumeValid(utxo, block);
    } else {
      r := ValidateAndApplyBlockAtomic(utxo, block);
    }
    err := if r.Err? then Some(r.error) else None;
  }

  // ---- The chain as the tables show it ----

  /** Every stored block that claims height 0, and so is not checked, starts with a coinbase. */
  ghost predicate CoinbaseFirst(db: Db) {
    forall id | id in db.blocks && db.blocks[id].header.height == 0 :: db.blocks[id].txs != [] && IsCoinbase(db.blocks[id].txs[0])
  }

  function TipOf(R: Rules, c: seq<Block>): ChainTip
    requires c != []
  {
    ChainTip(Id(R, c[|c| - 1]), |c| - 1, WorkAt(c))
  }

  /** On a database that is right for `c`, every block of `c` can be read, checked and applied in turn. */
  lemma GoodStep(R: Rules, db: Db, c: seq<Block>, h: nat)
    requires LawfulBlocks(R) && DbInv(R, db, c) && h < |c|
    ensures Readable(R, db, h, PrevOf(R, c[..h]), Id(R, c[0])) && db.blocks[db.heightIndex[h]] == c[h]
    ensures h > 0 ==> HeaderPasses(R, db.headers, c[h], false)
    ensures Accepts(R, UtxosAt(R, c[..h]), c[h]) && c[h].header.stateRoot == StateRoot(R, UtxosAt(R, c[..h + 1]))
    ensures c[h].header.height == h && Committed(R, c[..h]) && c[..h] + [c[h]] == c[..h + 1]
  {
    hide LawfulBlocks, Committed, Accepts, UtxosAt, StateRoot, Sealed, HeaderPasses, RowsOk, UtxosOk, IndexesOk, WalkOk, WorkAt, SpentRow, FollowsHeaders;
    assert Resolves(R, db, c, h);
    CommittedAt(R, c, h);
    BlockFacts(R, c, h);
    assert c[..h] + [c[h]] == c[..h + 1];
    if h > 0 {
      ChainHeaders(R, db, c, h);
      CommittedLinked(R, c[..h]);
      PassesIffFollows(R, db.headers, c[..h], c[h]);
    }
  }

  lemma ChainHeaders(R: Rules, db: Db, c: seq<Block>, h: nat)
    requires ChainOk(R, db, c) && h <= |c|
    ensures HasHeaders(R, db.headers, c[..h])
  {
    hide WorkAt, SpentRow;
    forall i | 0 <= i < h ensures Id(R, c[..h][i]) in db.headers && db.headers[Id(R, c[..h][i])] == c[..h][i].header {
      assert Resolves(R, db, c, i);
    }
  }

  /** What a right database says about its tip. */
  lemma GoodTip(R: Rules, db: Db, c: seq<Block>)
    requires DbInv(R, db, c)
    ensures c != [] && db.tip == Some(Id(R, c[|c| - 1])) && Id(R, c[|c| - 1]) in db.headers
    ensures db.headers[Id(R, c[|c| - 1])] == c[|c| - 1].header && c[|c| - 1].header.height == |c| - 1
    ensures 0 in db.heightIndex && db.heightIndex[0] == Id(R, c[0]) && c[..|c|] == c
    ensures Id(R, c[|c| - 1]) in db.work && db.work[Id(R, c[|c| - 1])] == WorkAt(c)
  {
    hide Committed, RowsOk, UtxosOk, IndexesOk, WalkOk, WorkAt, SpentRow, Sealed;
    assert Resolves(R, db, c, 0) && Resolves(R, db, c, |c| - 1);
    BlockFacts(R, c, |c| - 1);
    assert c[..|c|] == c;
  }

  /** Of two chains the one with more work is preferred, and between equals the longer one; every extension is. */
  lemma MoreWorkWins(R: Rules, a: seq<Block>, b: seq<Block>)
    requires a != [] && b != []
    ensures WorkAt(a) > WorkAt(b) ==> IsBetterChain(TipOf(R, a), TipOf(R, b)) && !IsBetterChain(TipOf(R, b), TipOf(R, a))
    ensures WorkAt(a) == WorkAt(b) ==> (IsBetterChain(TipOf(R, a), TipOf(R, b)) <==> |a| > |b|)
    ensures forall block :: IsBetterChain(TipOf(R, a + [block]), TipOf(R, a))
  {
    hide WorkAt, WorkFromTarget, IsBetterChain;
    WorkDecides(TipOf(R, a), TipOf(R, b));
    WorkDecides(TipOf(R, b), TipOf(R, a));
    forall block ensures IsBetterChain(TipOf(R, a + [block]), TipOf(R, a)) {
      Grown(R, a, block);
      ChildIsBetter(TipOf(R, a), Id(R, block), block.header.target);
    }
  }

  lemma Grown(R: Rules, p: seq<Block>, b: Block)
    ensures UtxosAt(R, p + [b]) == After(R, UtxosAt(R, p), b.txs, b.header.height, |b.txs|)
    ensures WorkAt(p + [b]) == AddWork(WorkAt(p), WorkFromTarget(b.header.target))
    ensures PrevOf(R, p + [b]) == Id(R, b)
  {
    hide After;
    assert (p + [b])[..|p|] == p;
  }

  // ---- Replay ----

  /** Is the assume-valid checkpoint stored? */
  function Proven(db: Db, assumeValid: bool, tipHeight: nat, checkpoint: Hash256): bool {
    && assumeValid && tipHeight >= ASSUME_VALID_HEIGHT
    && ASSUME_VALID_HEIGHT in db.heightIndex && db.heightIndex[ASSUME_VALID_HEIGHT] == checkpoint
  }

  /** Reading the next block and, above height 0, checking its header. */
  method ReadChecked(R: Rules, db: Db, height: nat, prevId: Hash256, genesisId: Hash256, trusted: bool)
    returns (r: Result<Block, BootError>)
    ensures r.Ok? <==> Readable(R, db, height, prevId, genesisId) && PassesAbove(R, db, height, trusted)
    ensures r.Ok? ==> r.value == db.blocks[db.heightIndex[height]]
  {
    hide HeaderPasses;
    r := ReadBlock(R, db, height, prevId, genesisId);
    if r.Err? { return; }
    if r.value.header.height > 0 {
      var bad := CheckHeader(R, db.headers, r.value, trusted);
      if bad.Some? { return Err(bad.value); }
    }
  }

  ghost predicate PassesAbove(R: Rules, db: Db, height: nat, trusted: bool) {
    && height in db.heightIndex && db.heightIndex[height] in db.blocks
    && var b := db.blocks[db.heightIndex[height]];
    b.header.height > 0 ==> HeaderPasses(R, db.headers, b, trusted)
  }

  /** Applying it and comparing the state root with the header's. */
  method ApplyRooted(utxo: UtxoSet, block: Block, trusted: bool, height: nat) returns (err: Option<BootError>)
    requires utxo.Valid() && block.txs != [] && IsCoinbase(block.txs[0])
    modifies utxo, utxo.smt
    ensures utxo.Valid()
    ensures err.None? ==> utxo.utxos == After(utxo.R, old(utxo.utxos), block.txs, block.header.height, |block.txs|)
    ensures err.None? <==>
              && (if trusted then TrustedAccepts(utxo.R, old(utxo.utxos), block) else Accepts(utxo.R, old(utxo.utxos), block))
              && block.header.stateRoot == StateRoot(utxo.R, After(utxo.R, old(utxo.utxos), block.txs, block.header.height, |block.txs|))
  {
    hide Accepts, TrustedAccepts, After, StateRoot, UtxoSet.Valid;
    var bad := ApplyBlock(utxo, block, trusted);
    if bad.Some? { return Some(ApplyFailed(height, bad.value)); }
    var root := utxo.GetStateRoot();
    err := if root != block.header.stateRoot then Some(StateRootMismatch(height)) else None;
  }

  /** Block `k` of `p` is what the replay reads, checks and applies at its turn, trusting it below the given height. */
  ghost predicate Turned(R: Rules, db: Db, genesisId: Hash256, p: seq<Block>, k: nat, below: nat)
    requires k < |p|
  {
    && Readable(R, db, k, PrevOf(R, p[..k]), genesisId) && p[k] == db.blocks[db.heightIndex[k]]
    && PassesAbove(R, db, k, k < below)
    && (if k < below then TrustedAccepts(R, UtxosAt(R, p[..k]), p[k]) else Accepts(R, UtxosAt(R, p[..k]), p[k]))
    && p[k].header.stateRoot == StateRoot(R, UtxosAt(R, p[..k + 1]))
  }

  /** Every block had its turn, those below the given height trusted and the others validated. */
  ghost predicate AllTurned(R: Rules, db: Db, genesisId: Hash256, p: seq<Block>, below: nat) {
    forall k | 0 <= k < |p| :: Turned(R, db, genesisId, p, k, below)
  }

  /** `p` is what a replay that trusts the blocks below the given height reads from the tables. */
  ghost predicate Replays(R: Rules, db: Db, tipId: Hash256, genesisId: Hash256, p: seq<Block>, below: nat) {
    tipId in db.headers && |p| == db.headers[tipId].height + 1 && PrevOf(R, p) == tipId && AllTurned(R, db, genesisId, p, below)
  }

  lemma TurnedSnoc(R: Rules, db: Db, genesisId: Hash256, p: seq<Block>, b: Block, below: nat)
    requires AllTurned(R, db, genesisId, p, below)
    requires Readable(R, db, |p|, PrevOf(R, p), genesisId) && b == db.blocks[db.heightIndex[|p|]]
    requires PassesAbove(R, db, |p|, |p| < below)
    requires if |p| < below then TrustedAccepts(R, UtxosAt(R, p), b) else Accepts(R, UtxosAt(R, p), b)
    requires b.header.stateRoot == StateRoot(R, UtxosAt(R, p + [b]))
    ensures AllTurned(R, db, genesisId, p + [b], below)
  {
    hide Readable, PassesAbove, Accepts, TrustedAccepts, UtxosAt, StateRoot, PrevOf;
    var q := p + [b];
    assert q[..|p|] == p && q[..|p| + 1] == q;
    forall k | 0 <= k < |q| ensures Turned(R, db, genesisId, q, k, below) {
      if k < |p| {
        assert Turned(R, db, genesisId, p, k, below);
        assert q[..k] == p[..k] && q[..k + 1] == p[..k + 1];
      }
    }
  }

  /** What a turn says about links and claimed heights; `under` is the block before. */
  lemma TurnFacts(R: Rules, db: Db, genesisId: Hash256, p: seq<Block>, k: nat)
    requires LawfulBlocks(R) && k < |p| && Turned(R, db, genesisId, p, k, 0)
    ensures Id(R, p[k]) in db.blocks && db.blocks[Id(R, p[k])] == p[k] && p[k].header.prevId == PrevOf(R, p[..k])
    ensures k == 0 ==> Id(R, p[0]) == genesisId && p[0].header.height == 0
    ensures k > 0 && p[k].header.height > 0 ==>
              var under := p[k - 1];
              && HeaderPasses(R, db.headers, p[k], false)
              && Id(R, under) in db.headers && db.headers[Id(R, under)] == under.header && p[k].header.height == under.header.height + 1
  {
    hide HeaderPasses, Accepts, UtxosAt, StateRoot;
    if p[k].header.height > 0 { PassedFacts(R, db.headers, p[k], false); }
  }

  /** If the last block claims its position, so do all, and all but the last have their header in the table. */
  lemma {:induction false} ClaimsExactly(R: Rules, db: Db, genesisId: Hash256, p: seq<Block>, k: nat)
    requires LawfulBlocks(R) && k < |p| && AllTurned(R, db, genesisId, p, 0) && p[|p| - 1].header.height == |p| - 1
    ensures p[k].header.height == k
    ensures k < |p| - 1 ==> Id(R, p[k]) in db.headers && db.headers[Id(R, p[k])] == p[k].header
    decreases |p| - k
  {
    hide LawfulBlocks, Turned, HeaderPasses, PrevOf;
    if k < |p| - 1 {
      ClaimsExactly(R, db, genesisId, p, k + 1);
      TurnFacts(R, db, genesisId, p, k + 1);
    }
  }

  lemma {:induction false} TurnedCommitted(R: Rules, db: Db, genesisId: Hash256, p: seq<Block>, n: nat)
    requires LawfulBlocks(R) && n <= |p| && p != [] && AllTurned(R, db, genesisId, p, 0)
    requires p[|p| - 1].header.height == |p| - 1 && Sealed(R, p[0])
    ensures Committed(R, p[..n])
    decreases n
  {
    hide LawfulBlocks, Sealed, HeaderPasses, UtxosAt, StateRoot, Accepts, Committed, Turned, AllTurned, TargetOver, TimesOver, ValidateHeader, NextTarget;
    if n == 0 {
      NoneCommitted(R);
    } else {
      var q, b := p[..n - 1], p[n - 1];
      TurnedCommitted(R, db, genesisId, p, n - 1);
      TurnAt(R, db, genesisId, p, 0, n - 1);
      TurnAccepts(R, db, genesisId, p, n - 1);
      TurnFacts(R, db, genesisId, p, n - 1);
      ClaimsExactly(R, db, genesisId, p, n - 1);
      if n > 1 {
        forall i | 0 <= i < n - 1 ensures Id(R, q[i]) in db.headers && db.headers[Id(R, q[i])] == q[i].header {
          ClaimsExactly(R, db, genesisId, p, i);
        }
        CommittedLinked(R, q);
        PassesIffFollows(R, db.headers, q, b);
      }
      assert q + [b] == p[..n];
      CommittedSnoc(R, q, b);
    }
  }

  lemma TurnAccepts(R: Rules, db: Db, genesisId: Hash256, p: seq<Block>, k: nat)
    requires k < |p| && Turned(R, db, genesisId, p, k, 0)
    ensures Accepts(R, UtxosAt(R, p[..k]), p[k]) && p[k].header.stateRoot == StateRoot(R, UtxosAt(R, p[..k + 1]))
  {
    hide Accepts, UtxosAt, StateRoot, HeaderPasses;
  }

  lemma NoneCommitted(R: Rules)
    ensures Committed(R, [])
  {
  }

  /**
   From whatever tables it was read, a replayed chain satisfies every rule if and only if the stored genesis
   body is the one its header seals and the row of the tip claims the tip's height.
   */
  lemma ReplayedIff(R: Rules, db: Db, tipId: Hash256, genesisId: Hash256, p: seq<Block>)
    requires LawfulBlocks(R) && Replays(R, db, tipId, genesisId, p, 0)
    ensures tipId in db.headers && tipId in db.blocks && genesisId in db.blocks && p != [] && Id(R, p[0]) == genesisId
    ensures Committed(R, p) <==> Sealed(R, db.blocks[genesisId]) && db.blocks[tipId].header.height == db.headers[tipId].height
  {
    hide LawfulBlocks, Sealed, Turned, HeaderPasses, Committed;
    var n := |p| - 1;
    TurnFacts(R, db, genesisId, p, 0);
    TurnFacts(R, db, genesisId, p, n);
    assert p[..n + 1] == p;
    if Committed(R, p) {
      BlockFacts(R, p, 0);
      BlockFacts(R, p, n);
    }
    if Sealed(R, p[0]) && p[n].header.height == n {
      TurnedCommitted(R, db, genesisId, p, n + 1);
    }
  }

  /** On a database that is right for a chain, that chain is what a replay reads. */
  lemma GoodReplays(R: Rules, db: Db, c: seq<Block>)
    requires LawfulBlocks(R) && DbInv(R, db, c)
    ensures c != [] && db.tip.Some? && Replays(R, db, db.tip.value, Id(R, c[0]), c, 0)
  {
    hide LawfulBlocks, DbInv, Committed, Readable, HeaderPasses, UtxosAt, StateRoot, Accepts, WorkAt;
    GoodTip(R, db, c);
    forall k | 0 <= k < |c| ensures Turned(R, db, Id(R, c[0]), c, k, 0) {
      GoodStep(R, db, c, k);
      ReadableRow(R, db, k, PrevOf(R, c[..k]), Id(R, c[0]));
    }
  }

  lemma ReadableRow(R: Rules, db: Db, height: nat, prevId: Hash256, genesisId: Hash256)
    requires Readable(R, db, height, prevId, genesisId)
    ensures height in db.heightIndex && db.heightIndex[height] in db.blocks
  {
  }

  /** A block that passes its turn validated also passes it trusted. */
  lemma TurnTrusted(R: Rules, db: Db, genesisId: Hash256, p: seq<Block>, k: nat, low: nat, high: nat)
    requires low <= k < |p| && k < high && Turned(R, db, genesisId, p, k, low)
    ensures Turned(R, db, genesisId, p, k, high)
  {
    hide HeaderPasses, Accepts, TrustedAccepts, UtxosAt, StateRoot, Readable;
    ReadableRow(R, db, k, PrevOf(R, p[..k]), genesisId);
    if p[k].header.height > 0 { PassesTrusted(R, db.headers, p[k]); }
    AcceptedIsTrusted(R, UtxosAt(R, p[..k]), p[k]);
  }

  /** Trusting more blocks accepts no fewer chains. */
  lemma TrustMore(R: Rules, db: Db, genesisId: Hash256, p: seq<Block>, low: nat, high: nat)
    requires AllTurned(R, db, genesisId, p, low) && low <= high
    ensures AllTurned(R, db, genesisId, p, high)
  {
    hide Readable, PassesAbove, Accepts, TrustedAccepts, UtxosAt, StateRoot;
    forall k | 0 <= k < |p| ensures Turned(R, db, genesisId, p, k, high) {
      assert Turned(R, db, genesisId, p, k, low);
      if low <= k < high { TurnTrusted(R, db, genesisId, p, k, low, high); }
    }
  }

  lemma TurnParts(R: Rules, db: Db, genesisId: Hash256, p: seq<Block>, k: nat, below: nat)
    requires k < |p| && Turned(R, db, genesisId, p, k, below)
    ensures Readable(R, db, k, PrevOf(R, p[..k]), genesisId) && PassesAbove(R, db, k, k < below) && p[k] == db.blocks[db.heightIndex[k]]
    ensures if k < below then TrustedAccepts(R, UtxosAt(R, p[..k]), p[k]) else Accepts(R, UtxosAt(R, p[..k]), p[k])
    ensures p[k].header.stateRoot == StateRoot(R, After(R, UtxosAt(R, p[..k]), p[k].txs, p[k].header.height, |p[k].txs|))
  {
    hide HeaderPasses, Accepts, TrustedAccepts, UtxosAt, StateRoot, After;
    assert p[..k] + [p[k]] == p[..k + 1];
    Grown(R, p[..k], p[k]);
  }

  /** One turn of the replay loop: read, check and apply the next block, and compare the state root. */
  method ReplayBlock(R: Rules, db: Db, utxo: UtxoSet, height: nat, prevId: Hash256, genesisId: Hash256, trusted: bool,
                     ghost p: seq<Block>, ghost c: seq<Block>, ghost below: nat)
    returns (r: Result<Block, BootError>)
    requires utxo.Valid() && utxo.R == R && utxo.utxos == UtxosAt(R, p)
    requires height == |p| && prevId == PrevOf(R, p) && CoinbaseFirst(db) && trusted == (height < below)
    modifies utxo, utxo.smt
    ensures utxo.Valid() && utxo.R == R
    ensures r.Ok? ==> Readable(R, db, height, prevId, genesisId) && r.value == db.blocks[db.heightIndex[height]]
    ensures r.Ok? ==> utxo.utxos == UtxosAt(R, p + [r.value])
    ensures r.Ok? && AllTurned(R, db, genesisId, p, below) ==> AllTurned(R, db, genesisId, p + [r.value], below)
    ensures height < |c| && p == c[..height] && Turned(R, db, genesisId, c, height, below) ==> r == Ok(c[height])
  {
    hide Accepts, TrustedAccepts, UtxosAt, After, StateRoot, HeaderPasses, PassesAbove, Readable, Turned, AllTurned, CoinbaseFirst, UtxoSet.Valid, PrevOf;
    if height < |c| && p == c[..height] && Turned(R, db, genesisId, c, height, below) { TurnParts(R, db, genesisId, c, height, below); }
    r := ReadChecked(R, db, height, prevId, genesisId, trusted);
    if r.Err? { return; }
    var block := r.value;
    ReadableBody(R, db, height, prevId, genesisId, trusted);
    Grown(R, p, block);
    var err := ApplyRooted(utxo, block, trusted, height);
    if err.Some? { return Err(err.value); }
    if AllTurned(R, db, genesisId, p, below) { TurnedSnoc(R, db, genesisId, p, block, below); }
  }

  lemma ReadableBody(R: Rules, db: Db, height: nat, prevId: Hash256, genesisId: Hash256, trusted: bool)
    requires Readable(R, db, height, prevId, genesisId) && PassesAbove(R, db, height, trusted) && CoinbaseFirst(db)
    ensures height in db.heightIndex && db.heightIndex[height] in db.blocks
    ensures var txs := db.blocks[db.heightIndex[height]].txs; txs != [] && IsCoinbase(txs[0])
  {
    hide HeaderPasses;
    var block := db.blocks[db.heightIndex[height]];
    if block.header.height > 0 { PassedFacts(R, db.headers, block, trusted); }
  }

  /** The checkpoint is asked for, reached and stored: the blocks up to it may be trusted. */
  ghost predicate Checkpointed(db: Db, assumeValid: bool, n: nat, checkpoint: Hash256) {
    assumeValid && n > 500_000 && 500_000 in db.heightIndex && db.heightIndex[500_000] == checkpoint
  }

  /**
   Blocks 0 to the tip, in order; the last one must be the recorded tip. It succeeds on exactly one chain, the one
   that a replay reads which validates everything above the checkpoint, and everything if that is not stored.
   */
  method ReplayStored(R: Rules, db: Db, utxo: UtxoSet, tipId: Hash256, genesisId: Hash256, assumeValid: bool,
                      checkpoint: Hash256, ghost c: seq<Block>)
    returns (r: Result<ChainTip, BootError>, ghost p: seq<Block>)
    requires utxo.Valid() && utxo.R == R && utxo.utxos == map[] && CoinbaseFirst(db) && db.tip == Some(tipId)
    modifies utxo, utxo.smt
    ensures utxo.Valid() && utxo.R == R
    ensures r.Ok? ==> p != [] && r.value == TipOf(R, p) && r.value.id == tipId && utxo.utxos == UtxosAt(R, p)
    ensures Replays(R, db, tipId, genesisId, c, 0) ==> r.Ok? && p == c
    ensures Replays(R, db, tipId, genesisId, c, 500_001) && Checkpointed(db, assumeValid, |c|, checkpoint) ==> r.Ok? && p == c
    ensures r.Ok? && !Checkpointed(db, assumeValid, |p|, checkpoint) ==> Replays(R, db, tipId, genesisId, p, 0)
    ensures r.Ok? ==> Replays(R, db, tipId, genesisId, p, 500_001)
  {
    hide UtxosAt, Readable, Turned, AllTurned, UtxoSet.Valid, WorkAt, WorkFromTarget, CoinbaseFirst, PrevOf;
    p := [];
    NothingYetReplayed(R, db, genesisId, c);
    if tipId !in db.headers { return Err(MissingTipHeader), p; }
    var tipHeight: nat := db.headers[tipId].height;
    var proven := Proven(db, assumeValid, tipHeight, checkpoint);
    ghost var below := if proven then ASSUME_VALID_HEIGHT + 1 else 0;
    if Replays(R, db, tipId, genesisId, c, 0) { TrustMore(R, db, genesisId, c, 0, below); }
    ghost var good := Replays(R, db, tipId, genesisId, c, below);
    var work: U256, prevId, height: nat := 0, ZERO, 0;
    while height <= tipHeight
      invariant height == |p| <= tipHeight + 1 && utxo.Valid() && utxo.R == R && utxo.utxos == UtxosAt(R, p)
      invariant prevId == PrevOf(R, p) && work == WorkAt(p)
      invariant AllTurned(R, db, genesisId, p, below)
      invariant good ==> p == c[..height]
    {
      if good { TurnAt(R, db, genesisId, c, below, height); }
      var next := ReplayBlock(R, db, utxo, height, prevId, genesisId, proven && height <= ASSUME_VALID_HEIGHT, p, c, below);
      if next.Err? { return Err(next.error), p; }
      Grown(R, p, next.value);
      if good { assert c[..height] + [c[height]] == c[..height + 1]; }
      work := AddWork(work, WorkFromTarget(next.value.header.target));
      prevId, p, height := Id(R, next.value), p + [next.value], height + 1;
    }
    if good { assert c[..height] == c; }
    if prevId != tipId { return Err(TipMismatch), p; }
    LastId(R, p);
    TrustMore(R, db, genesisId, p, below, 500_001);
    r := Ok(ChainTip(tipId, tipHeight, work));
  }

  lemma TurnAt(R: Rules, db: Db, genesisId: Hash256, p: seq<Block>, below: nat, k: nat)
    requires AllTurned(R, db, genesisId, p, below) && k < |p|
    ensures Turned(R, db, genesisId, p, k, below)
  {
  }

  lemma NothingYetReplayed(R: Rules, db: Db, genesisId: Hash256, c: seq<Block>)
    ensures UtxosAt(R, []) == map[] && WorkAt([]) == 0 && PrevOf(R, []) == ZERO && c[..0] == []
    ensures forall below :: AllTurned(R, db, genesisId, [], below)
  {
  }

  lemma LastId(R: Rules, p: seq<Block>)
    requires p != []
    ensures PrevOf(R, p) == Id(R, p[|p| - 1])
  {
  }

  /** The first start: apply genesis to the empty set and commit it. */
  method Bootstrap(s: ChainStorage, utxo: UtxoSet, genesis: Block, genesisId: Hash256) returns (r: Result<ChainTip, BootError>)
    requires utxo.Valid() && utxo.R == s.R && utxo.utxos == map[] && LawfulBlocks(s.R)
    modifies s, utxo, utxo.smt
    ensures utxo.Valid() && utxo.R == s.R
    ensures r.Err? ==> s.db == old(s.db)
    ensures r.Ok? ==> old(s.db).heightIndex == map[] && old(s.db).blocks == map[] && Id(s.R, genesis) == genesisId == r.value.id
    ensures old(s.db) == EMPTY_DB && Extends(s.R, [], genesis) && Id(s.R, genesis) == genesisId ==>
              && r == Ok(TipOf(s.R, [genesis])) && DbInv(s.R, s.db, [genesis]) && utxo.utxos == UtxosAt(s.R, [genesis])
  {
    hide LawfulBlocks, DbInv, Extends, Flows, After, LogAfter, Applies, Applied, Log, UtxoSet.Valid, LogSerializes, Indexable, WorkAt, UtxosAt, WorkFromTarget, GenesisDb;
    ghost var good := s.db == EMPTY_DB && Extends(s.R, [], genesis);
    if s.db.heightIndex != map[] || s.db.blocks != map[] { return Err(NotEmpty); }
    if Id(s.R, genesis) != genesisId { return Err(CannotBootstrap); }
    utxo.EntriesSane();
    ghost var spent, log := [], [];
    if good { spent, log := GenesisGood(s.R, genesis); }
    var txs, mutations := genesis.txs, [];
    RunStart(s.R, map[], txs, 0);
    if good { NoLogYet(s.R, txs); }
    for i := 0 to |txs|
      invariant utxo.Valid() && utxo.R == s.R && s.db == old(s.db)
      invariant good ==> Flows(s.R, map[], txs, 0, |txs|) && Flows(s.R, map[], txs, 0, i)
      invariant good ==> utxo.utxos == After(s.R, map[], txs, 0, i) && mutations == LogAfter(s.R, map[], txs, 0, i)
    {
      if good { GenesisTx(s.R, txs, i); }
      var applied := utxo.ApplyTransaction(txs[i], 0);
      if applied.Err? { return Err(GenesisFailed); }
      mutations := mutations + applied.value;
    }
    var work := WorkFromTarget(genesis.header.target);
    var ok := s.CommitGenesis(genesis, work, mutations);
    if !ok { return Err(WriteFailed); }
    r := Ok(GenesisTip(genesisId, genesis.header.target));
  }

  lemma GenesisGood(R: Rules, b: Block) returns (spent: SpentList, log: seq<Mutation>)
    requires Lawful(R) && LawfulBlocks(R) && Extends(R, [], b)
    ensures Flows(R, map[], b.txs, 0, |b.txs|) && log == LogAfter(R, map[], b.txs, 0, |b.txs|)
    ensures DbInv(R, GenesisDb(R, EMPTY_DB, b, WorkFromTarget(b.header.target), log), [b])
    ensures R.blockSize(b).Some? && LogSerializes(R, log) && Indexable(R, b.txs)
    ensures UtxosAt(R, [b]) == After(R, map[], b.txs, 0, |b.txs|) && WorkAt([b]) == WorkFromTarget(b.header.target)
  {
    hide Lawful, LawfulBlocks, Committed, DbInv, Accepts, Flows, After, LogAfter, LogSerializes, Indexable, WorkFromTarget, GenesisDb, Accepted, Sealed;
    assert [b][..0] == [];
    FirstCommitted(R, b);
    CommittedAccepted(R, [b]);
    AcceptedClean(R, [b]);
    NothingWithin(R);
    spent := SpentRow(R, [b]);
    log := LogAfter(R, map[], b.txs, 0, |b.txs|);
    assert BlockArgs(R, [b], spent, log);
    GenesisKeeps(R, b, log, spent);
    GenesisStorable(R, b, spent, log);
    FirstWork(b);
  }

  lemma NoLogYet(R: Rules, txs: seq<Tx>)
    ensures Flows(R, map[], txs, 0, 0) && LogAfter(R, map[], txs, 0, 0) == []
  {
  }

  lemma GenesisTx(R: Rules, txs: seq<Tx>, i: nat)
    requires i < |txs| && Flows(R, map[], txs, 0, |txs|)
    ensures var w := After(R, map[], txs, 0, i);
            && Applies(R, w, txs[i]) && Flows(R, map[], txs, 0, i) && Flows(R, map[], txs, 0, i + 1)
            && R.txId(txs[i]).Some? && AllPresent(w, Consumed(txs[i]))
            && After(R, map[], txs, 0, i + 1) == Applied(R, w, txs[i], 0)
            && LogAfter(R, map[], txs, 0, i + 1) == LogAfter(R, map[], txs, 0, i) + Log(R, w, txs[i], 0)
  {
    hide Flows, After, LogAfter, Applies, Applied, Log;
    FlowsPrefix(R, map[], txs, 0, i + 1, |txs|);
    FlowsAt(R, map[], txs, 0, i, |txs|);
    LogAfterStep(R, map[], txs, 0, i + 1);
  }

  /**
   Replay the stored chain, or start one. The result is the chain of the database. Conversely, whatever chain
   a replay without the checkpoint accepts satisfies every rule, if and only if the stored genesis body is the
   sealed one and the row of the tip claims the tip's height.
   */
  method ReplayChain(s: ChainStorage, utxo: UtxoSet, genesis: Block, genesisId: Hash256, assumeValid: bool,
                     checkpoint: Hash256, ghost c: seq<Block>)
    returns (r: Result<ChainTip, BootError>, ghost p: seq<Block>)
    requires utxo.Valid() && utxo.R == s.R && utxo.utxos == map[] && LawfulBlocks(s.R) && CoinbaseFirst(s.db)
    modifies s, utxo, utxo.smt
    ensures utxo.Valid() && utxo.R == s.R
    ensures old(s.db).tip.Some? ==> s.db == old(s.db)
    ensures old(s.db).tip.Some? && DbInv(s.R, old(s.db), c) && genesisId == Id(s.R, c[0]) ==>
              r == Ok(TipOf(s.R, c)) && utxo.utxos == UtxosAt(s.R, c)
    ensures old(s.db).tip.Some? && r.Ok? && !Checkpointed(old(s.db), assumeValid, |p|, checkpoint) ==>
              var db, tipId := old(s.db), r.value.id;
              && p != [] && Id(s.R, p[0]) == genesisId && r.value == TipOf(s.R, p) && db.tip == Some(tipId) && utxo.utxos == UtxosAt(s.R, p)
              && tipId in db.headers && tipId in db.blocks && genesisId in db.blocks
              && (Committed(s.R, p) <==>
                    Sealed(s.R, db.blocks[genesisId]) && db.blocks[tipId].header.height == db.headers[tipId].height)
    ensures old(s.db) == EMPTY_DB && Extends(s.R, [], genesis) && Id(s.R, genesis) == genesisId ==>
              r == Ok(TipOf(s.R, [genesis])) && DbInv(s.R, s.db, [genesis]) && utxo.utxos == UtxosAt(s.R, [genesis])
  {
    hide LawfulBlocks, DbInv, Extends, UtxosAt, Committed, Sealed, UtxoSet.Valid, CoinbaseFirst, Replays, WorkAt;
    p := [];
    if s.db.tip.None? {
      r := Bootstrap(s, utxo, genesis, genesisId);
    } else {
      var tipId := s.db.tip.value;
      if DbInv(s.R, s.db, c) { GoodReplays(s.R, s.db, c); }
      r, p := ReplayStored(s.R, s.db, utxo, tipId, genesisId, assumeValid, checkpoint, c);
      if r.Ok? && !Checkpointed(s.db, assumeValid, |p|, checkpoint) { ReplayedIff(s.R, s.db, tipId, genesisId, p); }
    }
  }

  /** Replay, and write the resulting set as the snapshot so that the next boot can use it. */
  method RunReplayAndMaybeMigrate(s: ChainStorage, utxo: UtxoSet, genesis: Block, genesisId: Hash256, assumeValid: bool,
                                  checkpoint: Hash256, autoMigrate: bool, ghost c: seq<Block>)
    returns (r: Result<ChainTip, BootError>)
    requires utxo.Valid() && utxo.R == s.R && utxo.utxos == map[] && LawfulBlocks(s.R) && CoinbaseFirst(s.db)
    modifies s, utxo, utxo.smt
    ensures utxo.Valid() && utxo.R == s.R
    ensures DbInv(s.R, old(s.db), c) && genesisId == Id(s.R, c[0]) ==>
              && r == Ok(TipOf(s.R, c)) && utxo.utxos == UtxosAt(s.R, c) && DbInv(s.R, s.db, c)
              && (autoMigrate ==> s.db.complete && s.db.utxos == UtxosAt(s.R, c))
  {
    hide LawfulBlocks, DbInv, Extends, UtxosAt, Committed, UtxoSet.Valid, CoinbaseFirst, Sane, WorkAt;
    if DbInv(s.R, s.db, c) { GoodTip(s.R, s.db, c); }
    ghost var good := DbInv(s.R, s.db, c) && c != [] && genesisId == Id(s.R, c[0]);
    ghost var p;
    r, p := ReplayChain(s, utxo, genesis, genesisId, assumeValid, checkpoint, c);
    if r.Err? || !autoMigrate { return; }
    utxo.EntriesSane();
    SaneEntries(utxo.R, utxo.utxos);
    if good { FinalizeKeeps(s.R, s.db, c); }
    var ok := s.FinalizeSnapshot(utxo.utxos, r.value.id);
    if !ok { return Err(WriteFailed); }
  }

  lemma SaneEntries(R: Rules, u: Utxos)
    requires Sane(R, u)
    ensures forall op | op in u :: R.outputSize(u[op].output).Some?
  {
  }

  // ---- The structural walk ----

  /** Everything, or what lies above the marked block: nothing if that is the tip. */
  ghost predicate WalkPlan(db: Db, tipId: Hash256, tipHeight: nat, start: nat, prevId: Hash256, work: U256) {
    if start == 0 then prevId == ZERO && work == 0
    else
      && db.walkTip == Some(prevId) && prevId in db.work && work == db.work[prevId]
      && if prevId == tipId then start == tipHeight + 1
         else prevId in db.headers && db.headers[prevId].height <= tipHeight && start == db.headers[prevId].height + 1
  }

  /** How much of the walk the marker saves: where to start, after which block and with how much work. */
  method PlanWalk(db: Db, tipId: Hash256, tipHeight: nat, trustMarker: bool) returns (start: nat, prevId: Hash256, work: U256)
    ensures WalkPlan(db, tipId, tipHeight, start, prevId, work)
    ensures !trustMarker ==> start == 0 && prevId == ZERO && work == 0
  {
    start, prevId, work := 0, ZERO, 0;
    if trustMarker && db.walkTip.Some? {
      var marker := db.walkTip.value;
      if marker == tipId {
        if tipId in db.work { start, prevId, work := tipHeight + 1, tipId, db.work[tipId]; }
      } else if marker in db.headers && marker in db.work && db.headers[marker].height <= tipHeight {
        start, prevId, work := db.headers[marker].height + 1, marker, db.work[marker];
      }
    }
  }

  /** On a right database the plan is a prefix of the chain. */
  lemma PlanIsPrefix(R: Rules, db: Db, c: seq<Block>, start: nat, prevId: Hash256, work: U256)
    requires LawfulBlocks(R) && DbInv(R, db, c)
    requires WalkPlan(db, Id(R, c[|c| - 1]), |c| - 1, start, prevId, work)
    ensures start <= |c| && prevId == PrevOf(R, c[..start]) && work == WorkAt(c[..start])
  {
    hide LawfulBlocks, Committed, RowsOk, UtxosOk, IndexesOk, WorkAt, SpentRow, Sealed;
    if start == 0 {
      assert c[..0] == [];
      NoWork();
    } else {
      var k :| 0 <= k < |c| && db.walkTip == Some(Id(R, c[k]));
      assert Resolves(R, db, c, k);
      BlockFacts(R, c, k);
      if prevId == Id(R, c[|c| - 1]) { IdsUnique(R, c, k, |c| - 1); }
      assert start == k + 1;
    }
  }

  lemma NoWork()
    ensures WorkAt([]) == 0
  {
  }

  /** Block `k` of `p` is what the walk reads and checks at this height, without proof of work below the given one. */
  ghost predicate Walked(R: Rules, db: Db, genesisId: Hash256, p: seq<Block>, k: nat, below: nat)
    requires k < |p|
  {
    && Readable(R, db, k, PrevOf(R, p[..k]), genesisId) && p[k] == db.blocks[db.heightIndex[k]]
    && (k > 0 ==> HeaderPasses(R, db.headers, p[k], k < below))
  }

  ghost predicate AllWalked(R: Rules, db: Db, genesisId: Hash256, p: seq<Block>, below: nat) {
    forall k | 0 <= k < |p| :: Walked(R, db, genesisId, p, k, below)
  }

  /** A linked chain whose blocks above the first satisfy the header rules. */
  ghost predicate HeaderChain(R: Rules, p: seq<Block>) {
    Linked(R, p) && forall k | 0 < k < |p| :: FollowsHeaders(R, p[..k], p[k])
  }

  lemma WalkedSnoc(R: Rules, db: Db, genesisId: Hash256, p: seq<Block>, b: Block, below: nat)
    requires AllWalked(R, db, genesisId, p, below)
    requires Readable(R, db, |p|, PrevOf(R, p), genesisId) && b == db.blocks[db.heightIndex[|p|]]
    requires |p| > 0 ==> HeaderPasses(R, db.headers, b, |p| < below)
    ensures AllWalked(R, db, genesisId, p + [b], below)
  {
    hide Readable, HeaderPasses, PrevOf;
    var q := p + [b];
    assert q[..|p|] == p;
    forall k | 0 <= k < |q| ensures Walked(R, db, genesisId, q, k, below) {
      if k < |p| {
        assert Walked(R, db, genesisId, p, k, below);
        assert q[..k] == p[..k];
      }
    }
  }

  lemma {:induction false} WalkedHeight(R: Rules, db: Db, genesisId: Hash256, p: seq<Block>, k: nat)
    requires LawfulBlocks(R) && k < |p| && AllWalked(R, db, genesisId, p, 0)
    ensures p[k].header.height == p[0].header.height + k && p[k].header.prevId == PrevOf(R, p[..k])
    ensures k > 0 ==> Id(R, p[k - 1]) in db.headers && db.headers[Id(R, p[k - 1])] == p[k - 1].header
  {
    hide HeaderPasses;
    assert Walked(R, db, genesisId, p, k, 0);
    if k > 0 {
      WalkedHeight(R, db, genesisId, p, k - 1);
      PassedFacts(R, db.headers, p[k], false);
    }
  }

  /** What a full walk accepts is a chain that satisfies the header rules, if and only if genesis claims height 0. */
  lemma WalkedIff(R: Rules, db: Db, genesisId: Hash256, p: seq<Block>)
    requires LawfulBlocks(R) && p != [] && AllWalked(R, db, genesisId, p, 0)
    ensures genesisId in db.blocks && p[0] == db.blocks[genesisId] && Id(R, p[0]) == genesisId
    ensures HeaderChain(R, p) <==> db.blocks[genesisId].header.height == 0
  {
    hide LawfulBlocks, HeaderPasses, FollowsHeaders, PrevOf;
    assert Walked(R, db, genesisId, p, 0, 0);
    if p[0].header.height == 0 {
      forall k | 0 <= k < |p| ensures p[k].header.height == k && p[k].header.prevId == PrevOf(R, p[..k]) {
        WalkedHeight(R, db, genesisId, p, k);
      }
      forall k | 0 < k < |p| ensures FollowsHeaders(R, p[..k], p[k]) {
        WalkedFollows(R, db, genesisId, p, k);
      }
    }
  }

  lemma WalkedFollows(R: Rules, db: Db, genesisId: Hash256, p: seq<Block>, k: nat)
    requires LawfulBlocks(R) && 0 < k < |p| && AllWalked(R, db, genesisId, p, 0) && Linked(R, p)
    ensures FollowsHeaders(R, p[..k], p[k])
  {
    hide LawfulBlocks, HeaderPasses, FollowsHeaders, AllWalked;
    var q := p[..k];
    forall i | 0 <= i < k ensures Id(R, q[i]) in db.headers && db.headers[Id(R, q[i])] == q[i].header {
      WalkedHeight(R, db, genesisId, p, i + 1);
    }
    forall i | 0 <= i < k ensures q[i].header.height == i && q[i].header.prevId == PrevOf(R, q[..i]) {
      assert q[i] == p[i] && q[..i] == p[..i];
    }
    WalkedPasses(R, db, genesisId, p, k);
    PassesIffFollows(R, db.headers, q, p[k]);
  }

  lemma WalkedPasses(R: Rules, db: Db, genesisId: Hash256, p: seq<Block>, k: nat)
    requires 0 < k < |p| && AllWalked(R, db, genesisId, p, 0)
    ensures HeaderPasses(R, db.headers, p[k], false)
  {
    assert Walked(R, db, genesisId, p, k, 0);
  }

  /**
   Read and check the blocks from `start` to the tip, adding up their work. On a right database the result is
   the chain's tip and work; and what a full walk without checkpoint reads is `p`, with its work.
   */
  method Walk(R: Rules, db: Db, start: nat, tipHeight: nat, first: Hash256, base: U256, genesisId: Hash256, proven: bool,
              ghost c: seq<Block>)
    returns (err: Option<BootError>, prevId: Hash256, work: U256, ghost p: seq<Block>)
    requires LawfulBlocks(R)
    ensures DbInv(R, db, c) && genesisId == Id(R, c[0]) && tipHeight == |c| - 1 && start <= |c|
              && first == PrevOf(R, c[..start]) && base == WorkAt(c[..start]) ==>
              err.None? && prevId == Id(R, c[|c| - 1]) && work == WorkAt(c)
    ensures err.None? && start == 0 && first == ZERO && base == 0 ==>
              && |p| == tipHeight + 1 && prevId == PrevOf(R, p) && work == WorkAt(p)
              && AllWalked(R, db, genesisId, p, if proven then 500_001 else 0)
  {
    hide LawfulBlocks, DbInv, Committed, UtxosAt, Accepts, StateRoot, Readable, HeaderPasses, WorkAt, WorkFromTarget, Walked;
    if DbInv(R, db, c) { GoodTip(R, db, c); }
    ghost var good := && DbInv(R, db, c) && c != [] && genesisId == Id(R, c[0]) && tipHeight == |c| - 1 && start <= |c|
                      && first == PrevOf(R, c[..start]) && base == WorkAt(c[..start]);
    ghost var full, below := start == 0 && first == ZERO && base == 0, if proven then ASSUME_VALID_HEIGHT + 1 else 0;
    NoWork();
    prevId, work, p := first, base, [];
    var height := start;
    while height <= tipHeight
      invariant good ==> height <= |c| && prevId == PrevOf(R, c[..height]) && work == WorkAt(c[..height])
      invariant full ==> height == |p| <= tipHeight + 1 && prevId == PrevOf(R, p) && work == WorkAt(p)
      invariant full ==> AllWalked(R, db, genesisId, p, below)
      decreases tipHeight - height
    {
      if good { WalkStep(R, db, c, height); }
      var next := ReadBlock(R, db, height, prevId, genesisId);
      if next.Err? { return Some(next.error), prevId, work, p; }
      var block := next.value;
      if height > 0 {
        var bad := CheckHeader(R, db.headers, block, proven && height <= ASSUME_VALID_HEIGHT);
        if bad.Some? { return bad, prevId, work, p; }
      }
      Grown(R, p, block);
      if full { WalkedSnoc(R, db, genesisId, p, block, below); }
      work := AddWork(work, WorkFromTarget(block.header.target));
      prevId, height, p := Id(R, block), height + 1, p + [block];
    }
    if good { WalkEnd(R, c, height); }
    err := None;
  }

  /** The next block of a right database, under either mode. */
  lemma WalkStep(R: Rules, db: Db, c: seq<Block>, h: nat)
    requires LawfulBlocks(R) && DbInv(R, db, c) && h < |c|
    ensures Readable(R, db, h, PrevOf(R, c[..h]), Id(R, c[0])) && db.blocks[db.heightIndex[h]] == c[h]
    ensures h > 0 ==> HeaderPasses(R, db.headers, c[h], false) && HeaderPasses(R, db.headers, c[h], true)
    ensures PrevOf(R, c[..h + 1]) == Id(R, c[h]) && WorkAt(c[..h + 1]) == AddWork(WorkAt(c[..h]), WorkFromTarget(c[h].header.target))
  {
    hide LawfulBlocks, DbInv, HeaderPasses, Readable, WorkAt, WorkFromTarget, Accepts, UtxosAt, StateRoot, Committed;
    GoodStep(R, db, c, h);
    Grown(R, c[..h], c[h]);
    if h > 0 { PassesTrusted(R, db.headers, c[h]); }
  }

  lemma WalkEnd(R: Rules, c: seq<Block>, height: nat)
    requires c != [] && height <= |c| && height > |c| - 1
    ensures c[..height] == c && PrevOf(R, c) == Id(R, c[|c| - 1])
  {
  }

  // ---- Loading the snapshot ----

  /** Insert every row of the table into the empty set. */
  method LoadSnapshot(utxo: UtxoSet, u: Utxos) returns (ok: bool)
    requires utxo.Valid() && utxo.utxos == map[] && forall op | op in u :: Known(utxo.R, op)
    modifies utxo, utxo.smt
    ensures utxo.Valid()
    ensures ok <==> forall op | op in u :: utxo.R.outputSize(u[op].output).Some?
    ensures ok ==> utxo.utxos == u
  {
    hide UtxoSet.Valid, Known;
    var todo := u.Keys;
    NothingLoaded(u);
    while todo != {}
      invariant utxo.Valid() && todo <= u.Keys && utxo.utxos == u - todo
      invariant forall op | op in u && op !in todo :: utxo.R.outputSize(u[op].output).Some?
      decreases |todo|
    {
      var op :| op in todo;
      var r := utxo.Insert(op, u[op]);
      if r.Err? { return false; }
      LoadedOne(u, todo, op);
      todo := todo - {op};
    }
    ok := true;
  }

  lemma NothingLoaded(u: Utxos)
    ensures u - u.Keys == map[] && u - {} == u
  {
  }

  lemma LoadedOne(u: Utxos, todo: set<OutPoint>, op: OutPoint)
    requires op in todo && op in u
    ensures op !in u - todo && (u - todo)[op := u[op]] == u - (todo - {op})
  {
  }

  // ---- Opening ----

  /** Rows of the UTXO table come from transactions. */
  ghost predicate KnownRows(R: Rules, db: Db) {
    forall op | op in db.utxos :: Known(R, op)
  }

  lemma GoodSnapshot(R: Rules, db: Db, c: seq<Block>)
    requires Lawful(R) && DbInv(R, db, c)
    ensures Sane(R, UtxosAt(R, c)) && (db.complete ==> db.utxos == UtxosAt(R, c) && db.snapshotTip == db.tip)
    ensures c[|c| - 1].header.stateRoot == StateRoot(R, UtxosAt(R, c))
  {
    hide Lawful, Committed, RowsOk, IndexesOk, WalkOk, UtxosAt, Accepts, FollowsHeaders, StateRoot, Sane;
    ChainSane(R, c);
    CommittedAt(R, c, |c| - 1);
    assert c[..|c| - 1] + [c[|c| - 1]] == c;
  }

  /** The structural half of the fast path: walk what the marker leaves. */
  method VerifyChain(R: Rules, db: Db, tipId: Hash256, genesisId: Hash256, assumeValid: bool, checkpoint: Hash256,
                     trustMarker: bool, ghost c: seq<Block>)
    returns (r: Result<ChainTip, BootError>, walked: bool, ghost p: seq<Block>)
    requires LawfulBlocks(R) && db.tip == Some(tipId)
    ensures r.Ok? ==> tipId in db.headers && r.value.id == tipId
    ensures r.Ok? && !trustMarker ==>
              && p != [] && r.value == TipOf(R, p)
              && AllWalked(R, db, genesisId, p, if Checkpointed(db, assumeValid, |p|, checkpoint) then 500_001 else 0)
    ensures r.Ok? && !trustMarker && !Checkpointed(db, assumeValid, |p|, checkpoint) ==>
              && Id(R, p[0]) == genesisId && genesisId in db.blocks
              && (HeaderChain(R, p) <==> db.blocks[genesisId].header.height == 0)
    ensures DbInv(R, db, c) && genesisId == Id(R, c[0]) ==> r == Ok(TipOf(R, c))
  {
    hide LawfulBlocks, DbInv, Committed, WorkAt, PrevOf, WalkPlan, AllWalked, HeaderChain;
    if DbInv(R, db, c) { GoodTip(R, db, c); }
    ghost var good := DbInv(R, db, c) && c != [] && genesisId == Id(R, c[0]);
    if tipId !in db.headers { return Err(MissingTipHeader), false, []; }
    var tipHeight: nat := db.headers[tipId].height;
    var start, first, base := PlanWalk(db, tipId, tipHeight, trustMarker);
    if good { PlanIsPrefix(R, db, c, start, first, base); }
    var err, prevId, work;
    err, prevId, work, p := Walk(R, db, start, tipHeight, first, base, genesisId, Proven(db, assumeValid, tipHeight, checkpoint), c);
    walked := start <= tipHeight;
    if err.Some? { return Err(err.value), walked, p; }
    if prevId != tipId { return Err(TipMismatch), walked, p; }
    if !trustMarker {
      LastId(R, p);
      if !Checkpointed(db, assumeValid, |p|, checkpoint) { WalkedIff(R, db, genesisId, p); }
    }
    r := Ok(ChainTip(tipId, tipHeight, work));
  }

  /** The rows of the table serialize and hash to the root in the tip's header. */
  ghost predicate SnapshotMatches(R: Rules, db: Db, tipId: Hash256) {
    && tipId in db.headers && db.headers[tipId].stateRoot == StateRoot(R, db.utxos)
    && forall op | op in db.utxos :: R.outputSize(db.utxos[op].output).Some?
  }

  method LoadAndCheck(utxo: UtxoSet, db: Db, tipId: Hash256) returns (ok: bool)
    requires utxo.Valid() && utxo.utxos == map[] && KnownRows(utxo.R, db) && tipId in db.headers
    modifies utxo, utxo.smt
    ensures utxo.Valid()
    ensures ok <==> SnapshotMatches(utxo.R, db, tipId)
    ensures ok ==> utxo.utxos == db.utxos
  {
    hide UtxoSet.Valid, StateRoot, Known;
    ok := LoadSnapshot(utxo, db.utxos);
    if ok {
      var root := utxo.GetStateRoot();
      ok := root == db.headers[tipId].stateRoot;
    }
  }

  lemma RootMatches(R: Rules, db: Db, tipId: Hash256)
    requires SnapshotMatches(R, db, tipId)
    ensures tipId in db.headers && StateRoot(R, db.utxos) == db.headers[tipId].stateRoot
  {
  }

  lemma GoodOpen(R: Rules, db: Db, c: seq<Block>)
    requires Lawful(R) && DbInv(R, db, c) && db.complete
    ensures db.tip.Some? && SnapshotMatches(R, db, db.tip.value) && db.utxos == UtxosAt(R, c)
    ensures DbInv(R, db.(walkTip := db.tip), c) && c != []
  {
    hide Lawful, DbInv, UtxosAt, Sane, StateRoot, WorkAt;
    GoodTip(R, db, c);
    GoodSnapshot(R, db, c);
    SaneEntries(R, UtxosAt(R, c));
    WalkKeeps(R, db, c);
  }

  /** The fast path: verify the structure, load the table, compare the state root, stamp the marker. */
  method OpenSnapshot(s: ChainStorage, utxo: UtxoSet, tipId: Hash256, genesisId: Hash256, assumeValid: bool,
                      checkpoint: Hash256, trustMarker: bool, ghost c: seq<Block>)
    returns (r: Result<ChainTip, BootError>, ghost p: seq<Block>)
    requires utxo.Valid() && utxo.R == s.R && utxo.utxos == map[] && LawfulBlocks(s.R) && KnownRows(s.R, s.db)
    requires s.db.tip == Some(tipId) && s.db.complete
    modifies s, utxo, utxo.smt
    ensures utxo.Valid() && utxo.R == s.R
    ensures r.Ok? ==> SnapshotMatches(s.R, old(s.db), tipId) && utxo.utxos == old(s.db).utxos
    ensures r.Ok? ==> tipId in old(s.db).headers && StateRoot(s.R, utxo.utxos) == old(s.db).headers[tipId].stateRoot
    ensures r.Ok? && !trustMarker ==> p != [] && r.value == TipOf(s.R, p)
    ensures r.Ok? && !trustMarker && !Checkpointed(old(s.db), assumeValid, |p|, checkpoint) ==>
              && Id(s.R, p[0]) == genesisId && genesisId in old(s.db).blocks
              && (HeaderChain(s.R, p) <==> old(s.db).blocks[genesisId].header.height == 0)
    ensures DbInv(s.R, old(s.db), c) && genesisId == Id(s.R, c[0]) ==>
              r == Ok(TipOf(s.R, c)) && utxo.utxos == UtxosAt(s.R, c) && DbInv(s.R, s.db, c)
  {
    hide LawfulBlocks, DbInv, UtxosAt, UtxoSet.Valid, SnapshotMatches, WorkAt, Lawful, KnownRows, HeaderChain;
    utxo.EntriesSane();
    if DbInv(s.R, s.db, c) { GoodOpen(s.R, s.db, c); }
    var walked;
    r, walked, p := VerifyChain(s.R, s.db, tipId, genesisId, assumeValid, checkpoint, trustMarker, c);
    if r.Err? { return; }
    var ok := LoadAndCheck(utxo, s.db, tipId);
    if !ok { return Err(BadSnapshot), p; }
    RootMatches(s.R, s.db, tipId);
    if walked { s.SetWalkTip(tipId); }
  }

  /**
   On every database that is right for a chain, whatever the flags and markers, opening it returns the
   chain's tip with its work and loads its UTXO map, and leaves the database right for it.
   */
  method OpenChain(s: ChainStorage, utxo: UtxoSet, genesis: Block, genesisId: Hash256, assumeValid: bool,
                   checkpoint: Hash256, autoMigrate: bool, trustMarker: bool, ghost c: seq<Block>)
    returns (r: Result<ChainTip, BootError>)
    requires utxo.Valid() && utxo.R == s.R && utxo.utxos == map[] && LawfulBlocks(s.R)
    requires CoinbaseFirst(s.db) && KnownRows(s.R, s.db)
    modifies s, utxo, utxo.smt
    ensures utxo.Valid() && utxo.R == s.R
    ensures DbInv(s.R, old(s.db), c) && genesisId == Id(s.R, c[0]) ==>
              r == Ok(TipOf(s.R, c)) && utxo.utxos == UtxosAt(s.R, c) && DbInv(s.R, s.db, c)
    ensures DbInv(s.R, old(s.db), c) && genesisId != Id(s.R, c[0]) ==> r == Err(WrongGenesis) && s.db == old(s.db)
  {
    hide LawfulBlocks, DbInv, Extends, UtxosAt, Committed, UtxoSet.Valid, CoinbaseFirst, KnownRows, WorkAt;
    if DbInv(s.R, s.db, c) { GoodTip(s.R, s.db, c); }
    var db := s.db;
    if db.tip.None? {
      ghost var p;
      r, p := ReplayChain(s, utxo, genesis, genesisId, assumeValid, checkpoint, c);
      return;
    }
    if 0 in db.heightIndex && db.heightIndex[0] != genesisId { return Err(WrongGenesis); }
    if 0 !in db.heightIndex || !db.complete || db.snapshotTip != db.tip {
      r := RunReplayAndMaybeMigrate(s, utxo, genesis, genesisId, assumeValid, checkpoint, autoMigrate, c);
      return;
    }
    ghost var walked;
    r, walked := OpenSnapshot(s, utxo, db.tip.value, genesisId, assumeValid, checkpoint, trustMarker, c);
  }

  /** A right database meets what opening it demands. */
  lemma OpenableWhenRight(R: Rules, db: Db, c: seq<Block>)
    requires Lawful(R) && DbInv(R, db, c)
    ensures CoinbaseFirst(db) && KnownRows(R, db)
  {
    hide Lawful, Committed, ChainOk, IndexesOk, WalkOk, UtxosAt, NoRepeats, Known;
    ChainSane(R, c);
  }

  /**
   Every legal run of the database followed by a boot with any flags ends at the tip of the chain that the
   run committed, with its work and its UTXO map.
   */
  method RunThenOpen(R: Rules, genesis: Block, genesisLog: seq<Mutation>, ghost genesisSpent: SpentList, steps: seq<Step>,
                     assumeValid: bool, checkpoint: Hash256, autoMigrate: bool, trustMarker: bool)
    returns (tip: Result<ChainTip, BootError>, utxo: UtxoSet)
    requires Lawful(R) && LawfulBlocks(R) && Extends(R, [], genesis) && BlockArgs(R, [genesis], genesisSpent, genesisLog)
    requires Legal(R, [genesis], steps)
    ensures var c := ChainAfter([genesis], steps);
            c != [] && tip == Ok(TipOf(R, c)) && utxo.R == R && utxo.utxos == UtxosAt(R, c)
  {
    hide Lawful, LawfulBlocks, DbInv, Extends, BlockArgs, Legal, UtxosAt, UtxoSet.Valid, CoinbaseFirst, KnownRows, ChainAfter, WorkAt;
    ghost var c := ChainAfter([genesis], steps);
    GenesisStays(R, [genesis], steps);
    var s := Run(R, genesis, genesisLog, genesisSpent, steps);
    OpenableWhenRight(R, s.db, c);
    utxo := new UtxoSet(R);
    tip := OpenChain(s, utxo, genesis, Id(R, genesis), assumeValid, checkpoint, autoMigrate, trustMarker, c);
  }
}
