/**
 The block rules that need no UTXO state, and the chains that satisfy all block rules.
 */
module Headers {
  import opened SmtSpec
  import opened WorkSpec
  import opened Ledger
  import opened UtxoState
  import opened BlockSpec
  import opened Chain
  import opened MedianTime

  const MAX_TIMESTAMP_DRIFT: nat := 120
  const MAX_BLOCK_SIZE: nat := 4_194_304

  datatype HeaderError =
    | InvalidVersion
    | HeaderOverflow
    | InvalidHeight(expected: nat, got: nat)
    | InvalidPrevBlockId
    | InvalidDifficulty
    | PowFailed
    | TimestampBelowMtp(mtp: nat)
    | TimestampTooFarAhead
    | TimestampGapTooLarge
    | OversizedBlock
    | NoCoinbase
    | ExtraCoinbase(position: nat)
    | OversizedTransaction
    | DuplicateTransaction(id: Hash256)
    | DoubleSpend(op: OutPoint)
    | InvalidTxRoot

  // ---- Rules over the transaction list ----

  /** Rule 12: the first transaction, and no other, is a coinbase. */
  function CoinbaseRule(txs: seq<Tx>, n: nat): Option<HeaderError>
    requires n <= |txs|
  {
    if n == 0 then None
    else
      var earlier := CoinbaseRule(txs, n - 1);
      if earlier.Some? then earlier
      else if n == 1 && !IsCoinbase(txs[0]) then Some(NoCoinbase)
      else if n > 1 && IsCoinbase(txs[n - 1]) then Some(ExtraCoinbase(n - 1))
      else None
  }

  /** Rule 14: every transaction has an id and none repeats. */
  function RepeatRule(R: Rules, txs: seq<Tx>, n: nat): Option<HeaderError>
    requires n <= |txs|
  {
    if n == 0 then None
    else
      var earlier := RepeatRule(R, txs, n - 1);
      var id := R.txId(txs[n - 1]);
      if earlier.Some? then earlier
      else if id.None? then Some(OversizedTransaction)
      else if exists i :: 0 <= i < n - 1 && R.txId(txs[i]) == id then Some(DuplicateTransaction(id.value))
      else None
  }

  /** All inputs of the payments in order. */
  function PaymentInputs(txs: seq<Tx>): seq<OutPoint> {
    if |txs| <= 1 then [] else PaymentInputs(txs[..|txs| - 1]) + txs[|txs| - 1].inputs
  }

  /** The first outpoint that occurs a second time. */
  function FirstRepeat(ops: seq<OutPoint>): Option<OutPoint> {
    if ops == [] then None
    else
      var earlier := FirstRepeat(ops[..|ops| - 1]);
      if earlier.Some? then earlier
      else if ops[|ops| - 1] in ops[..|ops| - 1] then Some(ops[|ops| - 1])
      else None
  }

  lemma {:induction false} CoinbaseRuleMeans(txs: seq<Tx>, n: nat)
    requires n <= |txs|
    ensures CoinbaseRule(txs, n).None? <==> forall i | 0 <= i < n :: IsCoinbase(txs[i]) == (i == 0)
    decreases n
  {
    if n > 0 { CoinbaseRuleMeans(txs, n - 1); }
  }

  lemma {:induction false} RepeatRuleMeans(R: Rules, txs: seq<Tx>, n: nat)
    requires n <= |txs|
    ensures RepeatRule(R, txs, n).None? <==> NoRepeats(R, txs[..n])
    decreases n
  {
    if n > 0 {
      RepeatRuleMeans(R, txs, n - 1);
      assert forall i | 0 <= i < n - 1 :: txs[..n - 1][i] == txs[..n][i];
      assert txs[..n][n - 1] == txs[n - 1];
    }
  }

  lemma {:induction false} FirstRepeatMeans(ops: seq<OutPoint>)
    ensures FirstRepeat(ops).None? <==> Distinct(ops)
  {
    if ops != [] { FirstRepeatMeans(ops[..|ops| - 1]); }
  }

  /** Rules 12, 14, 15 and 10 over the transactions. */
  function ValidateBody(R: Rules, block: Block): Option<HeaderError> {
    var n := |block.txs|;
    if n == 0 then Some(NoCoinbase)
    else if CoinbaseRule(block.txs, n).Some? then CoinbaseRule(block.txs, n)
    else if RepeatRule(R, block.txs, n).Some? then RepeatRule(R, block.txs, n)
    else if FirstRepeat(PaymentInputs(block.txs)).Some? then Some(DoubleSpend(FirstRepeat(PaymentInputs(block.txs)).value))
    else if R.txRoot(block.txs).None? then Some(OversizedTransaction)
    else if R.txRoot(block.txs).value != block.header.txRoot then Some(InvalidTxRoot)
    else None
  }

  // ---- All header rules ----

  function HeightRule(header: Header, parent: Option<Header>): Option<HeaderError> {
    if parent.None? then (if header.height != 0 then Some(InvalidHeight(0, header.height)) else None)
    else if parent.value.height + 1 > U64_MAX then Some(HeaderOverflow)
    else if header.height != parent.value.height + 1 then Some(InvalidHeight(parent.value.height + 1, header.height))
    else None
  }

  /** Rules 7, 8 and 9. */
  ghost function TimeRule(header: Header, parent: Option<Header>, ancestors: seq<nat>, wallClock: Option<nat>): Option<HeaderError> {
    if ancestors != [] && header.timestamp <= Median(ancestors) then Some(TimestampBelowMtp(Median(ancestors)))
    else if wallClock.Some? && wallClock.value + MAX_TIMESTAMP_DRIFT > U64_MAX then Some(HeaderOverflow)
    else if wallClock.Some? && header.timestamp > wallClock.value + MAX_TIMESTAMP_DRIFT then Some(TimestampTooFarAhead)
    else if parent.Some? && parent.value.timestamp + MAX_TIMESTAMP_GAP > U64_MAX then Some(HeaderOverflow)
    else if parent.Some? && header.timestamp > parent.value.timestamp + MAX_TIMESTAMP_GAP then Some(TimestampGapTooLarge)
    else None
  }

  /** The rules in the order in which they are checked. */
  ghost function ValidateHeader(R: Rules, block: Block, parent: Option<Header>, ancestors: seq<nat>, target: U256,
                                wallClock: Option<nat>, skipPow: bool): Option<HeaderError> {
    var header := block.header;
    if !R.version(header) then Some(InvalidVersion)
    else if HeightRule(header, parent).Some? then HeightRule(header, parent)
    else if header.prevId != (if parent.Some? then R.blockId(parent.value) else ZERO) then Some(InvalidPrevBlockId)
    else if header.target != target then Some(InvalidDifficulty)
    else if !skipPow && !R.pow(header) then Some(PowFailed)
    else if TimeRule(header, parent, ancestors, wallClock).Some? then TimeRule(header, parent, ancestors, wallClock)
    else if R.blockSize(block).None? then Some(OversizedTransaction)
    else if R.blockSize(block).value > MAX_BLOCK_SIZE then Some(OversizedBlock)
    else ValidateBody(R, block)
  }

  method CheckCoinbases(txs: seq<Tx>) returns (r: Option<HeaderError>)
    ensures r == if txs == [] then Some(NoCoinbase) else CoinbaseRule(txs, |txs|)
  {
    if txs == [] || !IsCoinbase(txs[0]) {
      CoinbaseStuck(txs, 1);
      return Some(NoCoinbase);
    }
    for i := 1 to |txs|
      invariant CoinbaseRule(txs, i).None?
    {
      if IsCoinbase(txs[i]) {
        CoinbaseStuck(txs, i + 1);
        return Some(ExtraCoinbase(i));
      }
    }
    r := None;
  }

  lemma {:induction false} CoinbaseStuck(txs: seq<Tx>, n: nat)
    requires n <= |txs| ==> CoinbaseRule(txs, n).Some?
    ensures n <= |txs| ==> CoinbaseRule(txs, |txs|) == CoinbaseRule(txs, n)
    decreases |txs| - n
  {
    if n < |txs| { CoinbaseStuck(txs, n + 1); }
  }

  method CheckRepeats(R: Rules, txs: seq<Tx>) returns (r: Option<HeaderError>)
    ensures r == RepeatRule(R, txs, |txs|)
  {
    var seen: set<Hash256> := {};
    for i := 0 to |txs|
      invariant RepeatRule(R, txs, i).None?
      invariant forall id :: id in seen <==> exists j :: 0 <= j < i && R.txId(txs[j]) == Some(id)
    {
      var id := R.txId(txs[i]);
      if id.None? || id.value in seen {
        RepeatStuck(R, txs, i + 1);
        return if id.None? then Some(OversizedTransaction) else Some(DuplicateTransaction(id.value));
      }
      SeenNext(R, txs, i, seen);
      seen := seen + {id.value};
    }
    r := None;
  }

  lemma SeenNext(R: Rules, txs: seq<Tx>, i: nat, seen: set<Hash256>)
    requires i < |txs| && R.txId(txs[i]).Some?
    requires forall id :: id in seen <==> exists j :: 0 <= j < i && R.txId(txs[j]) == Some(id)
    ensures forall id :: id in seen + {R.txId(txs[i]).value} <==> exists j :: 0 <= j < i + 1 && R.txId(txs[j]) == Some(id)
  {
    forall id | id in seen ensures exists j :: 0 <= j < i + 1 && R.txId(txs[j]) == Some(id) {
      var j :| 0 <= j < i && R.txId(txs[j]) == Some(id);
      assert 0 <= j < i + 1 && R.txId(txs[j]) == Some(id);
    }
    assert 0 <= i < i + 1 && R.txId(txs[i]) == Some(R.txId(txs[i]).value);
  }

  lemma {:induction false} RepeatStuck(R: Rules, txs: seq<Tx>, n: nat)
    requires n <= |txs| && RepeatRule(R, txs, n).Some?
    ensures RepeatRule(R, txs, |txs|) == RepeatRule(R, txs, n)
    decreases |txs| - n
  {
    if n < |txs| { RepeatStuck(R, txs, n + 1); }
  }

  method CheckDoubleSpends(txs: seq<Tx>) returns (r: Option<OutPoint>)
    ensures r == FirstRepeat(PaymentInputs(txs))
  {
    var seen: set<OutPoint> := {};
    ghost var done: seq<OutPoint> := [];
    var i := 1;
    while i < |txs|
      invariant 1 <= i && (i <= |txs| || txs == [])
      invariant txs != [] ==> done == PaymentInputs(txs[..i])
      invariant txs == [] ==> done == []
      invariant FirstRepeat(done).None? && seen == OpSet(done)
    {
      assert txs[..i + 1][..i] == txs[..i];
      var ops := txs[i].inputs;
      ghost var before := done;
      for j := 0 to |ops|
        invariant done == before + ops[..j] && FirstRepeat(done).None? && seen == OpSet(done)
      {
        assert before + ops[..j + 1] == done + [ops[j]];
        OpSetSnoc(done + [ops[j]]);
        if ops[j] in seen {
          RepeatFound(txs, i, j);
          return Some(ops[j]);
        }
        done := done + [ops[j]];
        seen := seen + {ops[j]};
      }
      assert ops[..|ops|] == ops;
      i := i + 1;
    }
    assert txs != [] ==> txs[..|txs|] == txs;
    r := None;
  }

  lemma {:induction false} InputsPrefix(txs: seq<Tx>, n: nat)
    requires 1 <= n <= |txs|
    ensures PaymentInputs(txs[..n]) <= PaymentInputs(txs)
    decreases |txs|
  {
    if n < |txs| {
      InputsPrefix(txs[..|txs| - 1], n);
      assert txs[..|txs| - 1][..n] == txs[..n];
    } else {
      assert txs[..n] == txs;
    }
  }

  lemma {:induction false} RepeatPersists(ops: seq<OutPoint>, n: nat)
    requires n <= |ops| && FirstRepeat(ops[..n]).Some?
    ensures FirstRepeat(ops) == FirstRepeat(ops[..n])
    decreases |ops|
  {
    if n < |ops| {
      assert ops[..|ops| - 1][..n] == ops[..n];
      RepeatPersists(ops[..|ops| - 1], n);
    } else {
      assert ops[..n] == ops;
    }
  }

  lemma RepeatInPrefix(all: seq<OutPoint>, seen: seq<OutPoint>, op: OutPoint)
    requires seen + [op] <= all && FirstRepeat(seen).None? && op in seen
    ensures FirstRepeat(all) == Some(op)
  {
    var n := |seen| + 1;
    assert all[..n] == seen + [op];
    assert all[..n][..|seen|] == seen;
    RepeatPersists(all, n);
  }

  lemma RepeatFound(txs: seq<Tx>, i: nat, j: nat)
    requires 1 <= i < |txs| && j < |txs[i].inputs|
    requires FirstRepeat(PaymentInputs(txs[..i]) + txs[i].inputs[..j]).None?
    requires txs[i].inputs[j] in PaymentInputs(txs[..i]) + txs[i].inputs[..j]
    ensures FirstRepeat(PaymentInputs(txs)) == Some(txs[i].inputs[j])
  {
    hide FirstRepeat, PaymentInputs;
    InputsPrefix(txs, i + 1);
    InputsSnoc(txs, i);
    PrefixThrough(PaymentInputs(txs), PaymentInputs(txs[..i]), txs[i].inputs, j);
    RepeatInPrefix(PaymentInputs(txs), PaymentInputs(txs[..i]) + txs[i].inputs[..j], txs[i].inputs[j]);
  }

  lemma InputsSnoc(txs: seq<Tx>, i: nat)
    requires 1 <= i < |txs|
    ensures PaymentInputs(txs[..i + 1]) == PaymentInputs(txs[..i]) + txs[i].inputs
  {
    assert txs[..i + 1][..i] == txs[..i];
  }

  lemma PrefixThrough(all: seq<OutPoint>, a: seq<OutPoint>, b: seq<OutPoint>, j: nat)
    requires a + b <= all && j < |b|
    ensures a + b[..j] + [b[j]] <= all
  {
    assert a + b == a + b[..j] + [b[j]] + b[j + 1..];
  }

  method ValidateBlockHeader(R: Rules, block: Block, parent: Option<Header>, ancestors: seq<nat>, target: U256,
                             wallClock: Option<nat>, skipPow: bool) returns (r: Option<HeaderError>)
    ensures r == ValidateHeader(R, block, parent, ancestors, target, wallClock, skipPow)
  {
    hide CoinbaseRule, RepeatRule, FirstRepeat, PaymentInputs, Median;
    var header := block.header;
    if !R.version(header) { return Some(InvalidVersion); }
    if HeightRule(header, parent).Some? { return HeightRule(header, parent); }
    var prev := if parent.Some? then R.blockId(parent.value) else ZERO;
    if header.prevId != prev { return Some(InvalidPrevBlockId); }
    if header.target != target { return Some(InvalidDifficulty); }
    if !skipPow && !R.pow(header) { return Some(PowFailed); }
    if ancestors != [] {
      var mtp := MedianTimePast(ancestors);
      if header.timestamp <= mtp { return Some(TimestampBelowMtp(mtp)); }
    }
    if wallClock.Some? {
      if wallClock.value + MAX_TIMESTAMP_DRIFT > U64_MAX { return Some(HeaderOverflow); }
      if header.timestamp > wallClock.value + MAX_TIMESTAMP_DRIFT { return Some(TimestampTooFarAhead); }
    }
    if parent.Some? {
      if parent.value.timestamp + MAX_TIMESTAMP_GAP > U64_MAX { return Some(HeaderOverflow); }
      if header.timestamp > parent.value.timestamp + MAX_TIMESTAMP_GAP { return Some(TimestampGapTooLarge); }
    }
    var size := R.blockSize(block);
    if size.None? { return Some(OversizedTransaction); }
    if size.value > MAX_BLOCK_SIZE { return Some(OversizedBlock); }
    r := CheckCoinbases(block.txs);
    if r.Some? { return; }
    r := CheckRepeats(R, block.txs);
    if r.Some? { return; }
    var twice := CheckDoubleSpends(block.txs);
    if twice.Some? { return Some(DoubleSpend(twice.value)); }
    var root := R.txRoot(block.txs);
    if root.None? { return Some(OversizedTransaction); }
    r := if root.value != header.txRoot then Some(InvalidTxRoot) else None;
  }

  // ---- Blocks and their ids ----

  function Id(R: Rules, block: Block): Hash256 {
    R.blockId(block.header)
  }

  /** The header commits to this transaction list. */
  ghost predicate Sealed(R: Rules, block: Block) {
    block.txs != [] && IsCoinbase(block.txs[0]) && NoRepeats(R, block.txs) && R.txRoot(block.txs) == Some(block.header.txRoot)
  }

  /** A sealed block is determined by its id. */
  lemma SealedById(R: Rules, a: Block, b: Block)
    requires LawfulBlocks(R) && Sealed(R, a) && Sealed(R, b) && Id(R, a) == Id(R, b)
    ensures a == b
  {
    assert a.header == b.header;
    assert a.txs == b.txs;
  }

  /** What a valid header and body guarantee. */
  lemma ValidHeaderFacts(R: Rules, block: Block, parent: Header, ancestors: seq<nat>, target: U256,
                         wallClock: Option<nat>, skipPow: bool)
    requires ValidateHeader(R, block, Some(parent), ancestors, target, wallClock, skipPow).None?
    ensures Sealed(R, block) && block.header.height == parent.height + 1 && block.header.prevId == R.blockId(parent)
    ensures block.header.target == target && Distinct(PaymentInputs(block.txs))
    ensures ancestors != [] ==> Median(ancestors) < block.header.timestamp <= parent.timestamp + MAX_TIMESTAMP_GAP
    ensures forall i | 0 < i < |block.txs| :: !IsCoinbase(block.txs[i])
  {
    hide CoinbaseRule, RepeatRule, FirstRepeat, PaymentInputs, Median;
    CoinbaseRuleMeans(block.txs, |block.txs|);
    RepeatRuleMeans(R, block.txs, |block.txs|);
    assert block.txs[..|block.txs|] == block.txs;
    FirstRepeatMeans(PaymentInputs(block.txs));
  }

  /** Payment inputs that never repeat keep the payments apart. */
  lemma {:induction false} DistinctApart(txs: seq<Tx>)
    requires Distinct(PaymentInputs(txs))
    ensures InputsApart(txs)
  {
    if |txs| > 1 {
      var n := |txs| - 1;
      var a, b := PaymentInputs(txs[..n]), txs[n].inputs;
      forall i, j | 0 <= i < j < |a| ensures a[i] != a[j] { assert (a + b)[i] != (a + b)[j]; }
      forall i, j | 0 <= i < j < |b| ensures b[i] != b[j] { assert (a + b)[|a| + i] != (a + b)[|a| + j]; }
      forall i, j | 0 <= i < |a| && 0 <= j < |b| ensures a[i] != b[j] { assert (a + b)[i] != (a + b)[|a| + j]; }
      DistinctApart(txs[..n]);
      forall i, op | 0 < i < n && op in txs[i].inputs ensures op !in b {
        PaymentInput(txs[..n], i, op);
      }
      forall i | 0 < i < |txs| ensures Distinct(txs[i].inputs) { assert i < n ==> txs[i] == txs[..n][i]; }
      forall i, j, op | 0 < i < j < |txs| && op in txs[i].inputs ensures op !in txs[j].inputs {
        assert txs[i] == txs[..n][i] && (j < n ==> txs[j] == txs[..n][j]);
      }
    }
  }

  lemma {:induction false} InputsFrom(txs: seq<Tx>, op: OutPoint) returns (i: nat)
    requires op in PaymentInputs(txs)
    ensures 0 < i < |txs| && op in txs[i].inputs
  {
    var n := |txs| - 1;
    if op in PaymentInputs(txs[..n]) {
      i := InputsFrom(txs[..n], op);
    } else {
      i := n;
    }
  }

  lemma {:induction false} InputsDistinct(txs: seq<Tx>)
    requires InputsApart(txs)
    ensures Distinct(PaymentInputs(txs))
  {
    if |txs| > 1 {
      var n := |txs| - 1;
      var a, b := PaymentInputs(txs[..n]), txs[n].inputs;
      InputsDistinct(txs[..n]);
      forall op | op in a ensures op !in b {
        var i := InputsFrom(txs[..n], op);
        assert op in txs[i].inputs;
      }
      DistinctConcat(a, b);
    }
  }

  lemma DistinctConcat(a: seq<OutPoint>, b: seq<OutPoint>)
    requires Distinct(a) && Distinct(b) && forall op | op in a :: op !in b
    ensures Distinct(a + b)
  {
    var s := a + b;
    forall i, j | 0 <= i < j < |s| ensures s[i] != s[j] {
      if i < |a| <= j {
        assert s[i] in a && s[j] in b;
      } else if |a| <= i {
        assert s[i] == b[i - |a|] && s[j] == b[j - |a|];
      }
    }
  }

  lemma {:induction false} PaymentInput(txs: seq<Tx>, i: nat, op: OutPoint)
    requires 0 < i < |txs| && op in txs[i].inputs
    ensures op in PaymentInputs(txs)
  {
    if i < |txs| - 1 { PaymentInput(txs[..|txs| - 1], i, op); }
  }

  /** A header with its body passes if and only if it satisfies all of these. */
  lemma ValidHeaderIff(R: Rules, block: Block, parent: Option<Header>, ancestors: seq<nat>, target: U256,
                       wallClock: Option<nat>, skipPow: bool)
    ensures ValidateHeader(R, block, parent, ancestors, target, wallClock, skipPow).None? <==>
              var h, txs := block.header, block.txs;
              && R.version(h) && h.target == target && (skipPow || R.pow(h))
              && (parent.None? ==> h.height == 0 && h.prevId == ZERO)
              && (parent.Some? ==> h.height == parent.value.height + 1 && h.prevId == R.blockId(parent.value))
              && (ancestors != [] ==> Median(ancestors) < h.timestamp)
              && (wallClock.Some? ==> h.timestamp <= wallClock.value + MAX_TIMESTAMP_DRIFT <= U64_MAX)
              && (parent.Some? ==> h.timestamp <= parent.value.timestamp + MAX_TIMESTAMP_GAP <= U64_MAX)
              && R.blockSize(block).Some? && R.blockSize(block).value <= MAX_BLOCK_SIZE
              && txs != [] && (forall i | 0 <= i < |txs| :: IsCoinbase(txs[i]) <==> i == 0)
              && NoRepeats(R, txs) && InputsApart(txs) && R.txRoot(txs) == Some(h.txRoot)
  {
    hide CoinbaseRule, RepeatRule, FirstRepeat, PaymentInputs, Median, NoRepeats, InputsApart;
    CoinbaseRuleMeans(block.txs, |block.txs|);
    RepeatRuleMeans(R, block.txs, |block.txs|);
    assert block.txs[..|block.txs|] == block.txs;
    FirstRepeatMeans(PaymentInputs(block.txs));
    if Distinct(PaymentInputs(block.txs)) { DistinctApart(block.txs); }
    if InputsApart(block.txs) { InputsDistinct(block.txs); }
  }

  /** The header rules grant every block above genesis a well-formed list. */
  lemma HeadersListed(R: Rules, c: seq<Block>, block: Block)
    requires FollowsHeaders(R, c, block) && c != []
    ensures WellListed(R, block.txs)
  {
    hide ValidateHeader, NextTarget, PaymentInputs, InputsApart;
    ValidHeaderFacts(R, block, c[|c| - 1].header, Recent(Timestamps(c), MTP_WINDOW), NextTarget(c), None, false);
    DistinctApart(block.txs);
  }

  // ---- Chains that satisfy every rule ----

  function Timestamps(c: seq<Block>): (ts: seq<nat>)
    ensures |ts| == |c| && forall i | 0 <= i < |c| :: ts[i] == c[i].header.timestamp
  {
    seq(|c|, i requires 0 <= i < |c| => c[i].header.timestamp)
  }

  /** The target of the block that follows the chain. */
  function NextTarget(c: seq<Block>): U256
    requires c != []
  {
    var parent := c[|c| - 1].header;
    if |c| % RETARGET_WINDOW != 0 then parent.target
    else Retarget(parent.target, SatSub(parent.timestamp, c[|c| - RETARGET_WINDOW].header.timestamp))
  }

  /**
   Within a window the target stays. At its end it is rescaled by the seconds from its first to its last block, and
   by none if the clock went back between them.
   */
  lemma NextTargetMeans(c: seq<Block>)
    requires c != []
    ensures |c| % 4320 != 0 ==> NextTarget(c) == c[|c| - 1].header.target
    ensures |c| % 4320 == 0 ==>
              |c| >= 4320 &&
              var first, last := c[|c| - 4320].header, c[|c| - 1].header;
              && (forall e: nat | first.timestamp + e == last.timestamp :: NextTarget(c) == Retarget(last.target, e))
              && (last.timestamp < first.timestamp ==> NextTarget(c) == Retarget(last.target, 0))
  {
    hide Retarget;
  }

  ghost predicate FollowsHeaders(R: Rules, c: seq<Block>, b: Block) {
    if c == [] then Sealed(R, b) && b.header.prevId == ZERO && b.header.height == 0
    else ValidateHeader(R, b, Some(c[|c| - 1].header), Recent(Timestamps(c), MTP_WINDOW), NextTarget(c), None, false).None?
  }

  /** The block passes every check on top of the chain; a first block only needs to be sealed and without parent. */
  ghost predicate Extends(R: Rules, c: seq<Block>, b: Block) {
    && FollowsHeaders(R, c, b) && b.header.height == |c|
    && Accepts(R, UtxosAt(R, c), b)
    && b.header.stateRoot == StateRoot(R, UtxosAt(R, c + [b]))
  }

  ghost predicate Committed(R: Rules, c: seq<Block>) {
    c == [] || (Committed(R, c[..|c| - 1]) && Extends(R, c[..|c| - 1], c[|c| - 1]))
  }

  /** Heights are positions, and every block names the one before it. */
  ghost predicate Linked(R: Rules, c: seq<Block>) {
    forall i | 0 <= i < |c| :: c[i].header.height == i && c[i].header.prevId == PrevOf(R, c[..i])
  }

  /** What the next block names as its parent. */
  function PrevOf(R: Rules, p: seq<Block>): Hash256 {
    if p == [] then ZERO else Id(R, p[|p| - 1])
  }

  lemma {:induction false} CommittedAt(R: Rules, c: seq<Block>, i: nat)
    requires Committed(R, c) && i < |c|
    ensures Committed(R, c[..i]) && Extends(R, c[..i], c[i])
  {
    hide Extends;
    var n := |c| - 1;
    if i < n {
      CommittedAt(R, c[..n], i);
      assert c[..n][..i] == c[..i];
    }
  }

  lemma {:induction false} CommittedPrefix(R: Rules, c: seq<Block>, n: nat)
    requires Committed(R, c) && n <= |c|
    ensures Committed(R, c[..n])
  {
    if n < |c| { CommittedAt(R, c, n); } else { assert c[..n] == c; }
  }

  lemma CommittedSnoc(R: Rules, c: seq<Block>, b: Block)
    requires Committed(R, c) && Extends(R, c, b)
    ensures Committed(R, c + [b])
  {
    hide Extends;
    assert (c + [b])[..|c|] == c;
  }

  lemma {:induction false} CommittedAccepted(R: Rules, c: seq<Block>)
    requires Committed(R, c)
    ensures Accepted(R, c)
  {
    hide FollowsHeaders, Accepts, UtxosAt;
    if c != [] { CommittedAccepted(R, c[..|c| - 1]); }
  }

  /** Every block of the chain is sealed, sits at its height, and names its parent. */
  lemma BlockFacts(R: Rules, c: seq<Block>, i: nat)
    requires Committed(R, c) && i < |c|
    ensures Sealed(R, c[i]) && c[i].header.height == i
    ensures c[i].header.prevId == if i == 0 then ZERO else Id(R, c[i - 1])
  {
    hide Committed, Accepts, UtxosAt, ValidateHeader, Sealed;
    CommittedAt(R, c, i);
    if i > 0 {
      var p := c[..i];
      ValidHeaderFacts(R, c[i], p[i - 1].header, Recent(Timestamps(p), MTP_WINDOW), NextTarget(p), None, false);
    }
  }

  lemma CommittedLinked(R: Rules, c: seq<Block>)
    requires Committed(R, c)
    ensures Linked(R, c)
  {
    hide Committed, Sealed;
    forall i | 0 <= i < |c| ensures c[i].header.height == i && c[i].header.prevId == PrevOf(R, c[..i]) {
      BlockFacts(R, c, i);
    }
  }

  /** No id occurs at two heights, and none is zero. */
  lemma IdsUnique(R: Rules, c: seq<Block>, i: nat, j: nat)
    requires LawfulBlocks(R) && Committed(R, c) && i < |c| && j < |c| && Id(R, c[i]) == Id(R, c[j])
    ensures i == j
  {
    hide Committed, Sealed;
    BlockFacts(R, c, i);
    BlockFacts(R, c, j);
    assert c[i].header == c[j].header;
  }

  /** Every chain that satisfies the block rules satisfies the timestamp rules. */
  lemma {:induction false} CommittedTimes(R: Rules, c: seq<Block>)
    requires Committed(R, c)
    ensures TimestampsOk(Timestamps(c))
  {
    hide Committed, Accepts, UtxosAt, ValidateHeader, Sealed, Median;
    var ts := Timestamps(c);
    forall i | 0 < i < |ts| ensures InWindow(ts[..i], ts[i]) {
      CommittedAt(R, c, i);
      var p := c[..i];
      assert Timestamps(p) == ts[..i];
      ValidHeaderFacts(R, c[i], p[i - 1].header, Recent(ts[..i], MTP_WINDOW), NextTarget(p), None, false);
    }
  }

  /** A genesis time after which no chain of 32-bit heights can reach the end of 64-bit time. */
  const LATEST_GENESIS: nat := U64_MAX - MAX_TIMESTAMP_GAP * (U32_MAX + 1)

  lemma HeightBounded(R: Rules, c: seq<Block>)
    requires Committed(R, c) && c != []
    ensures |c| <= U32_MAX + 1
  {
    hide Committed, UtxosAt, FollowsHeaders, Ran, SpentBytes, SpentAfter, FeesAfter;
    CommittedAt(R, c, |c| - 1);
  }

  /**
   On every chain that satisfies the block rules, from any genesis time up to LATEST_GENESIS, the miner's
   interval is not empty, and whatever the clock says the clamped timestamp passes the timestamp rules.
   */
  lemma MinerAlwaysHasTime(R: Rules, c: seq<Block>, now: nat, header: Header)
    requires Committed(R, c) && c != [] && c[0].header.timestamp <= LATEST_GENESIS
    requires header.timestamp == ClampTime(now, Mtp(Timestamps(c)) + 1, LatestTime(c[|c| - 1].header.timestamp))
    ensures Mtp(Timestamps(c)) + 1 <= LatestTime(c[|c| - 1].header.timestamp)
    ensures TimeRule(header, Some(c[|c| - 1].header), Recent(Timestamps(c), MTP_WINDOW), None).None?
    ensures TimestampsOk(Timestamps(c) + [header.timestamp])
  {
    hide Committed, Recent, Median, TimestampsOk;
    var ts := Timestamps(c);
    CommittedTimes(R, c);
    HeightBounded(R, c);
    TimeGrowth(ts);
    MtpBelowParent(ts);
    MinerTimestamp(ts, now);
  }
}
