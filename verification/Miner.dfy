/**
 Assembling a block template: candidates are tried one by one on a copy of the UTXO set, and the block made
 of those that applied, behind a coinbase that collects their fees, is one that block application accepts.
 */
module Miner {
  import opened SmtSpec
  import opened SmtArena
  import opened WorkSpec
  import opened Ledger
  import opened UtxoState
  import opened BlockSpec
  import opened BlockApply
  import Chain
  import opened Boot

  // ---- What a template contains ----

  /** The candidate is valid on the map and applies to it. */
  ghost predicate Takes(R: Rules, u: Utxos, tx: Tx, height: nat) {
    ValidateTx(R, u, tx, height).Ok? && Applies(R, u, tx)
  }

  /** The candidates that are taken, in order, each tried on the map that the earlier ones left. */
  ghost function Chosen(R: Rules, u: Utxos, txs: seq<Tx>, height: nat): seq<Tx> {
    if txs == [] then []
    else
      var rest, tx := Chosen(R, u, txs[..|txs| - 1], height), txs[|txs| - 1];
      if Takes(R, After(R, u, rest, height, |rest|), tx, height) then rest + [tx] else rest
  }

  ghost function Skipped(R: Rules, u: Utxos, txs: seq<Tx>, height: nat): seq<Tx> {
    if txs == [] then []
    else
      var rest, tx := Skipped(R, u, txs[..|txs| - 1], height), txs[|txs| - 1];
      var done := Chosen(R, u, txs[..|txs| - 1], height);
      if Takes(R, After(R, u, done, height, |done|), tx, height) then rest else rest + [tx]
  }

  lemma ChosenStep(R: Rules, u: Utxos, txs: seq<Tx>, height: nat)
    requires txs != []
    ensures var init, tx := txs[..|txs| - 1], txs[|txs| - 1];
            var done := Chosen(R, u, init, height);
            if Takes(R, After(R, u, done, height, |done|), tx, height)
            then Chosen(R, u, txs, height) == done + [tx] && Skipped(R, u, txs, height) == Skipped(R, u, init, height)
            else Chosen(R, u, txs, height) == done && Skipped(R, u, txs, height) == Skipped(R, u, init, height) + [tx]
  {
    hide Takes, After;
  }

  /** Every candidate is either taken or skipped. */
  lemma {:induction false} Partition(R: Rules, u: Utxos, txs: seq<Tx>, height: nat)
    ensures multiset(Chosen(R, u, txs, height)) + multiset(Skipped(R, u, txs, height)) == multiset(txs)
  {
    hide Takes, After, Chosen, Skipped;
    if txs == [] {
      NoCandidates(R, u, height);
    } else {
      var init, tx := txs[..|txs| - 1], txs[|txs| - 1];
      ChosenStep(R, u, txs, height);
      Partition(R, u, init, height);
      OneMore(Chosen(R, u, init, height), Skipped(R, u, init, height), init, tx);
      assert txs == init + [tx];
    }
  }

  lemma NoCandidates(R: Rules, u: Utxos, height: nat)
    ensures Chosen(R, u, [], height) == [] && Skipped(R, u, [], height) == []
  {
  }

  lemma OneMore(a: seq<Tx>, b: seq<Tx>, all: seq<Tx>, tx: Tx)
    requires multiset(a) + multiset(b) == multiset(all)
    ensures multiset(a + [tx]) + multiset(b) == multiset(all + [tx]) && multiset(a) + multiset(b + [tx]) == multiset(all + [tx])
  {
  }

  /** The first `n` of a list of payments were each valid on the map before them and applied. */
  ghost predicate Paid(R: Rules, u: Utxos, txs: seq<Tx>, height: nat, n: nat)
    requires n <= |txs|
  {
    n == 0 || (Paid(R, u, txs, height, n - 1) && Takes(R, After(R, u, txs, height, n - 1), txs[n - 1], height))
  }

  ghost function FeesPaid(R: Rules, u: Utxos, txs: seq<Tx>, height: nat, n: nat): nat
    requires n <= |txs| && Paid(R, u, txs, height, n)
  {
    if n == 0 then 0
    else FeesPaid(R, u, txs, height, n - 1) + ValidateTx(R, After(R, u, txs, height, n - 1), txs[n - 1], height).value
  }

  lemma {:induction false} AfterSnoc(R: Rules, u: Utxos, txs: seq<Tx>, tx: Tx, height: nat, n: nat)
    requires n <= |txs|
    ensures After(R, u, txs + [tx], height, n) == After(R, u, txs, height, n)
    ensures Paid(R, u, txs + [tx], height, n) == Paid(R, u, txs, height, n)
    ensures Paid(R, u, txs, height, n) ==> FeesPaid(R, u, txs + [tx], height, n) == FeesPaid(R, u, txs, height, n)
    decreases n
  {
    hide Step, Takes;
    if n > 0 { AfterSnoc(R, u, txs, tx, height, n - 1); }
  }

  lemma {:induction false} ChosenPaid(R: Rules, u: Utxos, txs: seq<Tx>, height: nat)
    ensures var c := Chosen(R, u, txs, height); Paid(R, u, c, height, |c|)
  {
    hide Takes, After;
    if txs != [] {
      var rest, tx := Chosen(R, u, txs[..|txs| - 1], height), txs[|txs| - 1];
      ChosenPaid(R, u, txs[..|txs| - 1], height);
      AfterSnoc(R, u, rest, tx, height, |rest|);
    }
  }

  /** What was taken before some turn stays, in front. */
  lemma {:induction false} ChosenKeeps(R: Rules, u: Utxos, txs: seq<Tx>, height: nat, k: nat)
    requires k <= |txs|
    ensures Chosen(R, u, txs[..k], height) <= Chosen(R, u, txs, height)
    decreases |txs|
  {
    hide Takes, After;
    if k == |txs| {
      assert txs[..k] == txs;
    } else {
      var n := |txs| - 1;
      assert txs[..n][..k] == txs[..k];
      ChosenKeeps(R, u, txs[..n], height, k);
    }
  }

  /** A candidate is in the template, or it was invalid or did not apply when its turn came. */
  lemma CandidateTurn(R: Rules, u: Utxos, txs: seq<Tx>, height: nat, k: nat)
    requires k < |txs|
    ensures var done := Chosen(R, u, txs[..k], height);
            var w := After(R, u, done, height, |done|);
            txs[k] in Chosen(R, u, txs, height) || ValidateTx(R, w, txs[k], height).Err? || !Applies(R, w, txs[k])
  {
    hide After, Applies, ValidateTx, Chosen, Skipped;
    var done := Chosen(R, u, txs[..k], height);
    assert txs[..k + 1][..k] == txs[..k];
    ChosenStep(R, u, txs[..k + 1], height);
    ChosenKeeps(R, u, txs, height, k + 1);
    if Takes(R, After(R, u, done, height, |done|), txs[k], height) {
      assert Chosen(R, u, txs, height)[|done|] == txs[k];
    }
  }

  // ---- Putting the coinbase in front ----

  /** Where the entries of a list of outpoints are the same, a transaction with these inputs is judged the same. */
  lemma {:induction false} SameBadInput(u: Utxos, v: Utxos, ops: seq<OutPoint>, height: nat)
    requires forall i | 0 <= i < |ops| :: ops[i] in u && ops[i] in v && u[ops[i]] == v[ops[i]]
    ensures BadInputIn(u, ops, height) == BadInputIn(v, ops, height)
  {
    if ops != [] { SameBadInput(u, v, ops[..|ops| - 1], height); }
  }

  lemma SameVerdict(R: Rules, u: Utxos, v: Utxos, tx: Tx, height: nat)
    requires ValidateTx(R, u, tx, height).Ok? && forall i | 0 <= i < |tx.inputs| && tx.inputs[i] in u :: tx.inputs[i] in v && u[tx.inputs[i]] == v[tx.inputs[i]]
    ensures ValidateTx(R, v, tx, height) == ValidateTx(R, u, tx, height)
  {
    ValidTxFacts(R, u, tx, height);
    hide SumEntries, SumOutputs, Distinct;
    SameBadInput(u, v, tx.inputs, height);
    NoBadInput(u, tx.inputs, height);
    NoBadInput(v, tx.inputs, height);
    assert Entries(u, tx.inputs) == Entries(v, tx.inputs);
  }

  /** The coinbase's outputs are new and none of the payments can be confused with it. */
  ghost predicate FreshCoinbase(R: Rules, u: Utxos, cb: Tx) {
    IsCoinbase(cb) && R.txId(cb).Some? && Unowned(u, R.txId(cb).value)
  }

  ghost function CoinbaseEntries(R: Rules, cb: Tx, height: nat): Utxos
    requires R.txId(cb).Some?
  {
    Created(R.txId(cb).value, cb.outputs, height, true)
  }

  /** The step of one payment with the coinbase's outputs beside it. */
  lemma BesideCoinbase(R: Rules, w: Utxos, tx: Tx, cb: Tx, height: nat)
    requires Lawful(R) && Sane(R, w) && FreshCoinbase(R, w, cb) && Takes(R, w, tx, height)
    ensures var c := CoinbaseEntries(R, cb, height);
            && Takes(R, w + c, tx, height) && ValidateTx(R, w + c, tx, height) == ValidateTx(R, w, tx, height)
            && R.txId(tx).Some? && R.txId(tx) != R.txId(cb)
            && Applied(R, w + c, tx, height) == Applied(R, w, tx, height) + c
            && Unowned(Applied(R, w, tx, height), R.txId(cb).value)
  {
    hide ValidateTx;
    var c := CoinbaseEntries(R, cb, height);
    ValidTxFacts(R, w, tx, height);
    ValidNotCoinbase(R, w, tx, height);
    OtherId(R, tx, cb);
    forall i | 0 <= i < |tx.inputs| ensures tx.inputs[i] in w + c && (w + c)[tx.inputs[i]] == w[tx.inputs[i]] {
      assert tx.inputs[i] in w;
      assert tx.inputs[i] !in c;
    }
    SameVerdict(R, w, w + c, tx, height);
    Commutes(R, w, c, tx, height);
  }

  lemma OtherId(R: Rules, tx: Tx, cb: Tx)
    requires Lawful(R) && IsCoinbase(cb) && !IsCoinbase(tx) && R.txId(cb).Some?
    ensures R.txId(tx) != R.txId(cb)
  {
  }

  lemma Commutes(R: Rules, w: Utxos, c: Utxos, tx: Tx, height: nat)
    requires Applies(R, w, tx) && (forall op | op in c :: op !in w && op.txId != R.txId(tx).value)
    ensures Applies(R, w + c, tx) && Applied(R, w + c, tx, height) == Applied(R, w, tx, height) + c
  {
    var ops := Consumed(tx);
    forall i | 0 <= i < |ops| ensures ops[i] in w + c && ops[i] !in c { assert ops[i] in w; }
    assert OpSet(ops) !! c.Keys by { forall op | op in OpSet(ops) ensures op !in c { var i :| 0 <= i < |ops| && ops[i] == op; } }
    var id := R.txId(tx).value;
    var made := Created(id, tx.outputs, height, IsCoinbase(tx));
    assert made.Keys !! c.Keys;
    assert ((w + c) - OpSet(ops)) + made == ((w - OpSet(ops)) + made) + c;
    forall i | 0 <= i < |tx.outputs| ensures !Blocked(R, w + c, tx, i) {
      assert !Blocked(R, w, tx, i);
      assert OutPoint(id, i).txId == id;
    }
  }

  /**
   The run of the block behind its coinbase is the trial run plus the coinbase's outputs, with the same fees.
   */
  ghost predicate Behind(R: Rules, u: Utxos, cb: Tx, txs: seq<Tx>, height: nat, n: nat)
    requires n <= |txs| && Paid(R, u, txs, height, n) && R.txId(cb).Some?
  {
    && Ran(R, u, [cb] + txs, height, n + 1)
    && After(R, u, [cb] + txs, height, n + 1) == After(R, u, txs, height, n) + CoinbaseEntries(R, cb, height)
    && FeesAfter(R, u, [cb] + txs, height, n + 1) == FeesPaid(R, u, txs, height, n)
    && Unowned(After(R, u, txs, height, n), R.txId(cb).value) && Sane(R, After(R, u, txs, height, n))
  }

  lemma {:induction false} BehindCoinbase(R: Rules, u: Utxos, cb: Tx, txs: seq<Tx>, height: nat, n: nat)
    requires Lawful(R) && Sane(R, u) && FreshCoinbase(R, u, cb) && n <= |txs| && Paid(R, u, txs, height, n)
    requires forall i | 0 <= i < |cb.outputs| :: R.outputSize(cb.outputs[i]).Some?
    ensures Behind(R, u, cb, txs, height, n)
    decreases n
  {
    if n == 0 {
      CoinbaseFirstStep(R, u, cb, txs, height);
    } else {
      PaidStep(R, u, txs, height, n);
      hide Behind, Paid, Lawful, Sane, FreshCoinbase, Takes, After, FeesPaid;
      BehindCoinbase(R, u, cb, txs, height, n - 1);
      BehindStep(R, u, cb, txs, height, n);
    }
  }

  lemma PaidStep(R: Rules, u: Utxos, txs: seq<Tx>, height: nat, n: nat)
    requires 0 < n <= |txs| && Paid(R, u, txs, height, n)
    ensures var w := After(R, u, txs, height, n - 1);
            && Paid(R, u, txs, height, n - 1) && Takes(R, w, txs[n - 1], height)
            && FeesPaid(R, u, txs, height, n) == FeesPaid(R, u, txs, height, n - 1) + ValidateTx(R, w, txs[n - 1], height).value
            && R.txId(txs[n - 1]).Some? && After(R, u, txs, height, n) == Applied(R, w, txs[n - 1], height)
  {
    hide Applied, ValidateTx;
  }

  lemma RanNext(R: Rules, u: Utxos, txs: seq<Tx>, height: nat, n: nat)
    requires 0 < n < |txs| && Ran(R, u, txs, height, n) && Takes(R, After(R, u, txs, height, n), txs[n], height)
    ensures var w := After(R, u, txs, height, n);
            && Ran(R, u, txs, height, n + 1) && R.txId(txs[n]).Some?
            && After(R, u, txs, height, n + 1) == Applied(R, w, txs[n], height)
            && FeesAfter(R, u, txs, height, n + 1) == FeesAfter(R, u, txs, height, n) + ValidateTx(R, w, txs[n], height).value
  {
    hide Applied, ValidateTx;
  }

  lemma CoinbaseFirstStep(R: Rules, u: Utxos, cb: Tx, txs: seq<Tx>, height: nat)
    requires Lawful(R) && FreshCoinbase(R, u, cb) && forall i | 0 <= i < |cb.outputs| :: R.outputSize(cb.outputs[i]).Some?
    ensures Ran(R, u, [cb] + txs, height, 1) && FeesAfter(R, u, [cb] + txs, height, 1) == 0
    ensures After(R, u, [cb] + txs, height, 1) == u + CoinbaseEntries(R, cb, height)
  {
    var all := [cb] + txs;
    assert all[0] == cb && After(R, u, all, height, 0) == u;
    assert OpSet([]) == {};
    assert u - OpSet(Consumed(cb)) == u;
    CoinbaseApplies(R, u, cb);
    assert Ran(R, u, all, height, 0);
  }

  lemma BehindStep(R: Rules, u: Utxos, cb: Tx, txs: seq<Tx>, height: nat, n: nat)
    requires Lawful(R) && Sane(R, u) && FreshCoinbase(R, u, cb) && 0 < n <= |txs| && Paid(R, u, txs, height, n)
    requires Paid(R, u, txs, height, n - 1) && Behind(R, u, cb, txs, height, n - 1)
    ensures Behind(R, u, cb, txs, height, n)
  {
    PaidStep(R, u, txs, height, n);
    hide Lawful, Sane, Applied, Takes, ValidateTx, CoinbaseEntries, Unowned, Paid, FeesPaid, After, Ran, FeesAfter;
    var all := [cb] + txs;
    assert all[n] == txs[n - 1];
    var w := After(R, u, txs, height, n - 1);
    BesideCoinbase(R, w, txs[n - 1], cb, height);
    RanNext(R, u, all, height, n);
    StillSane(R, u, txs, height, n);
  }

  // ---- The template ----

  /** The single-output coinbase that the miner builds. */
  function Coinbase(height: nat, value: U64, script: Bytes): Tx {
    Tx([OutPoint(ZERO, height)], [TxOutput(value, script, [])], [])
  }

  /** Coinbases of this miner meet the form, size and script rules. */
  ghost predicate GoodMiner(R: Rules, script: Bytes) {
    forall height: nat, value: U64 | height <= U32_MAX ::
      && R.fits(Coinbase(height, value, script)) && R.coinbaseForm(Coinbase(height, value, script), height)
      && R.outputsAdmissible(Coinbase(height, value, script))
  }

  function BuildCoinbase(R: Rules, script: Bytes, height: nat, fees: nat): (tx: Option<Tx>)
    ensures tx.Some? <==> height <= U32_MAX && R.reward(height) + fees <= U64_MAX
  {
    if height > U32_MAX then None
    else if R.reward(height) + fees > U64_MAX then None
    else Some(Coinbase(height, R.reward(height) + fees, script))
  }

  /** The collected fees, as far as they fit 64 bits. */
  function CapFees(fees: nat): U64 {
    if fees > U64_MAX then U64_MAX else fees
  }

  /** What must hold besides the template's own checks for the block to be acceptable. */
  ghost predicate TemplateConditions(R: Rules, u: Utxos, height: nat, script: Bytes, block: Block, fees: nat) {
    && GoodMiner(R, script) && R.reward(height) >= DUST_THRESHOLD
    && fees <= U64_MAX
    && SpentBytes(R, SpentAfter(R, u, block.txs, height, |block.txs|)) <= MAX_SPENT_UTXOS_SIZE
    && block.txs != [] && FreshCoinbase(R, u, block.txs[0])
  }

  /** A block of chosen candidates behind a coinbase with their fees is accepted, with those fees. */
  lemma TemplateAccepted(R: Rules, u: Utxos, script: Bytes, block: Block, txs: seq<Tx>, fees: nat)
    requires Lawful(R) && Sane(R, u) && Paid(R, u, txs, block.header.height, |txs|) && fees == FeesPaid(R, u, txs, block.header.height, |txs|)
    requires BuildCoinbase(R, script, block.header.height, fees).Some?
    requires block.txs == [BuildCoinbase(R, script, block.header.height, fees).value] + txs
    requires TemplateConditions(R, u, block.header.height, script, block, fees)
    ensures Accepts(R, u, block) && FeesAfter(R, u, block.txs, block.header.height, |block.txs|) == fees
  {
    hide Ran, After, FeesAfter, SpentAfter, SpentBytes, Sane, Paid, FeesPaid, Unowned;
    var height, cb := block.header.height, block.txs[0];
    var value: U64 := R.reward(height) + fees;
    assert cb == Coinbase(height, value, script);
    CoinbaseSizes(R, cb);
    BehindCoinbase(R, u, cb, txs, height, |txs|);
    OneOutput(cb.outputs[0]);
  }

  lemma CoinbaseSizes(R: Rules, cb: Tx)
    requires Lawful(R) && R.txId(cb).Some?
    ensures forall i | 0 <= i < |cb.outputs| :: R.outputSize(cb.outputs[i]).Some?
  {
  }

  lemma OneOutput(o: TxOutput)
    ensures SumOutputs([o]) == o.value
  {
    assert [o][..0] == [];
  }

  /** A copy of the set that can be changed freely. */
  method CloneSet(utxo: UtxoSet) returns (copy: UtxoSet)
    requires utxo.Valid()
    ensures fresh(copy) && fresh(copy.smt) && copy.Valid() && copy.R == utxo.R && copy.utxos == utxo.utxos
  {
    hide UtxoSet.Valid;
    utxo.EntriesSane();
    copy := new UtxoSet(utxo.R);
    var ok := LoadSnapshot(copy, utxo.utxos);
  }

  /** The value of the inputs that are there. */
  method InputValue(u: Utxos, ops: seq<OutPoint>) returns (total: nat)
    ensures AllPresent(u, ops) ==> total == SumEntries(Entries(u, ops))
  {
    total := 0;
    for i := 0 to |ops|
      invariant AllPresent(u, ops) ==> total == SumEntries(Entries(u, ops)[..i])
    {
      if AllPresent(u, ops) { assert Entries(u, ops)[..i + 1][..i] == Entries(u, ops)[..i]; }
      if ops[i] in u { total := total + u[ops[i]].output.value; }
    }
    if AllPresent(u, ops) { assert Entries(u, ops)[..|ops|] == Entries(u, ops); }
  }

  /** Try one candidate; a failed application is undone by going back to a copy made before it. */
  method TryCandidate(trial: UtxoSet, tx: Tx, height: nat, ghost u: Utxos, ghost done: seq<Tx>)
    returns (next: UtxoSet, taken: bool, fee: nat)
    requires trial.Valid() && trial.utxos == After(trial.R, u, done, height, |done|)
    modifies trial, trial.smt
    ensures next.Valid() && next.R == trial.R && (next == trial || (fresh(next) && fresh(next.smt)))
    ensures taken <==> Takes(trial.R, After(trial.R, u, done, height, |done|), tx, height)
    ensures next.utxos == if taken then After(trial.R, u, done + [tx], height, |done| + 1) else After(trial.R, u, done, height, |done|)
    ensures taken ==> fee == ValidateTx(trial.R, After(trial.R, u, done, height, |done|), tx, height).value
  {
    hide UtxoSet.Valid, ValidateTx, Applies, Applied, HalfApplied, SumEntries, SumOutputs;
    ghost var w := trial.utxos;
    next, taken, fee := trial, false, 0;
    var verdict := ValidateTransaction(trial.R, trial.utxos, tx, height);
    if verdict.Err? { return; }
    ValidTxFacts(trial.R, w, tx, height);
    var snapshot := CloneSet(trial);
    var total := InputValue(trial.utxos, tx.inputs);
    var outs := TotalOutputs(tx.outputs);
    var applied := trial.ApplyTransaction(tx, height);
    if applied.Err? {
      next := snapshot;
      return;
    }
    AfterSnoc(trial.R, u, done, tx, height, |done|);
    AppliesId(trial.R, w, tx);
    taken, fee := true, if total < outs then 0 else total - outs;
  }

  /** The ids of the transactions that have one. */
  function IdsOf(R: Rules, txs: seq<Tx>): seq<Hash256> {
    if txs == [] then []
    else IdsOf(R, txs[..|txs| - 1]) + (if R.txId(txs[|txs| - 1]).Some? then [R.txId(txs[|txs| - 1]).value] else [])
  }

  /** Try all candidates in order. */
  method TryAll(utxo: UtxoSet, txs: seq<Tx>, height: nat) returns (applied: seq<Tx>, skipped: seq<Hash256>, fees: nat)
    requires utxo.Valid()
    ensures applied == Chosen(utxo.R, utxo.utxos, txs, height) && skipped == IdsOf(utxo.R, Skipped(utxo.R, utxo.utxos, txs, height))
    ensures Paid(utxo.R, utxo.utxos, applied, height, |applied|) && fees == FeesPaid(utxo.R, utxo.utxos, applied, height, |applied|)
  {
    hide UtxoSet.Valid, Takes, After, Chosen, Skipped, Paid, FeesPaid, IdsOf;
    ghost var R, u := utxo.R, utxo.utxos;
    var trial := CloneSet(utxo);
    applied, skipped, fees := [], [], 0;
    ghost var left: seq<Tx> := [];
    NothingTried(R, u, height);
    for i := 0 to |txs|
      invariant fresh(trial) && fresh(trial.smt) && trial.Valid() && trial.R == R
      invariant utxo.R == R && utxo.utxos == u
      invariant applied == Chosen(R, u, txs[..i], height) && left == Skipped(R, u, txs[..i], height) && skipped == IdsOf(R, left)
      invariant trial.utxos == After(R, u, applied, height, |applied|)
      invariant Paid(R, u, applied, height, |applied|) && fees == FeesPaid(R, u, applied, height, |applied|)
    {
      assert txs[..i + 1][..i] == txs[..i];
      ChosenStep(R, u, txs[..i + 1], height);
      IdsStep(R, left, txs[i]);
      PaidSnoc(R, u, applied, txs[i], height);
      var taken, fee;
      trial, taken, fee := TryCandidate(trial, txs[i], height, u, applied);
      if taken {
        applied, fees := applied + [txs[i]], fees + fee;
      } else {
        var id := utxo.R.txId(txs[i]);
        if id.Some? { skipped := skipped + [id.value]; }
        left := left + [txs[i]];
      }
    }
    assert txs[..|txs|] == txs;
  }

  lemma NothingTried(R: Rules, u: Utxos, height: nat)
    ensures Chosen(R, u, [], height) == [] && Skipped(R, u, [], height) == [] && IdsOf(R, []) == []
    ensures After(R, u, [], height, 0) == u && Paid(R, u, [], height, 0) && FeesPaid(R, u, [], height, 0) == 0
  {
  }

  lemma IdsStep(R: Rules, txs: seq<Tx>, tx: Tx)
    ensures IdsOf(R, txs + [tx]) == IdsOf(R, txs) + (if R.txId(tx).Some? then [R.txId(tx).value] else [])
  {
    assert (txs + [tx])[..|txs|] == txs;
  }

  lemma PaidSnoc(R: Rules, u: Utxos, txs: seq<Tx>, tx: Tx, height: nat)
    requires Paid(R, u, txs, height, |txs|)
    ensures Takes(R, After(R, u, txs, height, |txs|), tx, height) ==>
              && Paid(R, u, txs + [tx], height, |txs| + 1)
              && FeesPaid(R, u, txs + [tx], height, |txs| + 1)
                   == FeesPaid(R, u, txs, height, |txs|) + ValidateTx(R, After(R, u, txs, height, |txs|), tx, height).value
  {
    hide After, Takes, ValidateTx;
    AfterSnoc(R, u, txs, tx, height, |txs|);
    if Takes(R, After(R, u, txs, height, |txs|), tx, height) {
      TakesOk(R, After(R, u, txs, height, |txs|), tx, height);
    }
  }

  lemma TakesOk(R: Rules, u: Utxos, tx: Tx, height: nat)
    requires Takes(R, u, tx, height)
    ensures ValidateTx(R, u, tx, height).Ok?
  {
  }

  /** Apply a list of transactions, stopping at the first that fails. */
  method ApplyAll(utxo: UtxoSet, txs: seq<Tx>, height: nat) returns (ok: bool)
    requires utxo.Valid()
    modifies utxo, utxo.smt
    ensures utxo.Valid()
    ensures ok <==> Flows(utxo.R, old(utxo.utxos), txs, height, |txs|)
    ensures ok ==> utxo.utxos == After(utxo.R, old(utxo.utxos), txs, height, |txs|)
  {
    hide UtxoSet.Valid, Applies, Applied, HalfApplied, After, Flows;
    ghost var R, u := utxo.R, utxo.utxos;
    FlowsStart(R, u, txs, height);
    for i := 0 to |txs|
      invariant utxo.Valid() && utxo.R == R && Flows(R, u, txs, height, i) && utxo.utxos == After(R, u, txs, height, i)
    {
      FlowsNext(R, u, txs, height, i);
      var r := utxo.ApplyTransaction(txs[i], height);
      if r.Err? {
        FlowsStuck(R, u, txs, height, i);
        return false;
      }
    }
    ok := true;
  }

  lemma FlowsStart(R: Rules, u: Utxos, txs: seq<Tx>, height: nat)
    ensures Flows(R, u, txs, height, 0) && After(R, u, txs, height, 0) == u
  {
  }

  lemma FlowsNext(R: Rules, u: Utxos, txs: seq<Tx>, height: nat, i: nat)
    requires i < |txs| && Flows(R, u, txs, height, i)
    ensures Flows(R, u, txs, height, i + 1) <==> Applies(R, After(R, u, txs, height, i), txs[i])
    ensures Applies(R, After(R, u, txs, height, i), txs[i]) ==>
              R.txId(txs[i]).Some? && After(R, u, txs, height, i + 1) == Applied(R, After(R, u, txs, height, i), txs[i], height)
  {
    hide Applied;
  }

  lemma FlowsStuck(R: Rules, u: Utxos, txs: seq<Tx>, height: nat, i: nat)
    requires i < |txs| && !Flows(R, u, txs, height, i + 1)
    ensures !Flows(R, u, txs, height, |txs|)
  {
    hide Flows;
    if Flows(R, u, txs, height, |txs|) { FlowsPrefix(R, u, txs, height, i + 1, |txs|); }
  }

  /**
   Assemble a template. What is returned is the coinbase followed by the chosen candidates, its state root is
   that of applying the block, and under the conditions block application accepts it with the same fees.
   */
  method BuildTemplate(utxo: UtxoSet, script: Bytes, height: U64, prevId: Hash256, target: U256, timestamp: U64, seal: Bytes, txs: seq<Tx>)
    returns (r: Option<(Block, seq<Hash256>)>)
    requires utxo.Valid() && LawfulBlocks(utxo.R) && GoodMiner(utxo.R, script)
    ensures r.Some? ==>
              var (block, skipped) := r.value;
              var R, u := utxo.R, utxo.utxos;
              var chosen := Chosen(R, u, txs, height);
              && Paid(R, u, chosen, height, |chosen|)
              && block.txs != [] && block.txs[1..] == chosen
              && BuildCoinbase(R, script, height, CapFees(FeesPaid(R, u, chosen, height, |chosen|))) == Some(block.txs[0])
              && var value := R.reward(height) + CapFees(FeesPaid(R, u, chosen, height, |chosen|));
              && value <= U64_MAX && block.txs[0].inputs == [OutPoint(ZERO, height)]
              && block.txs[0].outputs == [TxOutput(value, script, [])]
              && HoldsReward(R, After(R, u, block.txs, height, |block.txs|), block.txs[0], value, script, height)
              && skipped == IdsOf(R, Skipped(R, u, txs, height))
              && block.header.height == height && block.header.prevId == prevId && block.header.timestamp == timestamp
              && block.header.target == target && R.txRoot(block.txs) == Some(block.header.txRoot)
              && block.header.stateRoot == StateRoot(R, After(R, u, block.txs, height, |block.txs|))
              && (TemplateConditions(R, u, height, script, block, FeesPaid(R, u, chosen, height, |chosen|)) ==>
                    && Accepts(R, u, block)
                    && FeesAfter(R, u, block.txs, height, |block.txs|) == FeesPaid(R, u, chosen, height, |chosen|))
    ensures r.None? ==>
              var R, u := utxo.R, utxo.utxos;
              var chosen := Chosen(R, u, txs, height);
              && Paid(R, u, chosen, height, |chosen|)
              && var cb := BuildCoinbase(R, script, height, CapFees(FeesPaid(R, u, chosen, height, |chosen|)));
              cb.None? || !FreshCoinbase(R, u, cb.value)
  {
    hide UtxoSet.Valid, LawfulBlocks, After, Flows, Chosen, Skipped, Paid, FeesPaid, FeesAfter, IdsOf, StateRoot, TemplateConditions, Accepts, Takes, FreshCoinbase;
    hide GoodMiner, BuildCoinbase, HoldsReward;
    ghost var R, u := utxo.R, utxo.utxos;
    utxo.EntriesSane();
    var applied, skipped, fees := TryAll(utxo, txs, height);
    var coinbase := BuildCoinbase(utxo.R, script, height, CapFees(fees));
    if coinbase.None? { return None; }
    var final := CloneSet(utxo);
    var all := [coinbase.value] + applied;
    var ok := ApplyAll(final, all, height);
    if FreshCoinbase(R, u, coinbase.value) { Rebuilds(R, u, coinbase.value, applied, height); }
    if !ok { return None; }
    RootExists(R, u, script, height, all, applied, CapFees(fees));
    RewardPaid(R, u, script, height, all, applied, CapFees(fees));
    var txRoot := utxo.R.txRoot(all);
    var stateRoot := final.GetStateRoot();
    var block := Block(Header(height, prevId, timestamp, target, txRoot.value, stateRoot, seal), all);
    if TemplateConditions(R, u, height, script, block, fees) {
      FeesFit(R, u, height, script, block, fees);
      TemplateAccepted(R, u, script, block, applied, fees);
    }
    r := Some((block, skipped));
  }

  /** The map holds an unspent entry for the script, with this value, from the coinbase of this height. */
  ghost predicate HoldsReward(R: Rules, u: Utxos, cb: Tx, value: nat, script: Bytes, height: nat) {
    && R.txId(cb).Some? && OutPoint(R.txId(cb).value, 0) in u
    && var e := u[OutPoint(R.txId(cb).value, 0)];
    e.output.value == value && e.output.script == script && e.output.datum == [] && e.height == height && e.isCoinbase
  }

  /** Once the block is applied, reward and fees are the miner's. */
  lemma RewardPaid(R: Rules, u: Utxos, script: Bytes, height: nat, all: seq<Tx>, applied: seq<Tx>, fees: U64)
    requires Lawful(R) && Sane(R, u) && GoodMiner(R, script) && BuildCoinbase(R, script, height, fees).Some?
    requires Paid(R, u, applied, height, |applied|) && all == [BuildCoinbase(R, script, height, fees).value] + applied
    requires Flows(R, u, all, height, |all|)
    ensures all[0].inputs == [OutPoint(ZERO, height)]
    ensures R.reward(height) + fees <= U64_MAX && all[0].outputs == [TxOutput(R.reward(height) + fees, script, [])]
    ensures HoldsReward(R, After(R, u, all, height, |all|), all[0], R.reward(height) + fees, script, height)
  {
    hide Paid, After, Flows, Ran, FeesAfter, FeesPaid, Sane, Applies, Collides, Lawful, Spends, Distinct, AllPresent, Unowned;
    var value: U64 := R.reward(height) + fees;
    var cb := all[0];
    assert cb == Coinbase(height, value, script) && R.fits(Coinbase(height, value, script));
    FitsId(R, cb);
    FlowsAt(R, u, all, height, 0, |all|);
    RunStart(R, u, all, height);
    CoinbaseApplies(R, u, cb);
    Chain.OwnedMeansCollision(R, u, cb);
    CoinbaseSizes(R, cb);
    BehindCoinbase(R, u, cb, applied, height, |applied|);
    assert OutPoint(R.txId(cb).value, 0) in CoinbaseEntries(R, cb, height);
  }

  lemma FitsId(R: Rules, tx: Tx)
    requires Lawful(R) && R.fits(tx)
    ensures R.txId(tx).Some?
  {
    hide IdInjective, LeafKeysInjective;
  }

  /** Behind a fresh coinbase everything that applied in the trial applies again. */
  lemma Rebuilds(R: Rules, u: Utxos, cb: Tx, txs: seq<Tx>, height: nat)
    requires Lawful(R) && Sane(R, u) && FreshCoinbase(R, u, cb) && Paid(R, u, txs, height, |txs|)
    ensures Flows(R, u, [cb] + txs, height, |[cb] + txs|)
  {
    hide Ran, Flows, Paid, After, Sane, Lawful;
    CoinbaseSizes(R, cb);
    BehindCoinbase(R, u, cb, txs, height, |txs|);
    RanFlows(R, u, [cb] + txs, height, |txs| + 1);
  }

  lemma FeesFit(R: Rules, u: Utxos, height: nat, script: Bytes, block: Block, fees: nat)
    requires TemplateConditions(R, u, height, script, block, fees)
    ensures CapFees(fees) == fees
  {
  }

  lemma {:induction false} PaidFits(R: Rules, u: Utxos, txs: seq<Tx>, height: nat, n: nat, i: nat)
    requires i < n <= |txs| && Paid(R, u, txs, height, n)
    ensures R.fits(txs[i])
    decreases n
  {
    PaidStep(R, u, txs, height, n);
    hide Paid, After, FeesPaid, ValidateTx, Applies;
    if i == n - 1 {
      ValidTxFacts(R, After(R, u, txs, height, i), txs[i], height);
    } else {
      PaidFits(R, u, txs, height, n - 1, i);
    }
  }

  lemma RootExists(R: Rules, u: Utxos, script: Bytes, height: nat, all: seq<Tx>, applied: seq<Tx>, fees: U64)
    requires LawfulBlocks(R) && GoodMiner(R, script) && BuildCoinbase(R, script, height, fees).Some?
    requires Paid(R, u, applied, height, |applied|) && all == [BuildCoinbase(R, script, height, fees).value] + applied
    ensures R.txRoot(all).Some?
  {
    hide Paid;
    var value: U64 := R.reward(height) + fees;
    assert all[0] == Coinbase(height, value, script);
    forall tx | tx in all ensures R.fits(tx) {
      var i :| 0 <= i < |all| && all[i] == tx;
      if i > 0 { PaidFits(R, u, applied, height, |applied|, i - 1); }
    }
    RootOfList(R, all);
  }

  lemma RootOfList(R: Rules, txs: seq<Tx>)
    requires LawfulBlocks(R) && forall tx | tx in txs :: R.fits(tx)
    ensures R.txRoot(txs).Some?
  {
    var b := Block(Header(0, 0, 0, 0, 0, 0, []), txs);
    assert b.txs == txs;
    assert R.blockSize(b).Some? && R.txRoot(b.txs).Some?;
  }
}
