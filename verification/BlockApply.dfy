/**
 Application of a block to the UTXO set in place: the validating path with rollback on every error,
 the trusted path that skips signatures and scripts, and the undo of applied transactions.
 */
module BlockApply {
  import opened SmtArena
  import opened Ledger
  import opened UtxoState
  import opened BlockSpec

  // ---- Validation ----

  /** No input is listed twice. */
  method CheckDistinct(ops: seq<OutPoint>) returns (distinct: bool)
    ensures distinct == Distinct(ops)
  {
    var seen: set<OutPoint> := {};
    for i := 0 to |ops|
      invariant Distinct(ops[..i]) && seen == OpSet(ops[..i])
    {
      if ops[i] in seen {
        assert ops[i] in OpSet(ops[..i]);
        return false;
      }
      OpSetSnoc(ops[..i + 1]);
      assert ops[..i + 1][..i] == ops[..i];
      forall j | 0 <= j < i ensures ops[j] != ops[i] { assert ops[..i][j] in OpSet(ops[..i]); }
      seen := seen + {ops[i]};
    }
    assert ops[..|ops|] == ops;
    distinct := true;
  }

  method CheckInputs(u: Utxos, ops: seq<OutPoint>, height: nat)
    returns (bad: Option<TxError>, total: nat, es: seq<UtxoEntry>)
    ensures bad == BadInputIn(u, ops, height)
    ensures bad.None? ==> AllPresent(u, ops) && es == Entries(u, ops) && total == SumEntries(es)
  {
    total, es := 0, [];
    for i := 0 to |ops|
      invariant BadInputIn(u, ops[..i], height).None?
      invariant |es| == i && forall j | 0 <= j < i :: ops[j] in u && es[j] == u[ops[j]]
      invariant total == SumEntries(es)
    {
      var op := ops[i];
      assert ops[..i + 1][..i] == ops[..i];
      if op !in u {
        BadPrefix(u, ops, i + 1, height);
        return Some(UtxoNotFound(op)), total, es;
      }
      if u[op].isCoinbase && Age(height, u[op].height) < COINBASE_MATURITY {
        BadPrefix(u, ops, i + 1, height);
        return Some(CoinbaseImmature(op, Age(height, u[op].height))), total, es;
      }
      total := total + u[op].output.value;
      es := es + [u[op]];
      assert es[..i] + [u[op]] == es;
    }
    assert ops[..|ops|] == ops;
    assert AllPresent(u, ops) && es == Entries(u, ops);
    bad := None;
  }

  lemma {:induction false} BadPrefix(u: Utxos, ops: seq<OutPoint>, n: nat, height: nat)
    requires n <= |ops| && BadInputIn(u, ops[..n], height).Some?
    ensures BadInputIn(u, ops, height) == BadInputIn(u, ops[..n], height)
    decreases |ops|
  {
    if n == |ops| {
      assert ops[..n] == ops;
    } else {
      assert ops[..|ops| - 1][..n] == ops[..n];
      BadPrefix(u, ops[..|ops| - 1], n, height);
    }
  }

  method CheckOutputs(R: Rules, outs: seq<TxOutput>) returns (bad: Option<TxError>)
    ensures bad == BadOutputIn(R, outs)
  {
    for i := 0 to |outs|
      invariant BadOutputIn(R, outs[..i]).None?
    {
      assert outs[..i + 1][..i] == outs[..i];
      if outs[i].value < DUST_THRESHOLD {
        BadOutputPrefix(R, outs, i + 1);
        return Some(OutputBelowDust(i, outs[i].value));
      }
      if !R.datumMatches(outs[i]) {
        BadOutputPrefix(R, outs, i + 1);
        return Some(DatumHashMismatch(i));
      }
    }
    assert outs[..|outs|] == outs;
    bad := None;
  }

  lemma {:induction false} BadOutputPrefix(R: Rules, outs: seq<TxOutput>, n: nat)
    requires n <= |outs| && BadOutputIn(R, outs[..n]).Some?
    ensures BadOutputIn(R, outs) == BadOutputIn(R, outs[..n])
    decreases |outs|
  {
    if n == |outs| {
      assert outs[..n] == outs;
    } else {
      assert outs[..|outs| - 1][..n] == outs[..n];
      BadOutputPrefix(R, outs[..|outs| - 1], n);
    }
  }

  method TotalOutputs(outs: seq<TxOutput>) returns (total: nat)
    ensures total == SumOutputs(outs)
  {
    total := 0;
    for i := 0 to |outs|
      invariant total == SumOutputs(outs[..i])
    {
      assert outs[..i + 1][..i] == outs[..i];
      total := total + outs[i].value;
    }
    assert outs[..|outs|] == outs;
  }

  /** The transaction checks in the order of the node: cheap ones first, then scripts, then the fee. */
  method ValidateTransaction(R: Rules, u: Utxos, tx: Tx, height: nat) returns (r: Result<nat, TxError>)
    ensures r == ValidateTx(R, u, tx, height)
  {
    if tx.inputs == [] { return Err(NoInputs); }
    if tx.outputs == [] { return Err(NoOutputs); }
    if !R.wellFormed(tx) { return Err(Malformed); }
    if !R.fits(tx) { return Err(TxTooLarge); }
    var distinct := CheckDistinct(tx.inputs);
    if !distinct { return Err(DuplicateInput); }
    var badOutput := CheckOutputs(R, tx.outputs);
    if badOutput.Some? { return Err(badOutput.value); }
    var bad, totalIn, es := CheckInputs(u, tx.inputs, height);
    if bad.Some? { return Err(bad.value); }
    var totalOut := TotalOutputs(tx.outputs);
    if totalIn > U64_MAX || totalOut > U64_MAX { return Err(ValueOverflow); }
    if totalIn < totalOut { return Err(InsufficientInputValue); }
    if !R.outputsAdmissible(tx) { return Err(InadmissibleOutput); }
    if !R.scriptsAccept(tx, es, height) { return Err(ScriptRejected); }
    var fee := totalIn - totalOut;
    var minFee := R.minFee(tx, es, height);
    if fee < minFee { return Err(FeeBelowMinimum(fee, minFee)); }
    r := Ok(fee);
  }

  // ---- Undo ----

  /**
   The set holds the first `count` transactions of the block applied to `u`, and `spent` lists what they
   consumed, possibly followed by entries noted for a transaction that was not applied.
   */
  ghost predicate Rollable(R: Rules, u: Utxos, txs: seq<Tx>, height: nat, count: nat, now: Utxos, spent: SpentList, extra: SpentList) {
    && count <= |txs| && Splits(txs, count) && Flows(R, u, txs, height, count) && Sane(R, u)
    && now == After(R, u, txs, height, count)
    && spent == SpentAfter(R, u, txs, height, count) + extra
    && Elsewhere(txs, count, extra)
  }

  lemma RollsClean(R: Rules, u: Utxos, txs: seq<Tx>, height: nat, n: nat, extra: SpentList)
    requires Lawful(R) && n <= |txs| && Clean(R, u, txs, n) && Flows(R, u, txs, height, n)
    requires forall j | 0 <= j < |extra| :: extra[j].0 in After(R, u, txs, height, n)
    ensures Rollable(R, u, txs, height, n, After(R, u, txs, height, n), SpentAfter(R, u, txs, height, n) + extra, extra)
  {
    hide Lawful, Flows, After, SpentAfter, Splits, Elsewhere, Fresh, Sane;
    CleanSplits(R, u, txs, height, n);
    CleanElsewhere(R, u, txs, height, n, extra);
  }

  lemma RollsListed(R: Rules, u: Utxos, txs: seq<Tx>, height: nat, n: nat, extra: SpentList)
    requires Lawful(R) && Sane(R, u) && n <= |txs| && WellListed(R, txs) && Flows(R, u, txs, height, n)
    requires extra == [] || n < |txs|
    requires forall j | 0 <= j < |extra| :: extra[j].0 in After(R, u, txs, height, n) && extra[j].0 in txs[n].inputs
    ensures Rollable(R, u, txs, height, n, After(R, u, txs, height, n), SpentAfter(R, u, txs, height, n) + extra, extra)
  {
    hide Lawful, Flows, After, SpentAfter, Splits, WellListed, Sane;
    ListedSplits(R, u, txs, height, n);
    if n < |txs| { ListedElsewhere(R, u, txs, height, n, extra); }
  }

  lemma Rolls(R: Rules, u: Utxos, txs: seq<Tx>, height: nat, n: nat, extra: SpentList)
    requires Lawful(R) && Sane(R, u) && n <= |txs| && (Clean(R, u, txs, n) || WellListed(R, txs)) && Flows(R, u, txs, height, n)
    requires extra == [] || n < |txs|
    requires forall j | 0 <= j < |extra| :: extra[j].0 in After(R, u, txs, height, n) && extra[j].0 in txs[n].inputs
    ensures Rollable(R, u, txs, height, n, After(R, u, txs, height, n), SpentAfter(R, u, txs, height, n) + extra, extra)
  {
    hide Lawful, Flows, After, SpentAfter, Rollable, WellListed, Sane, Clean;
    if Clean(R, u, txs, n) {
      RollsClean(R, u, txs, height, n, extra);
    } else {
      RollsListed(R, u, txs, height, n, extra);
    }
  }

  /** No entry of the list is for this outpoint. */
  ghost predicate Unlisted(s: SpentList, op: OutPoint) {
    forall j | 0 <= j < |s| :: s[j].0 != op
  }

  lemma {:induction false} SelectKnown(R: Rules, s: SpentList, ops: seq<OutPoint>)
    requires KnownAll(R, s)
    ensures KnownAll(R, Select(s, ops))
  {
    if s != [] { SelectKnown(R, s[..|s| - 1], ops); }
  }

  lemma {:induction false} SelectUnlisted(s: SpentList, ops: seq<OutPoint>, op: OutPoint)
    ensures Unlisted(s, op) || op !in ops ==> Unlisted(Select(s, ops), op)
  {
    if s != [] {
      SelectUnlisted(s[..|s| - 1], ops, op);
      assert Unlisted(s, op) ==> Unlisted(s[..|s| - 1], op);
    }
  }

  /**
   Undo the first `count` transactions of a block in reverse order. From whatever map, this puts nothing back
   but listed entries.
   */
  method UndoAppliedTransactions(utxo: UtxoSet, txs: seq<Tx>, count: nat, spent: SpentList,
                                 ghost u: Utxos, ghost height: nat, ghost extra: SpentList)
    returns (ok: bool)
    requires utxo.Valid() && count <= |txs| && KnownAll(utxo.R, spent)
    modifies utxo, utxo.smt
    ensures utxo.Valid()
    ensures Rollable(utxo.R, u, txs, height, count, old(utxo.utxos), spent, extra) ==> ok && utxo.utxos == u
    ensures forall op | op !in old(utxo.utxos) && Unlisted(spent, op) :: op !in utxo.utxos
  {
    hide UtxoSet.Valid, Flows, After, Undoable, KnownAll, Lawful, Sane, Select, PrevMap, SpentAfter, OwnOps, Splits, Elsewhere, Unlisted, HalfUndone;
    ghost var rolls := Rollable(utxo.R, u, txs, height, count, utxo.utxos, spent, extra);
    utxo.EntriesSane();
    var i: nat := count;
    while i > 0
      invariant i <= count && utxo.Valid()
      invariant rolls ==> utxo.utxos == After(utxo.R, u, txs, height, i)
      invariant forall op | op !in old(utxo.utxos) && Unlisted(spent, op) :: op !in utxo.utxos
    {
      i := i - 1;
      var mine := Select(spent, txs[i].inputs);
      SelectKnown(utxo.R, spent, txs[i].inputs);
      if rolls {
        UndoneTx(utxo.R, u, txs, height, i, count, extra);
      }
      ghost var before := utxo.utxos;
      var r := utxo.UndoTransaction(txs[i], mine);
      forall op | op !in before && Unlisted(spent, op) ensures op !in utxo.utxos {
        SelectUnlisted(spent, txs[i].inputs, op);
        AddsNothing(utxo.R, before, utxo.utxos, txs[i], mine, op);
      }
      if r.Err? {
        return false;
      }
    }
    AfterNone(utxo.R, u, txs, height);
    ok := true;
  }

  lemma AddsNothing(R: Rules, u: Utxos, w: Utxos, tx: Tx, prev: SpentList, op: OutPoint)
    requires HalfUndone(R, u, w, tx, prev) || (Undoable(R, u, tx, prev) && w == (u - OwnOps(R, tx, |tx.outputs|)) + PrevMap(prev))
    requires op !in u && Unlisted(prev, op)
    ensures op !in w
  {
    hide HalfUndone, PrevMap, OwnOps, Restorable;
    UndoAddsNothing(R, u, w, tx, prev, op);
  }

  lemma AfterNone(R: Rules, u: Utxos, txs: seq<Tx>, height: nat)
    ensures After(R, u, txs, height, 0) == u
  {
  }

  /** The undo of transaction `i` with the entries selected for it. */
  lemma UndoneTx(R: Rules, u: Utxos, txs: seq<Tx>, height: nat, i: nat, count: nat, extra: SpentList)
    requires Lawful(R) && Sane(R, u) && i < count <= |txs| && Splits(txs, count) && Flows(R, u, txs, height, count)
    requires Elsewhere(txs, count, extra)
    ensures var mine := Select(SpentAfter(R, u, txs, height, count) + extra, txs[i].inputs);
            var after := After(R, u, txs, height, i + 1);
            && Undoable(R, after, txs[i], mine)
            && (after - OwnOps(R, txs[i], |txs[i].outputs|)) + PrevMap(mine) == After(R, u, txs, height, i)
  {
    hide Flows, After, Undoable, Lawful, Sane, Splits, Elsewhere, SpentAfter, Select, PrevMap, OwnOps;
    SelectExtra(R, u, txs, height, i, count, extra);
    FlowsPrefix(R, u, txs, height, i + 1, count);
    UndoLast(R, u, txs, height, i + 1);
  }

  /** With its inputs there, a transaction fails to apply over an output that was there before the block. */
  lemma FailsOverClash(R: Rules, u: Utxos, txs: seq<Tx>, height: nat, n: nat) returns (op: OutPoint)
    requires Lawful(R) && WellListed(R, txs) && 0 < n < |txs| && Flows(R, u, txs, height, n)
    requires var now := After(R, u, txs, height, n); AllPresent(now, txs[n].inputs) && !Applies(R, now, txs[n])
    requires !IsCoinbase(txs[n])
    ensures R.txId(txs[n]).Some? && Clashes(R, After(R, u, txs, height, n), txs[n])
    ensures op in u && op in OwnOps(R, txs[n], |txs[n].outputs|) && op !in txs[n].inputs
    ensures Unlisted(SpentAfter(R, u, txs, height, n), op)
  {
    hide Lawful, Flows, After, SpentAfter, Clashes, OwnOps, Applies, Distinct;
    AppliesUnlessClash(R, After(R, u, txs, height, n), txs[n]);
    op := ClashWasThere(R, u, txs, height, n);
  }

  /**
   The answer to a transaction that failed to apply: its partial undo and, if that succeeds, the undo of those
   before it. Outputs of it that were there are removed, and nothing but listed entries comes back.
   */
  method UndoFailed(utxo: UtxoSet, txs: seq<Tx>, n: nat, noted: SpentList, mine: SpentList,
                    ghost u: Utxos, ghost height: nat, ghost extra: SpentList)
    requires utxo.Valid() && n < |txs| && KnownAll(utxo.R, noted) && KnownAll(utxo.R, mine) && !IsCoinbase(txs[n])
    modifies utxo, utxo.smt
    ensures utxo.Valid()
    ensures utxo.R.txId(txs[n]).Some? ==>
              forall op | op in OwnOps(utxo.R, txs[n], |txs[n].outputs|) && Unlisted(mine, op) && Unlisted(noted, op) :: op !in utxo.utxos
    ensures && utxo.R.txId(txs[n]).Some? && (forall i | 0 <= i < |mine| :: utxo.R.outputSize(mine[i].1.output).Some?)
            && Rollable(utxo.R, u, txs, height, n, RestoreMissing(old(utxo.utxos) - OwnOps(utxo.R, txs[n], |txs[n].outputs|), mine), noted, extra) ==>
              utxo.utxos == u
  {
    hide UtxoSet.Valid, KnownAll, Rollable, OwnOps, RestoreMissing, Unlisted;
    var tx := txs[n];
    ghost var half := utxo.utxos;
    var partial := utxo.UndoPartialTransaction(tx, mine);
    if utxo.R.txId(tx).Some? {
      forall op | op in OwnOps(utxo.R, tx, |tx.outputs|) && Unlisted(mine, op) ensures op !in utxo.utxos {
        LostForGood(utxo.R, half, mine, tx, op);
      }
    }
    if partial.Ok? {
      var _ := UndoAppliedTransactions(utxo, txs, n, noted, u, height, extra);
    }
  }

  /** The partial undo removes an output of the transaction that is not listed. */
  lemma LostForGood(R: Rules, half: Utxos, mine: SpentList, tx: Tx, op: OutPoint)
    requires R.txId(tx).Some? && op in OwnOps(R, tx, |tx.outputs|) && Unlisted(mine, op)
    ensures op !in RestoreMissing(half - OwnOps(R, tx, |tx.outputs|), mine)
    ensures forall i | 0 <= i <= |mine| :: op !in RestoreMissing(half - OwnOps(R, tx, |tx.outputs|), mine[..i])
  {
    hide OwnOps, RestoreMissing;
    var base := half - OwnOps(R, tx, |tx.outputs|);
    RestoreAddsNothing(base, mine, op);
    forall i | 0 <= i <= |mine| ensures op !in RestoreMissing(base, mine[..i]) {
      RestoreAddsNothing(base, mine[..i], op);
    }
  }

  /** That output is in none of the lists from which the undo puts entries back. */
  lemma ClashTraced(R: Rules, u: Utxos, txs: seq<Tx>, height: nat, n: nat, extra: SpentList) returns (op: OutPoint)
    requires Lawful(R) && WellListed(R, txs) && 0 < n < |txs| && Flows(R, u, txs, height, n)
    requires var now := After(R, u, txs, height, n); AllPresent(now, txs[n].inputs) && !Applies(R, now, txs[n])
    requires !IsCoinbase(txs[n]) && forall j | 0 <= j < |extra| :: extra[j].0 in txs[n].inputs
    ensures R.txId(txs[n]).Some? && Clashes(R, After(R, u, txs, height, n), txs[n])
    ensures op in u && op in OwnOps(R, txs[n], |txs[n].outputs|) && Unlisted(extra, op)
    ensures var noted := SpentAfter(R, u, txs, height, n) + extra;
            Unlisted(noted, op) && Unlisted(Select(noted, txs[n].inputs), op)
  {
    hide Lawful, WellListed, Flows, After, SpentAfter, Clashes, OwnOps, Applies, Select;
    op := FailsOverClash(R, u, txs, height, n);
    SelectUnlisted(SpentAfter(R, u, txs, height, n) + extra, txs[n].inputs, op);
  }

  // ---- The validating path ----

  /** The bookkeeping of block application after `n` transactions. */
  ghost predicate Progress(R: Rules, u: Utxos, txs: seq<Tx>, height: nat, n: nat, now: Utxos,
                           mutations: seq<Mutation>, spent: SpentList, bytes: nat, fees: nat) {
    && 0 < n <= |txs| && Ran(R, u, txs, height, n) && Flows(R, u, txs, height, n)
    && now == After(R, u, txs, height, n)
    && mutations == LogAfter(R, u, txs, height, n)
    && spent == SpentAfter(R, u, txs, height, n)
    && bytes == SpentBytes(R, spent) <= MAX_SPENT_UTXOS_SIZE
    && fees == FeesAfter(R, u, txs, height, n)
    && KnownAll(R, spent)
  }

  /** Note the entries a transaction is about to consume, keeping the undo metadata within its budget. */
  method NoteSpent(R: Rules, u: Utxos, tx: Tx, spent: SpentList, bytes: nat)
    returns (noted: SpentList, size: nat, full: bool, ghost extra: SpentList)
    requires AllPresent(u, tx.inputs) && !IsCoinbase(tx)
    requires Sane(R, u) && KnownAll(R, spent) && bytes == SpentBytes(R, spent) <= MAX_SPENT_UTXOS_SIZE
    ensures noted == spent + extra && KnownAll(R, noted) && forall j | 0 <= j < |extra| :: extra[j].0 in u && extra[j].0 in tx.inputs
    ensures full <==> SpentBytes(R, spent + SpentOf(u, tx)) > MAX_SPENT_UTXOS_SIZE
    ensures !full ==> extra == SpentOf(u, tx) && size == SpentBytes(R, noted) <= MAX_SPENT_UTXOS_SIZE
  {
    hide SpentBytes, SpentOf;
    noted, size, extra := spent, bytes, [];
    SpentOfShape(R, u, tx);
    assert spent + SpentOf(u, tx)[..0] == spent;
    for i := 0 to |tx.inputs|
      invariant extra == SpentOf(u, tx)[..i] && noted == spent + extra && KnownAll(R, noted)
      invariant size == SpentBytes(R, noted) <= MAX_SPENT_UTXOS_SIZE
    {
      var entry := u[tx.inputs[i]];
      NoteStep(R, SpentOf(u, tx), spent, i);
      size := size + EntryBytes(R, entry);
      if size > MAX_SPENT_UTXOS_SIZE {
        return noted, size, true, extra;
      }
      noted := noted + [(tx.inputs[i], entry)];
      extra := SpentOf(u, tx)[..i + 1];
    }
    assert SpentOf(u, tx)[..|tx.inputs|] == SpentOf(u, tx);
    full := false;
  }

  lemma SpentOfShape(R: Rules, u: Utxos, tx: Tx)
    requires AllPresent(u, tx.inputs) && !IsCoinbase(tx)
    ensures |SpentOf(u, tx)| == |tx.inputs|
    ensures forall i | 0 <= i < |tx.inputs| :: SpentOf(u, tx)[i] == (tx.inputs[i], u[tx.inputs[i]])
  {
  }

  lemma NoteStep(R: Rules, s: SpentList, spent: SpentList, i: nat)
    requires i < |s|
    ensures spent + s[..i + 1] == (spent + s[..i]) + [s[i]]
    ensures SpentBytes(R, spent + s[..i + 1]) == SpentBytes(R, spent + s[..i]) + EntryBytes(R, s[i].1)
    ensures SpentBytes(R, spent + s[..i + 1]) <= SpentBytes(R, spent + s)
  {
    var a := spent + s[..i + 1];
    assert a[..|a| - 1] == spent + s[..i];
    assert spent + s == a + s[i + 1..];
    SpentBytesConcat(R, a, s[i + 1..]);
  }

  /** One more transaction was validated and applied. */
  lemma ProgressNext(R: Rules, u: Utxos, txs: seq<Tx>, height: nat, n: nat, now: Utxos,
                     mutations: seq<Mutation>, spent: SpentList, bytes: nat, fees: nat, size: nat)
    requires Progress(R, u, txs, height, n, now, mutations, spent, bytes, fees) && n < |txs|
    requires ValidateTx(R, now, txs[n], height).Ok? && Applies(R, now, txs[n])
    requires size == SpentBytes(R, spent + SpentOf(now, txs[n])) <= MAX_SPENT_UTXOS_SIZE
    requires KnownAll(R, spent + SpentOf(now, txs[n]))
    ensures Progress(R, u, txs, height, n + 1, Applied(R, now, txs[n], height), mutations + Log(R, now, txs[n], height),
                     spent + SpentOf(now, txs[n]), size, fees + ValidateTx(R, now, txs[n], height).value)
  {
    hide ValidateTx, Applied, Log;
  }

  lemma BudgetNext(R: Rules, u: Utxos, txs: seq<Tx>, height: nat, n: nat)
    requires n < |txs|
    ensures var more := SpentOf(After(R, u, txs, height, n), txs[n]);
            WithinBudget(R, u, txs, height, n + 1) <==> SpentBytes(R, SpentAfter(R, u, txs, height, n) + more) <= MAX_SPENT_UTXOS_SIZE
  {
  }

  lemma CannotRun(R: Rules, u: Utxos, txs: seq<Tx>, height: nat, n: nat)
    requires 0 < n < |txs|
    requires !Applies(R, After(R, u, txs, height, n), txs[n]) || ValidateTx(R, After(R, u, txs, height, n), txs[n], height).Err?
    ensures !Ran(R, u, txs, height, n + 1)
  {
  }

  lemma SafeApplies(R: Rules, u: Utxos, txs: seq<Tx>, height: nat, n: nat)
    requires Lawful(R) && Safe(R, u, txs, height) && 0 < n < |txs| && Ran(R, u, txs, height, n)
    requires ValidateTx(R, After(R, u, txs, height, n), txs[n], height).Ok?
    ensures Clean(R, u, txs, n) && Applies(R, After(R, u, txs, height, n), txs[n])
  {
    hide Ran, After, ValidateTx, Applies, Lawful, Fresh;
    SafeClean(R, u, txs, height, n);
    assert Reached(R, u, txs, height, n);
    CleanApplies(R, u, txs, height, n);
  }

  /** Note and apply transaction `n`, which is valid; on any error roll everything back. */
  method ApplyValidated(utxo: UtxoSet, txs: seq<Tx>, height: nat, n: nat, fee: nat,
                        mutations: seq<Mutation>, spent: SpentList, bytes: nat, fees: nat, ghost u: Utxos)
    returns (err: Option<BlockError>, mutations': seq<Mutation>, spent': SpentList, bytes': nat, fees': nat)
    requires utxo.Valid() && 0 < n < |txs| && ValidateTx(utxo.R, utxo.utxos, txs[n], height) == Ok(fee)
    requires Sane(utxo.R, u) && Progress(utxo.R, u, txs, height, n, utxo.utxos, mutations, spent, bytes, fees)
    modifies utxo, utxo.smt
    ensures utxo.Valid()
    ensures err.None? ==> Progress(utxo.R, u, txs, height, n + 1, utxo.utxos, mutations', spent', bytes', fees')
    ensures err.Some? && Safe(utxo.R, u, txs, height) ==> utxo.utxos == u
    ensures err.Some? && WellListed(utxo.R, txs) ==> (utxo.utxos == u <==> !ClashAt(utxo.R, u, txs, height, n))
    ensures err.Some? ==> !Ran(utxo.R, u, txs, height, n + 1) || !WithinBudget(utxo.R, u, txs, height, n + 1)
  {
    hide UtxoSet.Valid, Clean, Safe, Ran, Flows, After, ValidateTx, Applies, Applied, Log, SpentOf, SpentBytes, Select;
    hide Sane, Lawful, HalfApplied, KnownAll, WellListed, Clashes, OwnOps, Rollable, RestoreMissing, Unlisted, WithinBudget;
    hide LogAfter, FeesAfter, SpentAfter, Distinct, AboveDust, SumEntries, SumOutputs, Entries, Mature;
    ghost var R, now := utxo.R, utxo.utxos;
    BudgetNext(R, u, txs, height, n);
    utxo.EntriesSane();
    if Safe(R, u, txs, height) { SafeApplies(R, u, txs, height, n); }
    var tx := txs[n];
    ValidTxFacts(R, now, tx, height);
    ValidNotCoinbase(R, now, tx, height);
    mutations', spent', bytes', fees' := mutations, spent, bytes, fees;
    var noted, size, full;
    ghost var extra;
    noted, size, full, extra := NoteSpent(utxo.R, utxo.utxos, tx, spent, bytes);
    if full {
      if Clean(R, u, txs, n) || WellListed(R, txs) { Rolls(R, u, txs, height, n, extra); }
      var ok := UndoAppliedTransactions(utxo, txs, n, noted, u, height, extra);
      err := Some(if ok then BlockTooLarge(size) else StateCorrupted);
      return;
    }
    var log := utxo.ApplyTransaction(tx, height);
    if log.Err? {
      CannotRun(R, u, txs, height, n);
      var mine := Select(noted, tx.inputs);
      SelectKnown(R, noted, tx.inputs);
      err := Some(StateCorrupted);
      ghost var op;
      if WellListed(R, txs) {
        op := ClashTraced(R, u, txs, height, n, extra);
      }
      UndoFailed(utxo, txs, n, noted, mine, u, height, extra);
      return;
    }
    ProgressNext(R, u, txs, height, n, now, mutations, spent, bytes, fees, size);
    mutations', spent', bytes', fees' := mutations + log.value, noted, size, fees + fee;
    err := None;
  }

  /** Validate, note and apply transaction `n`; on any error roll everything back. */
  method ApplyNext(utxo: UtxoSet, txs: seq<Tx>, height: nat, n: nat,
                   mutations: seq<Mutation>, spent: SpentList, bytes: nat, fees: nat, ghost u: Utxos)
    returns (err: Option<BlockError>, mutations': seq<Mutation>, spent': SpentList, bytes': nat, fees': nat)
    requires utxo.Valid() && 0 < n < |txs|
    requires Sane(utxo.R, u) && Progress(utxo.R, u, txs, height, n, utxo.utxos, mutations, spent, bytes, fees)
    modifies utxo, utxo.smt
    ensures utxo.Valid()
    ensures err.None? ==> Progress(utxo.R, u, txs, height, n + 1, utxo.utxos, mutations', spent', bytes', fees')
    ensures err.Some? && Safe(utxo.R, u, txs, height) ==> utxo.utxos == u
    ensures err.Some? && WellListed(utxo.R, txs) ==> (utxo.utxos == u <==> !ClashAt(utxo.R, u, txs, height, n))
    ensures err.Some? ==> !Ran(utxo.R, u, txs, height, n + 1) || !WithinBudget(utxo.R, u, txs, height, n + 1)
  {
    hide UtxoSet.Valid, Clean, Safe, Ran, Flows, After, ValidateTx, SpentBytes, LogAfter, FeesAfter, SpentAfter;
    hide Sane, Lawful, KnownAll, WellListed, Clashes, Rollable, WithinBudget, Unlisted;
    ghost var R := utxo.R;
    utxo.EntriesSane();
    var v := ValidateTransaction(utxo.R, utxo.utxos, txs[n], height);
    if v.Err? {
      CannotRun(R, u, txs, height, n);
      assert spent == spent + [];
      if Safe(R, u, txs, height) { SafeClean(R, u, txs, height, n); }
      if Clean(R, u, txs, n) || WellListed(R, txs) { Rolls(R, u, txs, height, n, []); }
      var ok := UndoAppliedTransactions(utxo, txs, n, spent, u, height, []);
      mutations', spent', bytes', fees' := mutations, spent, bytes, fees;
      err := Some(if ok then InvalidTx(v.error) else StateCorrupted);
      return;
    }
    err, mutations', spent', bytes', fees' := ApplyValidated(utxo, txs, height, n, v.value, mutations, spent, bytes, fees, u);
  }

  method CheckCoinbase(R: Rules, tx: Tx, height: nat, expected: nat) returns (bad: Option<CoinbaseError>)
    ensures bad == ValidateCoinbase(R, tx, height, expected)
  {
    if !IsCoinbase(tx) { return Some(BadInput); }
    if !R.fits(tx) { return Some(Oversized); }
    if height > U32_MAX { return Some(HeightOverflow); }
    if tx.inputs[0].index != height { return Some(BadOutputIndex); }
    if !R.coinbaseForm(tx, height) { return Some(BadForm); }
    if !AboveDust(tx.outputs) { return Some(CoinbaseBelowDust); }
    if !R.outputsAdmissible(tx) { return Some(CoinbaseInadmissible); }
    var total := TotalOutputs(tx.outputs);
    if total > U64_MAX { return Some(WrongReward(expected, U64_MAX)); }
    if total != expected { return Some(WrongReward(expected, total)); }
    bad := None;
  }

  /** Apply the coinbase; a failure is answered by an undo that assumes every output went in. */
  method ApplyCoinbase(utxo: UtxoSet, tx: Tx, height: nat) returns (r: Result<seq<Mutation>, StateError>)
    requires utxo.Valid()
    modifies utxo, utxo.smt
    ensures utxo.Valid()
    ensures r.Ok? <==> Applies(utxo.R, old(utxo.utxos), tx)
    ensures r.Ok? ==> utxo.utxos == Applied(utxo.R, old(utxo.utxos), tx, height) && r.value == Log(utxo.R, old(utxo.utxos), tx, height)
    ensures r.Err? && IsCoinbase(tx) ==>
              if Collides(utxo.R, old(utxo.utxos), tx) then LosesOutputs(utxo.R, old(utxo.utxos), utxo.utxos, tx) && utxo.utxos != old(utxo.utxos)
              else utxo.utxos == old(utxo.utxos)
  {
    hide UtxoSet.Valid, Applied, Log, Lawful, Applies, Collides, LosesOutputs, HalfApplied, HalfUndone, Undoable, OwnOps, PrevMap;
    ghost var u := utxo.utxos;
    utxo.EntriesSane();
    r := utxo.ApplyTransaction(tx, height);
    if r.Err? {
      ghost var v := utxo.utxos;
      var undone := utxo.UndoTransaction(tx, []);
      if IsCoinbase(tx) {
        CoinbaseUndone(utxo.R, u, v, utxo.utxos, tx, height);
      }
    }
  }

  /** What the undo of a failed coinbase leaves. */
  lemma CoinbaseUndone(R: Rules, u: Utxos, v: Utxos, w: Utxos, tx: Tx, height: nat)
    requires Lawful(R) && IsCoinbase(tx) && !Applies(R, u, tx) && HalfApplied(R, u, v, tx, height)
    requires HalfUndone(R, v, w, tx, []) || (Undoable(R, v, tx, []) && w == (v - OwnOps(R, tx, |tx.outputs|)) + PrevMap([]))
    ensures if Collides(R, u, tx) then LosesOutputs(R, u, w, tx) && w != u else w == u
  {
    hide Applies, Lawful, LosesOutputs, OwnOps, PrevMap, Blocked, Stopped;
    CoinbaseApplies(R, u, tx);
    if Collides(R, u, tx) {
      CollisionLoses(R, u, v, w, tx, height);
    } else {
      var k :| 0 <= k <= |Consumed(tx)| && v == u - OpSet(Consumed(tx)[..k]);
      assert Consumed(tx)[..k] == [] && OpSet([]) == {};
    }
  }

  /**
   Validate and apply a block. It succeeds on exactly the blocks that pass every check, with the full
   effect, the fees and the log. An error restores the set if the applied transactions have new ids; and for a
   list as the header rules grant it, if and only if no transaction that is reached clashes with an output that is
   already there. On the set of an accepted chain that can only be the coinbase.
   */
  method ValidateAndApplyBlockAtomic(utxo: UtxoSet, block: Block) returns (r: Result<(nat, seq<Mutation>), BlockError>)
    requires utxo.Valid() && block.txs != [] && IsCoinbase(block.txs[0])
    modifies utxo, utxo.smt
    ensures utxo.Valid()
    ensures r.Ok? <==> Accepts(utxo.R, old(utxo.utxos), block)
    ensures r.Ok? ==>
              var n, h := |block.txs|, block.header.height;
              && Flows(utxo.R, old(utxo.utxos), block.txs, h, n)
              && utxo.utxos == After(utxo.R, old(utxo.utxos), block.txs, h, n)
              && r.value == (FeesAfter(utxo.R, old(utxo.utxos), block.txs, h, n), LogAfter(utxo.R, old(utxo.utxos), block.txs, h, n))
    ensures r.Err? && Safe(utxo.R, old(utxo.utxos), block.txs, block.header.height) ==> utxo.Restored()
    ensures r.Err? && WellListed(utxo.R, block.txs) ==>
              (utxo.Restored() <==> !BlockClashes(utxo.R, old(utxo.utxos), block.txs, block.header.height))
    ensures Collides(utxo.R, old(utxo.utxos), block.txs[0]) ==>
              r.Err? && LosesOutputs(utxo.R, old(utxo.utxos), utxo.utxos, block.txs[0]) && utxo.utxos != old(utxo.utxos)
  {
    hide UtxoSet.Valid, Clean, Safe, Ran, Flows, After, Applies, Applied, Log, LogAfter, FeesAfter, SpentAfter, SpentBytes, Collides, LosesOutputs, Lawful;
    hide WellListed, BlockClashes, ClashAt, Sane, Rollable;
    ghost var u, R := utxo.utxos, utxo.R;
    var txs, height := block.txs, block.header.height;
    utxo.EntriesSane();
    var first := ApplyCoinbase(utxo, txs[0], height);
    if first.Err? {
      CoinbaseFailed(R, u, block);
      CoinbaseClashes(R, u, txs, height);
      if utxo.utxos == u { utxo.MapDecides(); }
      return Err(StateCorrupted);
    }
    var mutations, spent: SpentList, bytes: nat, fees: nat, n := first.value, [], 0, 0, 1;
    FirstProgress(R, u, txs, height);
    while n < |txs|
      invariant 1 <= n <= |txs| && utxo.Valid()
      invariant Progress(R, u, txs, height, n, utxo.utxos, mutations, spent, bytes, fees)
    {
      var err;
      err, mutations, spent, bytes, fees := ApplyNext(utxo, txs, height, n, mutations, spent, bytes, fees, u);
      if err.Some? {
        if Accepts(R, u, block) { AcceptsPrefix(R, u, block, n + 1); }
        NoCollision(R, u, txs, height);
        ClashOnlyAt(R, u, txs, height, n);
        if utxo.utxos == u { utxo.MapDecides(); }
        return Err(err.value);
      }
      n := n + 1;
    }
    NoCollision(R, u, txs, height);
    var expected := utxo.R.reward(height) + fees;
    var bad := CheckCoinbase(utxo.R, txs[0], height, expected);
    if fees > U64_MAX || expected > U64_MAX || bad.Some? {
      if Safe(R, u, txs, height) { SafeClean(R, u, txs, height, n); }
      ClashOnlyAt(R, u, txs, height, n);
      assert spent == spent + [];
      if Clean(R, u, txs, n) || WellListed(R, txs) { Rolls(R, u, txs, height, n, []); }
      var ok := UndoAppliedTransactions(utxo, txs, n, spent, u, height, []);
      if utxo.utxos == u { utxo.MapDecides(); }
      r := Err(if !ok then StateCorrupted
               else if fees > U64_MAX then FeesOverflow
               else if expected > U64_MAX then RewardOverflow
               else InvalidCoinbase(bad.value));
      return;
    }
    r := Ok((fees, mutations));
  }

  lemma CoinbaseFailed(R: Rules, u: Utxos, block: Block)
    requires Lawful(R) && block.txs != [] && !Applies(R, u, block.txs[0])
    ensures !Accepts(R, u, block)
    ensures Safe(R, u, block.txs, block.header.height) ==> !Collides(R, u, block.txs[0])
  {
    assert Reached(R, u, block.txs, block.header.height, 0) by { assert Ran(R, u, block.txs, block.header.height, 0); }
    if Accepts(R, u, block) { AcceptsPrefix(R, u, block, 1); }
  }

  /** A path that ends at the coinbase clashes there or nowhere. */
  lemma CoinbaseClashes(R: Rules, u: Utxos, txs: seq<Tx>, height: nat)
    requires Lawful(R) && txs != [] && IsCoinbase(txs[0]) && !Applies(R, u, txs[0])
    ensures BlockClashes(R, u, txs, height) <==> Collides(R, u, txs[0])
    ensures TrustedClashes(R, u, txs, height) <==> Collides(R, u, txs[0])
  {
    hide Applies, Collides, Clashes, Lawful, BlockClashes, TrustedClashes;
    assert After(R, u, txs, height, 0) == u && Ran(R, u, txs, height, 0) && Trusted(R, u, txs, height, 0);
    assert !Ran(R, u, txs, height, 1) && !Trusted(R, u, txs, height, 1);
    assert SpentAfter(R, u, txs, height, 1) == [];
    ClashOnlyAt(R, u, txs, height, 0);
    TrustedClashOnlyAt(R, u, txs, height, 0);
    CoinbaseClash(R, u, txs[0]);
  }

  lemma FirstProgress(R: Rules, u: Utxos, txs: seq<Tx>, height: nat)
    requires txs != [] && Applies(R, u, txs[0])
    ensures Flows(R, u, txs, height, 1) && Ran(R, u, txs, height, 1)
    ensures IsCoinbase(txs[0]) ==> Progress(R, u, txs, height, 1, Applied(R, u, txs[0], height), Log(R, u, txs[0], height), [], 0, 0)
  {
    assert Ran(R, u, txs, height, 0) && Flows(R, u, txs, height, 0) && After(R, u, txs, height, 0) == u;
  }

  lemma NoCollision(R: Rules, u: Utxos, txs: seq<Tx>, height: nat)
    requires Lawful(R) && txs != [] && Ran(R, u, txs, height, 1)
    ensures IsCoinbase(txs[0]) ==> !Collides(R, u, txs[0])
  {
    assert After(R, u, txs, height, 0) == u;
    if IsCoinbase(txs[0]) { CoinbaseApplies(R, u, txs[0]); }
  }

  // ---- The trusted path ----

  datatype NoteStatus = Noted | MissingInput | TooLarge

  /** Like `NoteSpent`, for inputs that nobody has checked; also adds up their values. */
  method NoteTrusted(R: Rules, u: Utxos, tx: Tx, spent: SpentList, bytes: nat)
    returns (status: NoteStatus, noted: SpentList, size: nat, total: nat, ghost extra: SpentList)
    requires Lawful(R) && Sane(R, u) && KnownAll(R, spent) && bytes == SpentBytes(R, spent) <= MAX_SPENT_UTXOS_SIZE
    ensures noted == spent + extra && KnownAll(R, noted) && forall j | 0 <= j < |extra| :: extra[j].0 in u && extra[j].0 in tx.inputs
    ensures status.Noted? <==> AllPresent(u, tx.inputs) && SpentBytes(R, spent + SpentOf(u, tx)) <= MAX_SPENT_UTXOS_SIZE
    ensures status.Noted? ==> && !IsCoinbase(tx) && extra == SpentOf(u, tx) && size == SpentBytes(R, noted)
                              && total == SumEntries(Entries(u, tx.inputs))
  {
    hide SpentBytes, Lawful, Sane, SumEntries;
    noted, size, total, extra := spent, bytes, 0, [];
    NothingYet(u);
    assert spent + [] == spent && tx.inputs[..0] == [];
    for i := 0 to |tx.inputs|
      invariant AllPresent(u, tx.inputs[..i])
      invariant extra == Listed(u, tx.inputs[..i]) && noted == spent + extra && KnownAll(R, noted)
      invariant size == SpentBytes(R, noted) <= MAX_SPENT_UTXOS_SIZE
      invariant total == SumEntries(Entries(u, tx.inputs[..i]))
    {
      var op := tx.inputs[i];
      if op !in u {
        return MissingInput, noted, size, total, extra;
      }
      var entry := u[op];
      TrustedStep(R, u, tx.inputs, i, spent);
      total := total + entry.output.value;
      size := size + EntryBytes(R, entry);
      if size > MAX_SPENT_UTXOS_SIZE {
        if AllPresent(u, tx.inputs) { TrustedTooLarge(R, u, tx, i + 1, spent); }
        return TooLarge, noted, size, total, extra;
      }
      noted := noted + [(op, entry)];
      extra := extra + [(op, entry)];
    }
    assert tx.inputs[..|tx.inputs|] == tx.inputs;
    PresentNotCoinbase(R, u, tx);
    status := Noted;
  }

  ghost function Listed(u: Utxos, ops: seq<OutPoint>): SpentList
    requires AllPresent(u, ops)
  {
    seq(|ops|, i requires 0 <= i < |ops| => (ops[i], u[ops[i]]))
  }

  lemma NothingYet(u: Utxos)
    ensures Listed(u, []) == [] && SumEntries(Entries(u, [])) == 0
  {
  }

  lemma TrustedStep(R: Rules, u: Utxos, ops: seq<OutPoint>, i: nat, spent: SpentList)
    requires i < |ops| && AllPresent(u, ops[..i]) && ops[i] in u && Sane(R, u)
    ensures AllPresent(u, ops[..i + 1])
    ensures Listed(u, ops[..i + 1]) == Listed(u, ops[..i]) + [(ops[i], u[ops[i]])]
    ensures SpentBytes(R, spent + Listed(u, ops[..i + 1])) == SpentBytes(R, spent + Listed(u, ops[..i])) + EntryBytes(R, u[ops[i]])
    ensures SumEntries(Entries(u, ops[..i + 1])) == SumEntries(Entries(u, ops[..i])) + u[ops[i]].output.value
    ensures spent + Listed(u, ops[..i + 1]) == (spent + Listed(u, ops[..i])) + [(ops[i], u[ops[i]])]
    ensures Known(R, ops[i])
  {
    hide SpentBytes, EntryBytes, SumEntries;
    assert ops[..i + 1] == ops[..i] + [ops[i]];
    assert Listed(u, ops[..i + 1]) == Listed(u, ops[..i]) + [(ops[i], u[ops[i]])];
    assert spent + Listed(u, ops[..i + 1]) == (spent + Listed(u, ops[..i])) + [(ops[i], u[ops[i]])];
    assert Entries(u, ops[..i + 1]) == Entries(u, ops[..i]) + [u[ops[i]]];
    BytesSnoc(R, spent + Listed(u, ops[..i]), ops[i], u[ops[i]]);
    SumSnoc(Entries(u, ops[..i]), u[ops[i]]);
  }

  lemma BytesSnoc(R: Rules, s: SpentList, op: OutPoint, e: UtxoEntry)
    ensures SpentBytes(R, s + [(op, e)]) == SpentBytes(R, s) + EntryBytes(R, e)
  {
    assert (s + [(op, e)])[..|s|] == s;
  }

  lemma SumSnoc(s: seq<UtxoEntry>, e: UtxoEntry)
    ensures SumEntries(s + [e]) == SumEntries(s) + e.output.value
  {
    assert (s + [e])[..|s|] == s;
  }

  lemma PresentNotCoinbase(R: Rules, u: Utxos, tx: Tx)
    requires Lawful(R) && Sane(R, u) && AllPresent(u, tx.inputs)
    ensures !IsCoinbase(tx) && SpentOf(u, tx) == Listed(u, tx.inputs)
  {
    assert tx.inputs != [] ==> Known(R, tx.inputs[0]);
  }

  lemma TrustedTooLarge(R: Rules, u: Utxos, tx: Tx, i: nat, spent: SpentList)
    requires Lawful(R) && Sane(R, u) && AllPresent(u, tx.inputs) && i <= |tx.inputs| && AllPresent(u, tx.inputs[..i])
    requires SpentBytes(R, spent + Listed(u, tx.inputs[..i])) > MAX_SPENT_UTXOS_SIZE
    ensures SpentBytes(R, spent + SpentOf(u, tx)) > MAX_SPENT_UTXOS_SIZE
  {
    hide Lawful, Sane, SpentOf, SpentBytes;
    PresentNotCoinbase(R, u, tx);
    var head, rest := Listed(u, tx.inputs[..i]), Listed(u, tx.inputs[i..]);
    assert SpentOf(u, tx) == head + rest;
    assert spent + SpentOf(u, tx) == (spent + head) + rest;
    SpentBytesConcat(R, spent + head, rest);
  }

  ghost predicate TrustedProgress(R: Rules, u: Utxos, txs: seq<Tx>, height: nat, n: nat, now: Utxos,
                                  mutations: seq<Mutation>, spent: SpentList, bytes: nat, fees: nat) {
    && 0 < n <= |txs| && Trusted(R, u, txs, height, n) && Flows(R, u, txs, height, n)
    && now == After(R, u, txs, height, n)
    && mutations == LogAfter(R, u, txs, height, n)
    && spent == SpentAfter(R, u, txs, height, n)
    && bytes == SpentBytes(R, spent) <= MAX_SPENT_UTXOS_SIZE
    && fees == TrustedFees(R, u, txs, height, n)
    && KnownAll(R, spent)
  }

  lemma TrustedNext(R: Rules, u: Utxos, txs: seq<Tx>, height: nat, n: nat, now: Utxos,
                    mutations: seq<Mutation>, spent: SpentList, bytes: nat, fees: nat, size: nat)
    requires TrustedProgress(R, u, txs, height, n, now, mutations, spent, bytes, fees) && n < |txs|
    requires Affordable(now, txs[n]) && Applies(R, now, txs[n])
    requires size == SpentBytes(R, spent + SpentOf(now, txs[n])) <= MAX_SPENT_UTXOS_SIZE
    requires KnownAll(R, spent + SpentOf(now, txs[n]))
    ensures TrustedProgress(R, u, txs, height, n + 1, Applied(R, now, txs[n], height), mutations + Log(R, now, txs[n], height),
                            spent + SpentOf(now, txs[n]), size,
                            fees + (SumEntries(Entries(now, txs[n].inputs)) - SumOutputs(txs[n].outputs)))
  {
    hide Applied, Log, SpentOf, SpentBytes, SumEntries, SumOutputs, KnownAll;
  }

  lemma CannotTrust(R: Rules, u: Utxos, txs: seq<Tx>, height: nat, n: nat)
    requires 0 < n < |txs|
    requires !Applies(R, After(R, u, txs, height, n), txs[n]) || !Affordable(After(R, u, txs, height, n), txs[n])
    ensures !Trusted(R, u, txs, height, n + 1)
  {
  }

  /** Restoring the missing entries of a list taken from `u` to a part of `u` that lacks only those gives `u`. */
  lemma {:induction false} RestoresMissing(u: Utxos, w: Utxos, ops: seq<OutPoint>)
    requires AllPresent(u, ops)
    requires w.Keys <= u.Keys && forall op | op in w :: w[op] == u[op]
    ensures var v := RestoreMissing(w, Listed(u, ops));
            && (forall op :: op in v <==> op in w || op in OpSet(ops))
            && (forall op | op in v :: op in u && v[op] == u[op])
    decreases |ops|
  {
    if ops == [] {
      assert OpSet(ops) == {};
    } else {
      var n := |ops| - 1;
      assert Listed(u, ops)[..n] == Listed(u, ops[..n]);
      RestoresMissing(u, w, ops[..n]);
      OpSetSnoc(ops);
    }
  }

  /** In a clean run the partial undo of a transaction that failed to apply restores the map before it. */
  lemma PartialRestores(R: Rules, u: Utxos, v: Utxos, tx: Tx, height: nat)
    requires Lawful(R) && Sane(R, u) && AllPresent(u, tx.inputs) && !IsCoinbase(tx)
    requires R.txId(tx).Some? && Unowned(u, R.txId(tx).value) && !Applies(R, u, tx) && HalfApplied(R, u, v, tx, height)
    ensures RestoreMissing(v - OwnOps(R, tx, |tx.outputs|), SpentOf(u, tx)) == u
  {
    hide Applies, Lawful, RestoreMissing;
    var ops := tx.inputs;
    FailsToSpend(R, u, tx);
    var k :| 0 <= k <= |ops| && v == u - OpSet(ops[..k]);
    assert v - OwnOps(R, tx, |tx.outputs|) == v;
    PresentNotCoinbase(R, u, tx);
    RestoresMissing(u, v, ops);
    forall op | op in OpSet(ops[..k]) ensures op in OpSet(ops) {
      var i :| 0 <= i < k && ops[..k][i] == op;
      assert ops[i] == op;
    }
    SameMap(u, RestoreMissing(v, Listed(u, ops)));
  }

  lemma SameMap(u: Utxos, w: Utxos)
    requires (forall op | op in u :: op in w) && (forall op | op in w :: op in u && w[op] == u[op])
    ensures w == u
  {
  }

  /** With outputs that are fresh and serializable, only the inputs can make a transaction fail to apply. */
  lemma FailsToSpend(R: Rules, u: Utxos, tx: Tx)
    requires Lawful(R) && R.txId(tx).Some? && Unowned(u, R.txId(tx).value) && !Applies(R, u, tx)
    ensures !Spends(u, tx)
  {
  }

  ghost predicate AllHaveIds(R: Rules, txs: seq<Tx>) {
    forall i | 0 <= i < |txs| :: R.txId(txs[i]).Some?
  }

  /** Note and apply transaction `n` without validating it; on any error roll everything back. */
  method ApplyNextTrusted(utxo: UtxoSet, txs: seq<Tx>, height: nat, n: nat,
                          mutations: seq<Mutation>, spent: SpentList, bytes: nat, fees: nat, ghost u: Utxos)
    returns (err: Option<BlockError>, mutations': seq<Mutation>, spent': SpentList, bytes': nat, fees': nat)
    requires utxo.Valid() && 0 < n < |txs|
    requires Sane(utxo.R, u) && TrustedProgress(utxo.R, u, txs, height, n, utxo.utxos, mutations, spent, bytes, fees)
    modifies utxo, utxo.smt
    ensures utxo.Valid()
    ensures err.Some? && WellListed(utxo.R, txs) ==> (utxo.utxos == u <==> !TrustedClashAt(utxo.R, u, txs, height, n))
    ensures err.None? ==> TrustedProgress(utxo.R, u, txs, height, n + 1, utxo.utxos, mutations', spent', bytes', fees')
    ensures err.Some? && Clean(utxo.R, u, txs, |txs|) && AllHaveIds(utxo.R, txs) ==> utxo.utxos == u
    ensures err.Some? ==> || !Trusted(utxo.R, u, txs, height, n + 1)
                          || !WithinBudget(utxo.R, u, txs, height, n + 1)
  {
    hide UtxoSet.Valid, Clean, Trusted, Flows, After, Applies, Applied, Log, SpentOf, SpentBytes, Sane, Lawful, HalfApplied, KnownAll;
    hide SumEntries, SumOutputs, RestoreMissing, WellListed, Clashes, OwnOps, Rollable, Unlisted, LogAfter, TrustedFees, SpentAfter, WithinBudget;
    BudgetNext(utxo.R, u, txs, height, n);
    mutations', spent', bytes', fees' := mutations, spent, bytes, fees;
    ghost var now := utxo.utxos;
    if Clean(utxo.R, u, txs, |txs|) { CleanUpTo(utxo.R, u, txs, n, |txs|); }
    ghost var R, listed := utxo.R, WellListed(utxo.R, txs);
    utxo.EntriesSane();
    var tx := txs[n];
    var status, noted, size, totalIn;
    ghost var extra;
    status, noted, size, totalIn, extra := NoteTrusted(utxo.R, utxo.utxos, tx, spent, bytes);
    if Clean(R, u, txs, n) || listed { Rolls(R, u, txs, height, n, extra); }
    if !status.Noted? {
      if !AllPresent(now, tx.inputs) { CannotTrust(utxo.R, u, txs, height, n); }
      var ok := UndoAppliedTransactions(utxo, txs, n, noted, u, height, extra);
      err := Some(if ok && status.TooLarge? then BlockTooLarge(size) else StateCorrupted);
      return;
    }
    var totalOut := TotalOutputs(tx.outputs);
    if totalIn < totalOut {
      CannotTrust(utxo.R, u, txs, height, n);
      var ok := UndoAppliedTransactions(utxo, txs, n, noted, u, height, extra);
      err := Some(if ok then OutputsExceedInputs else StateCorrupted);
      return;
    }
    var log := utxo.ApplyTransaction(tx, height);
    if log.Err? {
      CannotTrust(utxo.R, u, txs, height, n);
      err := Some(StateCorrupted);
      ghost var half := utxo.utxos;
      var mine := noted[|spent|..];
      assert mine == extra;
      ExtraKnown(utxo.R, spent, extra);
      if Clean(utxo.R, u, txs, |txs|) && AllHaveIds(utxo.R, txs) {
        CleanUpTo(utxo.R, u, txs, n + 1, |txs|);
        StillUnowned(utxo.R, u, txs, height, n, n);
        PartialRestores(utxo.R, now, half, tx, height);
      }
      SaneSizes(utxo.R, now, tx);
      ghost var op;
      if listed {
        op := ClashTraced(R, u, txs, height, n, extra);
      }
      UndoFailed(utxo, txs, n, noted, mine, u, height, extra);
      return;
    }
    TrustedNext(utxo.R, u, txs, height, n, now, mutations, spent, bytes, fees, size);
    mutations', spent', bytes', fees' := mutations + log.value, noted, size, fees + (totalIn - totalOut);
    err := None;
  }

  lemma ExtraKnown(R: Rules, spent: SpentList, extra: SpentList)
    requires KnownAll(R, spent + extra)
    ensures KnownAll(R, extra)
  {
    forall i | 0 <= i < |extra| ensures Known(R, extra[i].0) { assert (spent + extra)[|spent| + i] == extra[i]; }
  }

  lemma SaneSizes(R: Rules, u: Utxos, tx: Tx)
    requires Sane(R, u)
    ensures forall i | 0 <= i < |SpentOf(u, tx)| :: R.outputSize(SpentOf(u, tx)[i].1.output).Some?
  {
  }

  /**
   Apply a block without signatures, scripts, maturity or reward checks. It accepts every block the validating
   path accepts, with the same state, fees and log. An error restores the set if all ids exist and are new; and for
   a list as the header rules grant it, if and only if no transaction that is reached clashes. Here a payment can
   clash even if the coinbase does not.
   */
  method ApplyBlockAssumeValid(utxo: UtxoSet, block: Block) returns (r: Result<(nat, seq<Mutation>), BlockError>)
    requires utxo.Valid() && block.txs != [] && IsCoinbase(block.txs[0])
    modifies utxo, utxo.smt
    ensures utxo.Valid()
    ensures r.Ok? <==> TrustedAccepts(utxo.R, old(utxo.utxos), block)
    ensures r.Ok? ==>
              var n, h := |block.txs|, block.header.height;
              && Flows(utxo.R, old(utxo.utxos), block.txs, h, n)
              && utxo.utxos == After(utxo.R, old(utxo.utxos), block.txs, h, n)
              && r.value == (TrustedFees(utxo.R, old(utxo.utxos), block.txs, h, n), LogAfter(utxo.R, old(utxo.utxos), block.txs, h, n))
    ensures Accepts(utxo.R, old(utxo.utxos), block) ==>
              r.Ok? && r.value.0 == FeesAfter(utxo.R, old(utxo.utxos), block.txs, block.header.height, |block.txs|)
    ensures r.Err? && Clean(utxo.R, old(utxo.utxos), block.txs, |block.txs|) && AllHaveIds(utxo.R, block.txs) ==> utxo.Restored()
    ensures r.Err? && WellListed(utxo.R, block.txs) ==>
              (utxo.Restored() <==> !TrustedClashes(utxo.R, old(utxo.utxos), block.txs, block.header.height))
    ensures Collides(utxo.R, old(utxo.utxos), block.txs[0]) ==>
              r.Err? && LosesOutputs(utxo.R, old(utxo.utxos), utxo.utxos, block.txs[0]) && utxo.utxos != old(utxo.utxos)
  {
    hide UtxoSet.Valid, Clean, Trusted, Flows, After, Applies, Applied, Log, LogAfter, TrustedFees, SpentAfter, SpentBytes, Collides, Lawful;
    hide Accepts, FeesAfter, LosesOutputs, WellListed, TrustedClashes, TrustedClashAt, Sane, Rollable, AllHaveIds;
    ghost var u, R := utxo.utxos, utxo.R;
    if Accepts(R, u, block) { AcceptedIsTrusted(R, u, block); }
    var txs, height := block.txs, block.header.height;
    utxo.EntriesSane();
    var first := ApplyCoinbase(utxo, txs[0], height);
    if first.Err? {
      TrustedFailed(R, u, block);
      CoinbaseClashes(R, u, txs, height);
      if utxo.utxos == u { utxo.MapDecides(); }
      return Err(StateCorrupted);
    }
    var mutations, spent: SpentList, bytes: nat, fees: nat, n := first.value, [], 0, 0, 1;
    FirstTrusted(R, u, txs, height);
    while n < |txs|
      invariant 1 <= n <= |txs| && utxo.Valid()
      invariant TrustedProgress(R, u, txs, height, n, utxo.utxos, mutations, spent, bytes, fees)
    {
      var err;
      err, mutations, spent, bytes, fees := ApplyNextTrusted(utxo, txs, height, n, mutations, spent, bytes, fees, u);
      if err.Some? {
        if TrustedAccepts(R, u, block) { TrustedPrefix(R, u, block, n + 1); }
        NoTrustedCollision(R, u, txs, height, n);
        TrustedClashOnlyAt(R, u, txs, height, n);
        if utxo.utxos == u { utxo.MapDecides(); }
        return Err(err.value);
      }
      n := n + 1;
    }
    NoTrustedCollision(R, u, txs, height, n);
    if fees > U64_MAX {
      assert n == |txs| && spent == spent + [];
      TrustedClashOnlyAt(R, u, txs, height, n);
      if Clean(R, u, txs, n) || WellListed(R, txs) { Rolls(R, u, txs, height, n, []); }
      var ok := UndoAppliedTransactions(utxo, txs, n, spent, u, height, []);
      if utxo.utxos == u { utxo.MapDecides(); }
      return Err(if ok then FeesOverflow else StateCorrupted);
    }
    r := Ok((fees, mutations));
  }

  lemma TrustedPrefix(R: Rules, u: Utxos, block: Block, n: nat)
    requires TrustedAccepts(R, u, block) && n <= |block.txs|
    ensures Trusted(R, u, block.txs, block.header.height, n)
    ensures SpentBytes(R, SpentAfter(R, u, block.txs, block.header.height, n)) <= MAX_SPENT_UTXOS_SIZE
  {
    TrustedUpTo(R, u, block.txs, block.header.height, n, |block.txs|);
    SpentBytesGrow(R, u, block.txs, block.header.height, n, |block.txs|);
  }

  lemma NoTrustedCollision(R: Rules, u: Utxos, txs: seq<Tx>, height: nat, n: nat)
    requires Lawful(R) && 0 < n <= |txs| && IsCoinbase(txs[0]) && Trusted(R, u, txs, height, n)
    ensures !Collides(R, u, txs[0])
  {
    hide Applies, Collides, Lawful;
    TrustedUpTo(R, u, txs, height, 1, n);
    assert After(R, u, txs, height, 0) == u;
    CoinbaseApplies(R, u, txs[0]);
  }

  lemma TrustedFailed(R: Rules, u: Utxos, block: Block)
    requires Lawful(R) && block.txs != [] && !Applies(R, u, block.txs[0])
    ensures !TrustedAccepts(R, u, block)
    ensures Clean(R, u, block.txs, |block.txs|) ==> !Collides(R, u, block.txs[0])
  {
    if TrustedAccepts(R, u, block) { TrustedPrefix(R, u, block, 1); }
    if Clean(R, u, block.txs, |block.txs|) { assert Fresh(R, u, block.txs, 0); }
  }

  lemma FirstTrusted(R: Rules, u: Utxos, txs: seq<Tx>, height: nat)
    requires txs != [] && Applies(R, u, txs[0]) && IsCoinbase(txs[0])
    ensures TrustedProgress(R, u, txs, height, 1, Applied(R, u, txs[0], height), Log(R, u, txs[0], height), [], 0, 0)
  {
    assert Trusted(R, u, txs, height, 0) && Flows(R, u, txs, height, 0) && After(R, u, txs, height, 0) == u;
  }
}
