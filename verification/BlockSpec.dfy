/**
 What a block does to the UTXO map, transaction by transaction, and why undoing its transactions in
 reverse order restores the map.
 */
module BlockSpec {
  import opened SmtSpec
  import opened Ledger
  import opened UtxoState

  datatype TxError =
    | NoInputs
    | NoOutputs
    | Malformed
    | TxTooLarge
    | DuplicateInput
    | OutputBelowDust(index: nat, value: nat)
    | DatumHashMismatch(index: nat)
    | UtxoNotFound(op: OutPoint)
    | CoinbaseImmature(op: OutPoint, age: nat)
    | ValueOverflow
    | InsufficientInputValue
    | InadmissibleOutput
    | ScriptRejected
    | FeeBelowMinimum(fee: nat, minFee: nat)

  datatype CoinbaseError =
    | BadInput
    | Oversized
    | HeightOverflow
    | BadOutputIndex
    | BadForm
    | CoinbaseBelowDust
    | CoinbaseInadmissible
    | WrongReward(expected: nat, got: nat)

  datatype BlockError =
    | InvalidTx(e: TxError)
    | BlockTooLarge(size: nat)
    | FeesOverflow
    | RewardOverflow
    | InvalidCoinbase(c: CoinbaseError)
    | OutputsExceedInputs
    | StateCorrupted

  // ---- Validation of one transaction ----

  function Age(height: nat, created: nat): nat {
    if height < created then 0 else height - created
  }

  function Mature(e: UtxoEntry, height: nat): bool {
    !e.isCoinbase || Age(height, e.height) >= COINBASE_MATURITY
  }

  /** The first input that is missing or immature. */
  function BadInputIn(u: Utxos, ops: seq<OutPoint>, height: nat): Option<TxError> {
    if ops == [] then None
    else
      var earlier := BadInputIn(u, ops[..|ops| - 1], height);
      var op := ops[|ops| - 1];
      if earlier.Some? then earlier
      else if op !in u then Some(UtxoNotFound(op))
      else if !Mature(u[op], height) then Some(CoinbaseImmature(op, Age(height, u[op].height)))
      else None
  }

  lemma {:induction false} NoBadInput(u: Utxos, ops: seq<OutPoint>, height: nat)
    ensures BadInputIn(u, ops, height).None? <==>
              AllPresent(u, ops) && forall i | 0 <= i < |ops| :: Mature(u[ops[i]], height)
  {
    if ops != [] {
      NoBadInput(u, ops[..|ops| - 1], height);
    }
  }

  predicate AboveDust(outs: seq<TxOutput>) {
    forall i | 0 <= i < |outs| :: outs[i].value >= DUST_THRESHOLD
  }

  /** The first output that is below dust or, if it is not, whose datum does not have its hash. */
  function BadOutputIn(R: Rules, outs: seq<TxOutput>): Option<TxError> {
    if outs == [] then None
    else
      var i := |outs| - 1;
      var earlier := BadOutputIn(R, outs[..i]);
      if earlier.Some? then earlier
      else if outs[i].value < DUST_THRESHOLD then Some(OutputBelowDust(i, outs[i].value))
      else if !R.datumMatches(outs[i]) then Some(DatumHashMismatch(i))
      else None
  }

  lemma {:induction false} NoBadOutput(R: Rules, outs: seq<TxOutput>)
    ensures BadOutputIn(R, outs).None? <==> AboveDust(outs) && forall i | 0 <= i < |outs| :: R.datumMatches(outs[i])
  {
    if outs != [] { NoBadOutput(R, outs[..|outs| - 1]); }
  }

  /** The checks on a non-coinbase transaction, in order; the fee when all pass. */
  function ValidateTx(R: Rules, u: Utxos, tx: Tx, height: nat): Result<nat, TxError> {
    if tx.inputs == [] then Err(NoInputs)
    else if tx.outputs == [] then Err(NoOutputs)
    else if !R.wellFormed(tx) then Err(Malformed)
    else if !R.fits(tx) then Err(TxTooLarge)
    else if !Distinct(tx.inputs) then Err(DuplicateInput)
    else if BadOutputIn(R, tx.outputs).Some? then Err(BadOutputIn(R, tx.outputs).value)
    else
      var bad := BadInputIn(u, tx.inputs, height);
      if bad.Some? then Err(bad.value)
      else
        NoBadInput(u, tx.inputs, height);
        ValidateValues(R, Entries(u, tx.inputs), tx, height)
  }

  function ValidateValues(R: Rules, es: seq<UtxoEntry>, tx: Tx, height: nat): Result<nat, TxError> {
    var totalIn, totalOut := SumEntries(es), SumOutputs(tx.outputs);
    if totalIn > U64_MAX || totalOut > U64_MAX then Err(ValueOverflow)
    else if totalIn < totalOut then Err(InsufficientInputValue)
    else if !R.outputsAdmissible(tx) then Err(InadmissibleOutput)
    else if !R.scriptsAccept(tx, es, height) then Err(ScriptRejected)
    else if totalIn - totalOut < R.minFee(tx, es, height) then Err(FeeBelowMinimum(totalIn - totalOut, R.minFee(tx, es, height)))
    else Ok(totalIn - totalOut)
  }

  /** What acceptance of a transaction guarantees: inputs present, distinct and mature, and the fee is what they leave over. */
  lemma ValidTxFacts(R: Rules, u: Utxos, tx: Tx, height: nat)
    requires ValidateTx(R, u, tx, height).Ok?
    ensures tx.inputs != [] && tx.outputs != [] && R.fits(tx) && Distinct(tx.inputs) && AboveDust(tx.outputs)
    ensures AllPresent(u, tx.inputs) && forall i | 0 <= i < |tx.inputs| :: Mature(u[tx.inputs[i]], height)
    ensures SumEntries(Entries(u, tx.inputs)) == SumOutputs(tx.outputs) + ValidateTx(R, u, tx, height).value
    ensures ValidateTx(R, u, tx, height).value <= U64_MAX
  {
    NoBadOutput(R, tx.outputs);
    NoBadInput(u, tx.inputs, height);
  }

  /** A coinbase output is old enough exactly if that many blocks lie between. */
  lemma MatureMeans(e: UtxoEntry, height: nat)
    ensures Mature(e, height) <==> (e.isCoinbase ==> e.height + COINBASE_MATURITY <= height)
  {
  }

  /** A payment is valid if and only if it satisfies all of these, its scripts and signatures among them. */
  lemma ValidTxIff(R: Rules, u: Utxos, tx: Tx, height: nat)
    ensures ValidateTx(R, u, tx, height).Ok? <==>
              && tx.inputs != [] && tx.outputs != [] && R.wellFormed(tx) && R.fits(tx) && Distinct(tx.inputs)
              && (forall i | 0 <= i < |tx.outputs| :: tx.outputs[i].value >= DUST_THRESHOLD && R.datumMatches(tx.outputs[i]))
              && (forall i | 0 <= i < |tx.inputs| ::
                    && tx.inputs[i] in u
                    && (u[tx.inputs[i]].isCoinbase ==> u[tx.inputs[i]].height + COINBASE_MATURITY <= height))
              && var es := Entries(u, tx.inputs);
              && SumOutputs(tx.outputs) <= SumEntries(es) <= U64_MAX
              && R.outputsAdmissible(tx) && R.scriptsAccept(tx, es, height)
              && SumEntries(es) - SumOutputs(tx.outputs) >= R.minFee(tx, es, height)
  {
    hide SumOutputs, SumEntries;
    NoBadOutput(R, tx.outputs);
    NoBadInput(u, tx.inputs, height);
    forall i | 0 <= i < |tx.inputs| && tx.inputs[i] in u
      ensures Mature(u[tx.inputs[i]], height) <==>
                (u[tx.inputs[i]].isCoinbase ==> u[tx.inputs[i]].height + COINBASE_MATURITY <= height)
    {
      MatureMeans(u[tx.inputs[i]], height);
    }
  }

  lemma {:induction false} BadInputMeans(u: Utxos, ops: seq<OutPoint>, height: nat)
    requires BadInputIn(u, ops, height).Some?
    ensures match BadInputIn(u, ops, height).value
            case UtxoNotFound(op) => op in ops && op !in u
            case CoinbaseImmature(op, age) =>
              && op in ops && op in u && u[op].isCoinbase && age < COINBASE_MATURITY
              && (height == u[op].height + age || (height < u[op].height && age == 0))
            case _ => false
  {
    if BadInputIn(u, ops[..|ops| - 1], height).Some? { BadInputMeans(u, ops[..|ops| - 1], height); }
  }

  lemma {:induction false} BadOutputMeans(R: Rules, outs: seq<TxOutput>)
    requires BadOutputIn(R, outs).Some?
    ensures match BadOutputIn(R, outs).value
            case OutputBelowDust(i, v) => i < |outs| && outs[i].value == v < DUST_THRESHOLD
            case DatumHashMismatch(i) => i < |outs| && outs[i].value >= DUST_THRESHOLD && !R.datumMatches(outs[i])
            case _ => false
  {
    if BadOutputIn(R, outs[..|outs| - 1]).Some? { BadOutputMeans(R, outs[..|outs| - 1]); }
  }

  /** What the reported error says about the transaction. */
  lemma TxErrorMeans(R: Rules, u: Utxos, tx: Tx, height: nat)
    requires ValidateTx(R, u, tx, height).Err?
    ensures match ValidateTx(R, u, tx, height).error
            case NoInputs => tx.inputs == []
            case NoOutputs => tx.outputs == []
            case Malformed => !R.wellFormed(tx)
            case TxTooLarge => !R.fits(tx)
            case DuplicateInput => !Distinct(tx.inputs)
            case OutputBelowDust(i, v) => i < |tx.outputs| && tx.outputs[i].value == v < DUST_THRESHOLD
            case DatumHashMismatch(i) => i < |tx.outputs| && !R.datumMatches(tx.outputs[i])
            case UtxoNotFound(op) => op in tx.inputs && op !in u
            case CoinbaseImmature(op, _) => op in tx.inputs && op in u && u[op].isCoinbase && height < u[op].height + COINBASE_MATURITY
            case ValueOverflow => AllPresent(u, tx.inputs) && (SumEntries(Entries(u, tx.inputs)) > U64_MAX || SumOutputs(tx.outputs) > U64_MAX)
            case InsufficientInputValue => AllPresent(u, tx.inputs) && SumEntries(Entries(u, tx.inputs)) < SumOutputs(tx.outputs)
            case InadmissibleOutput => !R.outputsAdmissible(tx)
            case ScriptRejected => AllPresent(u, tx.inputs) && !R.scriptsAccept(tx, Entries(u, tx.inputs), height)
            case FeeBelowMinimum(fee, minFee) =>
              && AllPresent(u, tx.inputs) && SumEntries(Entries(u, tx.inputs)) == SumOutputs(tx.outputs) + fee
              && fee < minFee == R.minFee(tx, Entries(u, tx.inputs), height)
  {
    hide SumOutputs, SumEntries;
    NoBadInput(u, tx.inputs, height);
    if BadOutputIn(R, tx.outputs).Some? { BadOutputMeans(R, tx.outputs); }
    if BadInputIn(u, tx.inputs, height).Some? { BadInputMeans(u, tx.inputs, height); }
  }

  // ---- Validation of the coinbase ----

  function ValidateCoinbase(R: Rules, tx: Tx, height: nat, expected: nat): Option<CoinbaseError> {
    if !IsCoinbase(tx) then Some(BadInput)
    else if !R.fits(tx) then Some(Oversized)
    else if height > U32_MAX then Some(HeightOverflow)
    else if tx.inputs[0].index != height then Some(BadOutputIndex)
    else if !R.coinbaseForm(tx, height) then Some(BadForm)
    else if !AboveDust(tx.outputs) then Some(CoinbaseBelowDust)
    else if !R.outputsAdmissible(tx) then Some(CoinbaseInadmissible)
    else if SumOutputs(tx.outputs) > U64_MAX then Some(WrongReward(expected, U64_MAX))
    else if SumOutputs(tx.outputs) != expected then Some(WrongReward(expected, SumOutputs(tx.outputs)))
    else None
  }

  /**
   What acceptance of a coinbase guarantees: it names its height, pays out exactly what is expected, and no output
   is below dust; and any coinbase that is well formed and does so is accepted.
   */
  lemma ValidCoinbaseFacts(R: Rules, tx: Tx, height: nat, expected: nat)
    ensures ValidateCoinbase(R, tx, height, expected).None? <==>
              && tx.inputs == [OutPoint(ZERO, height)] && height <= U32_MAX
              && SumOutputs(tx.outputs) == expected <= U64_MAX && (forall i | 0 <= i < |tx.outputs| :: tx.outputs[i].value >= DUST_THRESHOLD)
              && R.fits(tx) && R.coinbaseForm(tx, height) && R.outputsAdmissible(tx)
  {
    hide SumOutputs;
    if IsCoinbase(tx) { assert tx.inputs == [tx.inputs[0]]; }
  }

  // ---- A block as a run of its transactions ----

  ghost function Step(R: Rules, u: Utxos, tx: Tx, height: nat): Utxos {
    if R.txId(tx).Some? then Applied(R, u, tx, height) else u
  }

  /** The map after the first `n` transactions. */
  ghost function After(R: Rules, u: Utxos, txs: seq<Tx>, height: nat, n: nat): Utxos
    requires n <= |txs|
  {
    if n == 0 then u else Step(R, After(R, u, txs, height, n - 1), txs[n - 1], height)
  }

  /** The entries a transaction consumes, in input order. */
  ghost function SpentOf(u: Utxos, tx: Tx): (s: SpentList)
    ensures AllPresent(u, Consumed(tx)) ==> |s| == |Consumed(tx)|
  {
    if AllPresent(u, Consumed(tx))
    then seq(|Consumed(tx)|, i requires 0 <= i < |Consumed(tx)| => (Consumed(tx)[i], u[Consumed(tx)[i]]))
    else []
  }

  ghost function SpentAfter(R: Rules, u: Utxos, txs: seq<Tx>, height: nat, n: nat): SpentList
    requires n <= |txs|
  {
    if n == 0 then []
    else SpentAfter(R, u, txs, height, n - 1) + SpentOf(After(R, u, txs, height, n - 1), txs[n - 1])
  }

  /** The first `n` transactions applied one after the other. */
  ghost predicate Flows(R: Rules, u: Utxos, txs: seq<Tx>, height: nat, n: nat)
    requires n <= |txs|
  {
    n == 0 || (Flows(R, u, txs, height, n - 1) && Applies(R, After(R, u, txs, height, n - 1), txs[n - 1]))
  }

  /** The first `n` transactions were accepted and applied, the coinbase without validation. */
  ghost predicate Ran(R: Rules, u: Utxos, txs: seq<Tx>, height: nat, n: nat)
    requires n <= |txs|
  {
    n == 0 ||
    (&& Ran(R, u, txs, height, n - 1)
     && Applies(R, After(R, u, txs, height, n - 1), txs[n - 1])
     && (n == 1 || ValidateTx(R, After(R, u, txs, height, n - 1), txs[n - 1], height).Ok?))
  }

  ghost function FeesAfter(R: Rules, u: Utxos, txs: seq<Tx>, height: nat, n: nat): nat
    requires n <= |txs| && Ran(R, u, txs, height, n)
  {
    if n <= 1 then 0
    else FeesAfter(R, u, txs, height, n - 1) + ValidateTx(R, After(R, u, txs, height, n - 1), txs[n - 1], height).value
  }

  ghost function LogAfter(R: Rules, u: Utxos, txs: seq<Tx>, height: nat, n: nat): seq<Mutation>
    requires n <= |txs| && Flows(R, u, txs, height, n)
  {
    if n == 0 then []
    else LogAfter(R, u, txs, height, n - 1) + Log(R, After(R, u, txs, height, n - 1), txs[n - 1], height)
  }

  function EntryBytes(R: Rules, e: UtxoEntry): nat {
    53 + (if R.outputSize(e.output).Some? then R.outputSize(e.output).value else 0)
  }

  ghost function SpentBytes(R: Rules, s: SpentList): nat {
    if s == [] then 0 else SpentBytes(R, s[..|s| - 1]) + EntryBytes(R, s[|s| - 1].1)
  }

  /** The block passes every check of block application from the map `u`. */
  ghost predicate Accepts(R: Rules, u: Utxos, block: Block) {
    var n, h := |block.txs|, block.header.height;
    && n > 0 && Ran(R, u, block.txs, h, n)
    && SpentBytes(R, SpentAfter(R, u, block.txs, h, n)) <= MAX_SPENT_UTXOS_SIZE
    && FeesAfter(R, u, block.txs, h, n) <= U64_MAX
    && R.reward(h) + FeesAfter(R, u, block.txs, h, n) <= U64_MAX
    && ValidateCoinbase(R, block.txs[0], h, R.reward(h) + FeesAfter(R, u, block.txs, h, n)).None?
  }

  // ---- When rollback is exact ----

  /** Transaction `k` has a new id: it owns nothing in the map and no earlier transaction of the list has it. */
  ghost predicate Fresh(R: Rules, u: Utxos, txs: seq<Tx>, k: nat)
    requires k < |txs|
  {
    R.txId(txs[k]).Some? ==>
      Unowned(u, R.txId(txs[k]).value) && forall i | 0 <= i < k :: R.txId(txs[i]) != R.txId(txs[k])
  }

  /** The first `n` transactions of a block that starts with a coinbase have new ids. */
  ghost predicate Clean(R: Rules, u: Utxos, txs: seq<Tx>, n: nat)
    requires n <= |txs|
  {
    txs != [] && IsCoinbase(txs[0]) && Sane(R, u) && forall k | 0 <= k < n :: Fresh(R, u, txs, k)
  }

  /** Block application gets to transaction `k` and, unless it is the coinbase, finds it valid. */
  ghost predicate Reached(R: Rules, u: Utxos, txs: seq<Tx>, height: nat, k: nat)
    requires k < |txs|
  {
    Ran(R, u, txs, height, k) && (k == 0 || ValidateTx(R, After(R, u, txs, height, k), txs[k], height).Ok?)
  }

  /** Every transaction that block application would apply has a new id. */
  ghost predicate Safe(R: Rules, u: Utxos, txs: seq<Tx>, height: nat) {
    txs != [] && IsCoinbase(txs[0]) && Sane(R, u) && forall k | 0 <= k < |txs| && Reached(R, u, txs, height, k) :: Fresh(R, u, txs, k)
  }

  lemma CleanUpTo(R: Rules, u: Utxos, txs: seq<Tx>, m: nat, n: nat)
    requires m <= n <= |txs| && Clean(R, u, txs, n)
    ensures Clean(R, u, txs, m)
  {
  }

  lemma {:induction false} SafeClean(R: Rules, u: Utxos, txs: seq<Tx>, height: nat, n: nat)
    requires Safe(R, u, txs, height) && n <= |txs| && Ran(R, u, txs, height, n)
    ensures Clean(R, u, txs, n)
    decreases n
  {
    hide After, Applies, ValidateTx, Fresh;
    if n > 0 {
      SafeClean(R, u, txs, height, n - 1);
      assert Reached(R, u, txs, height, n - 1);
    }
  }

  /** Later transactions of a clean block own nothing in any intermediate map. */
  lemma {:induction false} StillUnowned(R: Rules, u: Utxos, txs: seq<Tx>, height: nat, n: nat, k: nat)
    requires n <= k < |txs| && Clean(R, u, txs, k + 1) && R.txId(txs[k]).Some?
    ensures Unowned(After(R, u, txs, height, n), R.txId(txs[k]).value)
    decreases n
  {
    assert Fresh(R, u, txs, k);
    if n > 0 {
      StillUnowned(R, u, txs, height, n - 1, k);
    }
  }

  lemma {:induction false} StillSane(R: Rules, u: Utxos, txs: seq<Tx>, height: nat, n: nat)
    requires Lawful(R) && Sane(R, u) && n <= |txs|
    ensures Sane(R, After(R, u, txs, height, n))
    decreases n
  {
    if n > 0 {
      StillSane(R, u, txs, height, n - 1);
    }
  }

  lemma {:induction false} RanFlows(R: Rules, u: Utxos, txs: seq<Tx>, height: nat, n: nat)
    requires n <= |txs| && Ran(R, u, txs, height, n)
    ensures Flows(R, u, txs, height, n)
    decreases n
  {
    hide After, Applies, ValidateTx;
    if n > 0 { RanFlows(R, u, txs, height, n - 1); }
  }

  lemma {:induction false} RanPrefix(R: Rules, u: Utxos, txs: seq<Tx>, height: nat, i: nat, n: nat)
    requires i <= n <= |txs| && Ran(R, u, txs, height, n)
    ensures Ran(R, u, txs, height, i)
    decreases n
  {
    hide After, Applies, ValidateTx;
    if i < n { RanPrefix(R, u, txs, height, i, n - 1); }
  }

  lemma {:induction false} FlowsPrefix(R: Rules, u: Utxos, txs: seq<Tx>, height: nat, i: nat, n: nat)
    requires i <= n <= |txs| && Flows(R, u, txs, height, n)
    ensures Flows(R, u, txs, height, i)
    decreases n
  {
    hide After, Applies;
    if i < n { FlowsPrefix(R, u, txs, height, i, n - 1); }
  }

  /** What a run says about its transaction `i`. */
  lemma FlowsAt(R: Rules, u: Utxos, txs: seq<Tx>, height: nat, i: nat, n: nat)
    requires i < n <= |txs| && Flows(R, u, txs, height, n)
    ensures var w := After(R, u, txs, height, i);
            && Flows(R, u, txs, height, i) && Applies(R, w, txs[i])
            && After(R, u, txs, height, i + 1) == Applied(R, w, txs[i], height)
            && AllPresent(w, Consumed(txs[i])) && Distinct(Consumed(txs[i]))
  {
    hide Applied, Blocked;
    FlowsPrefix(R, u, txs, height, i + 1, n);
  }

  lemma StepKeepsGone(R: Rules, u: Utxos, tx: Tx, height: nat, op: OutPoint)
    requires R.txId(tx).Some? && op.txId != R.txId(tx).value && (op !in u || op in Consumed(tx))
    ensures op !in Applied(R, u, tx, height)
  {
    if op in Consumed(tx) { assert op in OpSet(Consumed(tx)); }
  }

  /** An outpoint consumed by transaction `i` never comes back. */
  lemma {:induction false} Gone(R: Rules, u: Utxos, txs: seq<Tx>, height: nat, i: nat, n: nat, op: OutPoint)
    requires i < n <= |txs| && Clean(R, u, txs, n) && Flows(R, u, txs, height, n) && op in Consumed(txs[i])
    ensures op !in After(R, u, txs, height, n)
    decreases n
  {
    hide Flows, After, Applies, Applied;
    FlowsAt(R, u, txs, height, i, n);
    FlowsAt(R, u, txs, height, n - 1, n);
    AppliesId(R, After(R, u, txs, height, n - 1), txs[n - 1]);
    StillUnowned(R, u, txs, height, i, n - 1);
    if i < n - 1 {
      Gone(R, u, txs, height, i, n - 1, op);
    }
    StepKeepsGone(R, After(R, u, txs, height, n - 1), txs[n - 1], height, op);
  }

  lemma AppliesId(R: Rules, u: Utxos, tx: Tx)
    requires Applies(R, u, tx)
    ensures R.txId(tx).Some?
  {
  }

  // ---- Selecting a transaction's entries from the block's spent list ----

  /** The entries whose outpoint is one of the given inputs, in order. */
  function Select(s: SpentList, ops: seq<OutPoint>): SpentList {
    if s == [] then []
    else
      var rest := Select(s[..|s| - 1], ops);
      if s[|s| - 1].0 in ops then rest + [s[|s| - 1]] else rest
  }

  lemma {:induction false} SelectConcat(a: SpentList, b: SpentList, ops: seq<OutPoint>)
    ensures Select(a + b, ops) == Select(a, ops) + Select(b, ops)
    decreases |b|
  {
    if b == [] {
      assert a + b == a;
    } else {
      assert (a + b)[..|a + b| - 1] == a + b[..|b| - 1];
      SelectConcat(a, b[..|b| - 1], ops);
    }
  }

  lemma {:induction false} SelectAll(s: SpentList, ops: seq<OutPoint>)
    requires forall i | 0 <= i < |s| :: s[i].0 in ops
    ensures Select(s, ops) == s
  {
    if s != [] {
      SelectAll(s[..|s| - 1], ops);
      assert s == s[..|s| - 1] + [s[|s| - 1]];
    }
  }

  lemma {:induction false} SelectNone(s: SpentList, ops: seq<OutPoint>)
    requires forall i | 0 <= i < |s| :: s[i].0 !in ops
    ensures Select(s, ops) == []
  {
    if s != [] { SelectNone(s[..|s| - 1], ops); }
  }

  /** What is still unspent after `n` transactions is an input of none of them. */
  lemma NotAnInput(R: Rules, u: Utxos, txs: seq<Tx>, height: nat, i: nat, n: nat, op: OutPoint)
    requires Lawful(R) && i < n <= |txs| && Clean(R, u, txs, n) && Flows(R, u, txs, height, n)
    requires op in After(R, u, txs, height, n)
    ensures op !in txs[i].inputs
  {
    if IsCoinbase(txs[i]) {
      CoinbaseInput(R, u, txs, height, i, n, op);
    } else if op in txs[i].inputs {
      Gone(R, u, txs, height, i, n, op);
    }
  }

  /** The sentinel input of a coinbase is in no map of the run. */
  lemma CoinbaseInput(R: Rules, u: Utxos, txs: seq<Tx>, height: nat, i: nat, n: nat, op: OutPoint)
    requires Lawful(R) && Sane(R, u) && i < |txs| && n <= |txs| && IsCoinbase(txs[i])
    requires op in After(R, u, txs, height, n)
    ensures op !in txs[i].inputs
  {
    hide After;
    StillSane(R, u, txs, height, n);
    assert Known(R, op);
    assert op.txId != ZERO;
  }

  /** Nothing spent by one transaction of a clean block is an input of another. */
  lemma SegmentsDisjoint(R: Rules, u: Utxos, txs: seq<Tx>, height: nat, i: nat, k: nat, n: nat, op: OutPoint)
    requires Lawful(R) && i < n <= |txs| && Clean(R, u, txs, n) && k < n && i != k && Flows(R, u, txs, height, n)
    requires op in Consumed(txs[k])
    ensures op !in txs[i].inputs
  {
    hide Flows, After, Applies, Applied;
    FlowsAt(R, u, txs, height, k, n);
    FlowsAt(R, u, txs, height, i, n);
    if i < k {
      NotAnInput(R, u, txs, height, i, k, op);
    } else if !IsCoinbase(txs[i]) && op in txs[i].inputs {
      Gone(R, u, txs, height, k, i, op);
    } else if IsCoinbase(txs[i]) {
      CoinbaseInput(R, u, txs, height, i, k, op);
    }
  }

  /** Nothing consumed by one of the first `n` transactions is an input of another. */
  ghost predicate Splits(txs: seq<Tx>, n: nat)
    requires n <= |txs|
  {
    forall i, k, op | 0 <= i < n && 0 <= k < n && i != k && op in Consumed(txs[k]) :: op !in txs[i].inputs
  }

  lemma CleanSplits(R: Rules, u: Utxos, txs: seq<Tx>, height: nat, n: nat)
    requires Lawful(R) && n <= |txs| && Clean(R, u, txs, n) && Flows(R, u, txs, height, n)
    ensures Splits(txs, n)
  {
    hide Lawful, Clean, Flows, Consumed;
    forall i, k, op | 0 <= i < n && 0 <= k < n && i != k && op in Consumed(txs[k]) ensures op !in txs[i].inputs {
      SegmentsDisjoint(R, u, txs, height, i, k, n, op);
    }
  }

  /** No two payments share an input, and none repeats one. */
  ghost predicate InputsApart(txs: seq<Tx>) {
    && (forall i | 0 < i < |txs| :: Distinct(txs[i].inputs))
    && (forall i, j, op | 0 < i < j < |txs| && op in txs[i].inputs :: op !in txs[j].inputs)
  }

  /** What the header rules grant every block above genesis: a coinbase first, no repeated id, no repeated input. */
  ghost predicate WellListed(R: Rules, txs: seq<Tx>) {
    txs != [] && IsCoinbase(txs[0]) && NoRepeats(R, txs) && InputsApart(txs)
  }

  lemma ListedSplits(R: Rules, u: Utxos, txs: seq<Tx>, height: nat, n: nat)
    requires Lawful(R) && Sane(R, u) && n <= |txs| && WellListed(R, txs) && Flows(R, u, txs, height, n)
    ensures Splits(txs, n)
  {
    hide Lawful, Sane, Flows, NoRepeats, After, Applies, Applied, Distinct;
    forall i, k, op | 0 <= i < n && 0 <= k < n && i != k && op in Consumed(txs[k]) ensures op !in txs[i].inputs {
      FlowsAt(R, u, txs, height, k, n);
      if i == 0 { CoinbaseInput(R, u, txs, height, i, k, op); }
    }
  }

  /** What transaction `i` selects from the entries consumed by transaction `k`. */
  lemma SelectFromOne(R: Rules, u: Utxos, txs: seq<Tx>, height: nat, i: nat, k: nat, n: nat)
    requires i < n <= |txs| && Splits(txs, n) && k < n && Flows(R, u, txs, height, n)
    ensures var seg := SpentOf(After(R, u, txs, height, k), txs[k]);
            Select(seg, txs[i].inputs) == if i == k then seg else []
  {
    hide Flows, After, Applies, Applied;
    FlowsAt(R, u, txs, height, k, n);
    var seg := SpentOf(After(R, u, txs, height, k), txs[k]);
    if i == k {
      SelectAll(seg, txs[i].inputs);
    } else {
      forall j | 0 <= j < |seg| ensures seg[j].0 !in txs[i].inputs {
        assert seg[j].0 in Consumed(txs[k]);
      }
      SelectNone(seg, txs[i].inputs);
    }
  }

  /** The entries selected for transaction `i` are exactly those it consumed. */
  lemma {:induction false} SelectSegment(R: Rules, u: Utxos, txs: seq<Tx>, height: nat, i: nat, m: nat, n: nat)
    requires i < n <= |txs| && Splits(txs, n) && m <= n && Flows(R, u, txs, height, n)
    ensures Select(SpentAfter(R, u, txs, height, m), txs[i].inputs)
              == if i < m then SpentOf(After(R, u, txs, height, i), txs[i]) else []
    decreases m
  {
    hide Flows, After, SpentOf, SpentAfter, Select, Splits;
    SpentAfterStep(R, u, txs, height, m, txs[i].inputs);
    if m > 0 {
      SelectSegment(R, u, txs, height, i, m - 1, n);
      SelectFromOne(R, u, txs, height, i, m - 1, n);
    }
  }

  lemma SpentAfterStep(R: Rules, u: Utxos, txs: seq<Tx>, height: nat, m: nat, ops: seq<OutPoint>)
    requires m <= |txs|
    ensures m == 0 ==> Select(SpentAfter(R, u, txs, height, m), ops) == []
    ensures m > 0 ==> Select(SpentAfter(R, u, txs, height, m), ops)
                        == Select(SpentAfter(R, u, txs, height, m - 1), ops)
                         + Select(SpentOf(After(R, u, txs, height, m - 1), txs[m - 1]), ops)
  {
    if m > 0 {
      SelectConcat(SpentAfter(R, u, txs, height, m - 1), SpentOf(After(R, u, txs, height, m - 1), txs[m - 1]), ops);
    }
  }

  /** The entries are of inputs of none of the first `n` transactions. */
  ghost predicate Elsewhere(txs: seq<Tx>, n: nat, extra: SpentList)
    requires n <= |txs|
  {
    forall i, j | 0 <= i < n && 0 <= j < |extra| :: extra[j].0 !in txs[i].inputs
  }

  lemma CleanElsewhere(R: Rules, u: Utxos, txs: seq<Tx>, height: nat, n: nat, extra: SpentList)
    requires Lawful(R) && n <= |txs| && Clean(R, u, txs, n) && Flows(R, u, txs, height, n)
    requires forall j | 0 <= j < |extra| :: extra[j].0 in After(R, u, txs, height, n)
    ensures Elsewhere(txs, n, extra)
  {
    hide Lawful, Clean, Flows, After;
    forall i, j | 0 <= i < n && 0 <= j < |extra| ensures extra[j].0 !in txs[i].inputs {
      NotAnInput(R, u, txs, height, i, n, extra[j].0);
    }
  }

  lemma ListedElsewhere(R: Rules, u: Utxos, txs: seq<Tx>, height: nat, n: nat, extra: SpentList)
    requires Lawful(R) && Sane(R, u) && n < |txs| && WellListed(R, txs) && Flows(R, u, txs, height, n)
    requires forall j | 0 <= j < |extra| :: extra[j].0 in After(R, u, txs, height, n) && extra[j].0 in txs[n].inputs
    ensures Elsewhere(txs, n, extra)
  {
    hide Lawful, Sane, Flows, After, NoRepeats, Distinct;
    forall i, j | 0 <= i < n && 0 <= j < |extra| ensures extra[j].0 !in txs[i].inputs {
      if i == 0 { CoinbaseInput(R, u, txs, height, 0, n, extra[j].0); }
    }
  }

  /** Entries pushed for a transaction that was not applied are selected by none that was. */
  lemma {:induction false} SelectExtra(R: Rules, u: Utxos, txs: seq<Tx>, height: nat, i: nat, n: nat, extra: SpentList)
    requires i < n <= |txs| && Splits(txs, n) && Flows(R, u, txs, height, n) && Elsewhere(txs, n, extra)
    ensures Select(SpentAfter(R, u, txs, height, n) + extra, txs[i].inputs) == SpentOf(After(R, u, txs, height, i), txs[i])
  {
    hide Flows, After, SpentOf, SpentAfter, Select, Splits;
    SelectConcat(SpentAfter(R, u, txs, height, n), extra, txs[i].inputs);
    SelectSegment(R, u, txs, height, i, n, n);
    SelectNone(extra, txs[i].inputs);
  }

  // ---- Undoing one transaction ----

  lemma {:induction false} PrevMapOfSpent(u: Utxos, s: SpentList)
    requires forall i | 0 <= i < |s| :: s[i].0 in u && s[i].1 == u[s[i].0]
    ensures forall op | op in PrevMap(s) :: op in u && PrevMap(s)[op] == u[op]
  {
    if s != [] { PrevMapOfSpent(u, s[..|s| - 1]); }
  }

  /** Undoing the last transaction of a run succeeds and gives back the map before it. */
  lemma UndoLast(R: Rules, u: Utxos, txs: seq<Tx>, height: nat, n: nat)
    requires Lawful(R) && Sane(R, u) && 0 < n <= |txs| && Flows(R, u, txs, height, n)
    ensures var before, tx := After(R, u, txs, height, n - 1), txs[n - 1];
            var after := After(R, u, txs, height, n);
            && Undoable(R, after, tx, SpentOf(before, tx))
            && (after - OwnOps(R, tx, |tx.outputs|)) + PrevMap(SpentOf(before, tx)) == before
  {
    hide Lawful, Sane, Flows, After, Applied, Undoable;
    var before, tx := After(R, u, txs, height, n - 1), txs[n - 1];
    FlowsAt(R, u, txs, height, n - 1, n);
    StillSane(R, u, txs, height, n - 1);
    UndoApplied(R, before, tx, height);
  }

  lemma UndoApplied(R: Rules, u: Utxos, tx: Tx, height: nat)
    requires Sane(R, u) && Applies(R, u, tx)
    ensures var after := Applied(R, u, tx, height);
            && Undoable(R, after, tx, SpentOf(u, tx))
            && (after - OwnOps(R, tx, |tx.outputs|)) + PrevMap(SpentOf(u, tx)) == u
  {
    hide PrevMap;
    var ops, s := Consumed(tx), SpentOf(u, tx);
    OutputsRemoved(R, u, tx, height);
    forall i | 0 <= i < |s| ensures s[i].0 !in u - OpSet(ops) { assert ops[i] in OpSet(ops); }
    forall i | 0 <= i < |tx.outputs|
      ensures OutPoint(R.txId(tx).value, i) in Created(R.txId(tx).value, tx.outputs, height, IsCoinbase(tx)) {}
    InputsRestored(u, tx);
  }

  lemma OutputsRemoved(R: Rules, u: Utxos, tx: Tx, height: nat)
    requires Applies(R, u, tx)
    ensures Applied(R, u, tx, height) - OwnOps(R, tx, |tx.outputs|) == u - OpSet(Consumed(tx))
  {
    var id, w := R.txId(tx).value, u - OpSet(Consumed(tx));
    forall op ensures op in OwnOps(R, tx, |tx.outputs|) <==> op in Created(id, tx.outputs, height, IsCoinbase(tx)) {
      if op.txId == id && op.index < |tx.outputs| { assert op == OutPoint(id, op.index); }
    }
    forall i | 0 <= i < |tx.outputs| ensures OutPoint(id, i) !in w { assert !Blocked(R, u, tx, i); }
    forall op | op in w ensures op !in OwnOps(R, tx, |tx.outputs|) {
      assert op == OutPoint(op.txId, op.index);
    }
  }

  lemma InputsRestored(u: Utxos, tx: Tx)
    requires AllPresent(u, Consumed(tx))
    ensures (u - OpSet(Consumed(tx))) + PrevMap(SpentOf(u, tx)) == u
  {
    var ops, s := Consumed(tx), SpentOf(u, tx);
    PrevMapOfSpent(u, s);
    PrevMapKeys(s);
    forall op | op in OpSet(ops) ensures op in PrevMap(s) {
      var i :| 0 <= i < |ops| && ops[i] == op;
      assert s[i].0 == op;
    }
  }

  /** In a clean run a validated transaction always applies. */
  lemma CleanApplies(R: Rules, u: Utxos, txs: seq<Tx>, height: nat, n: nat)
    requires Lawful(R) && n < |txs| && Clean(R, u, txs, n + 1) && ValidateTx(R, After(R, u, txs, height, n), txs[n], height).Ok?
    ensures Applies(R, After(R, u, txs, height, n), txs[n])
  {
    hide After, ValidateTx;
    var w := After(R, u, txs, height, n);
    ValidTxFacts(R, w, txs[n], height);
    assert R.fits(txs[n]);
    StillUnowned(R, u, txs, height, n, n);
  }

  /** A validated transaction is not a coinbase. */
  lemma ValidNotCoinbase(R: Rules, u: Utxos, tx: Tx, height: nat)
    requires Lawful(R) && Sane(R, u) && ValidateTx(R, u, tx, height).Ok?
    ensures !IsCoinbase(tx) && Consumed(tx) == tx.inputs
  {
    hide ValidateTx;
    ValidTxFacts(R, u, tx, height);
    assert Known(R, tx.inputs[0]);
  }

  lemma {:induction false} SpentBytesConcat(R: Rules, a: SpentList, b: SpentList)
    ensures SpentBytes(R, a + b) == SpentBytes(R, a) + SpentBytes(R, b)
    decreases |b|
  {
    if b == [] {
      assert a + b == a;
    } else {
      assert (a + b)[..|a + b| - 1] == a + b[..|b| - 1];
      SpentBytesConcat(R, a, b[..|b| - 1]);
    }
  }

  /** The undo metadata only grows along a run. */
  lemma {:induction false} SpentBytesGrow(R: Rules, u: Utxos, txs: seq<Tx>, height: nat, m: nat, n: nat)
    requires m <= n <= |txs|
    ensures SpentBytes(R, SpentAfter(R, u, txs, height, m)) <= SpentBytes(R, SpentAfter(R, u, txs, height, n))
    decreases n
  {
    hide After, SpentOf, SpentBytes;
    if m < n {
      SpentBytesGrow(R, u, txs, height, m, n - 1);
      SpentBytesConcat(R, SpentAfter(R, u, txs, height, n - 1), SpentOf(After(R, u, txs, height, n - 1), txs[n - 1]));
    }
  }

  /** A block that passes all checks passes them up to every transaction. */
  lemma AcceptsPrefix(R: Rules, u: Utxos, block: Block, n: nat)
    requires Accepts(R, u, block) && n <= |block.txs|
    ensures Ran(R, u, block.txs, block.header.height, n)
    ensures SpentBytes(R, SpentAfter(R, u, block.txs, block.header.height, n)) <= MAX_SPENT_UTXOS_SIZE
  {
    RanPrefix(R, u, block.txs, block.header.height, n, |block.txs|);
    SpentBytesGrow(R, u, block.txs, block.header.height, n, |block.txs|);
  }

  lemma {:induction false} RanIff(R: Rules, u: Utxos, txs: seq<Tx>, height: nat, n: nat)
    requires n <= |txs|
    ensures Ran(R, u, txs, height, n) <==>
              forall i | 0 <= i < n ::
                && Applies(R, After(R, u, txs, height, i), txs[i])
                && (i > 0 ==> ValidateTx(R, After(R, u, txs, height, i), txs[i], height).Ok?)
    decreases n
  {
    hide After, Applies, ValidateTx;
    if n > 0 { RanIff(R, u, txs, height, n - 1); }
  }

  /**
   A block is accepted if and only if each of its transactions applies on the map before it, each payment is valid
   there, what it consumes keeps the undo budget, and its coinbase names the height and pays reward and fees.
   */
  lemma AcceptsIff(R: Rules, u: Utxos, block: Block)
    requires block.txs != []
    ensures Accepts(R, u, block) <==>
              var txs, h, n := block.txs, block.header.height, |block.txs|;
              && Ran(R, u, txs, h, n)
              && (forall i | 0 <= i < n :: Applies(R, After(R, u, txs, h, i), txs[i]))
              && (forall i | 0 < i < n :: ValidateTx(R, After(R, u, txs, h, i), txs[i], h).Ok?)
              && SpentBytes(R, SpentAfter(R, u, txs, h, n)) <= 16_777_216
              && txs[0].inputs == [OutPoint(ZERO, h)] && h <= U32_MAX
              && SumOutputs(txs[0].outputs) == R.reward(h) + FeesAfter(R, u, txs, h, n) <= U64_MAX
              && (forall i | 0 <= i < |txs[0].outputs| :: txs[0].outputs[i].value >= DUST_THRESHOLD)
              && R.fits(txs[0]) && R.coinbaseForm(txs[0], h) && R.outputsAdmissible(txs[0])
  {
    hide Ran, After, Applies, ValidateTx, ValidateCoinbase, SpentBytes, SpentAfter, FeesAfter, SumOutputs;
    var txs, h, n := block.txs, block.header.height, |block.txs|;
    RanIff(R, u, txs, h, n);
    if Ran(R, u, txs, h, n) { ValidCoinbaseFacts(R, txs[0], h, R.reward(h) + FeesAfter(R, u, txs, h, n)); }
  }

  /** Undo metadata is additive, 53 bytes and the serialized output for each entry. */
  lemma SpentBytesMeans(R: Rules, s: SpentList, op: OutPoint, e: UtxoEntry, size: nat)
    requires R.outputSize(e.output) == Some(size)
    ensures SpentBytes(R, []) == 0 && SpentBytes(R, s + [(op, e)]) == SpentBytes(R, s) + 53 + size
  {
    assert (s + [(op, e)])[..|s|] == s;
  }

  /** Every payment of an accepted block passed its scripts and paid its fee, on the map before it. */
  lemma BlockAuthorized(R: Rules, u: Utxos, block: Block, i: nat)
    requires Accepts(R, u, block) && 0 < i < |block.txs|
    ensures var w, tx, h := After(R, u, block.txs, block.header.height, i), block.txs[i], block.header.height;
            && AllPresent(w, tx.inputs) && R.wellFormed(tx) && R.outputsAdmissible(tx)
            && R.scriptsAccept(tx, Entries(w, tx.inputs), h)
            && SumEntries(Entries(w, tx.inputs)) >= SumOutputs(tx.outputs) + R.minFee(tx, Entries(w, tx.inputs), h)
  {
    hide SumOutputs, SumEntries, After, Applies, ValidateTx;
    AcceptsPrefix(R, u, block, i + 1);
    ValidTxIff(R, After(R, u, block.txs, block.header.height, i), block.txs[i], block.header.height);
  }

  // ---- Coinbase collision ----

  /** An output of the coinbase is already in the map. */
  ghost predicate Collides(R: Rules, u: Utxos, tx: Tx) {
    R.txId(tx).Some? && exists i :: 0 <= i < |tx.outputs| && OutPoint(R.txId(tx).value, i) in u
  }

  /** A coinbase applies exactly when it is serializable and none of its outputs is there already. */
  lemma CoinbaseApplies(R: Rules, u: Utxos, tx: Tx)
    requires Lawful(R) && IsCoinbase(tx)
    ensures Applies(R, u, tx) <==> R.txId(tx).Some? && !Collides(R, u, tx)
  {
    if R.txId(tx).Some? {
      assert OpSet([]) == {};
      assert u - OpSet(Consumed(tx)) == u;
      assert forall i | 0 <= i < |tx.outputs| :: Blocked(R, u, tx, i) <==> OutPoint(R.txId(tx).value, i) in u;
    }
  }

  /** The first outputs of the coinbase are gone from the map, one at least that was there before among them. */
  ghost predicate LosesOutputs(R: Rules, u: Utxos, w: Utxos, tx: Tx) {
    R.txId(tx).Some? && exists i, k :: 0 <= i < k <= |tx.outputs| && OutPoint(R.txId(tx).value, i) in u && w == u - OwnOps(R, tx, k)
  }

  /** A coinbase that collided has been stripped of outputs that were there before. */
  lemma CollisionLoses(R: Rules, u: Utxos, v: Utxos, w: Utxos, tx: Tx, height: nat)
    requires Lawful(R) && IsCoinbase(tx) && Collides(R, u, tx) && HalfApplied(R, u, v, tx, height)
    requires || w == (v - OwnOps(R, tx, |tx.outputs|)) + PrevMap([])
             || exists k :: 0 <= k < |tx.outputs| && OutPoint(R.txId(tx).value, k) !in v && w == v - OwnOps(R, tx, k)
    ensures LosesOutputs(R, u, w, tx) && w != u
  {
    hide PrevMap, Collides, Lawful, OwnOps, Stopped, LosesOutputs;
    var j := StoppedThere(R, u, v, tx, height);
    EmptyPrev();
    StillThere(R, u, v, tx, height, j);
    var n := |tx.outputs|;
    if w == (v - OwnOps(R, tx, n)) + PrevMap([]) {
      assert w == v - OwnOps(R, tx, n);
      Stripped(R, u, v, tx, height, j, n);
    } else {
      var k :| 0 <= k < n && OutPoint(R.txId(tx).value, k) !in v && w == v - OwnOps(R, tx, k);
      Stripped(R, u, v, tx, height, j, k);
    }
  }

  /** The application stopped at an output that was there. */
  lemma StoppedThere(R: Rules, u: Utxos, v: Utxos, tx: Tx, height: nat) returns (j: nat)
    requires Lawful(R) && IsCoinbase(tx) && Collides(R, u, tx) && HalfApplied(R, u, v, tx, height)
    ensures R.txId(tx).Some? && j < |tx.outputs| && OutPoint(R.txId(tx).value, j) in u && Stopped(R, u, v, tx, height, j)
  {
    hide Collides, Lawful, Stopped;
    assert OpSet([]) == {};
    assert u - OpSet(Consumed(tx)) == u;
    assert Spends(u, tx);
    CollidesId(R, u, tx);
    j :| 0 <= j < |tx.outputs| && Blocked(R, u, tx, j) && Stopped(R, u, v, tx, height, j);
  }

  lemma Stripped(R: Rules, u: Utxos, v: Utxos, tx: Tx, height: nat, j: nat, k: nat)
    requires R.txId(tx).Some? && j < k <= |tx.outputs| && IsCoinbase(tx) && Stopped(R, u, v, tx, height, j)
    requires OutPoint(R.txId(tx).value, j) in u && OutPoint(R.txId(tx).value, j) in OwnOps(R, tx, k)
    ensures LosesOutputs(R, u, v - OwnOps(R, tx, k), tx) && v - OwnOps(R, tx, k) != u
  {
    hide Stopped, OwnOps;
    StripBack(R, u, v, tx, height, j, k);
    assert OutPoint(R.txId(tx).value, j) !in u - OwnOps(R, tx, k);
  }

  lemma StripBack(R: Rules, u: Utxos, v: Utxos, tx: Tx, height: nat, j: nat, k: nat)
    requires R.txId(tx).Some? && j < k <= |tx.outputs| && IsCoinbase(tx) && Stopped(R, u, v, tx, height, j)
    ensures v - OwnOps(R, tx, k) == u - OwnOps(R, tx, k)
  {
    assert OpSet([]) == {};
    assert u - OpSet(Consumed(tx)) == u;
    var id := R.txId(tx).value;
    forall op | op in Created(id, tx.outputs[..j], height, true) ensures op in OwnOps(R, tx, k) {
      assert op == OutPoint(id, op.index);
    }
  }

  lemma CollidesId(R: Rules, u: Utxos, tx: Tx)
    requires Lawful(R) && Collides(R, u, tx)
    ensures R.txId(tx).Some? && forall i | 0 <= i < |tx.outputs| :: R.outputSize(tx.outputs[i]).Some?
  {
  }

  lemma EmptyPrev()
    ensures PrevMap([]) == map[]
  {
  }

  /** Up to the output that was blocked, every output is in the half-applied map. */
  lemma StillThere(R: Rules, u: Utxos, v: Utxos, tx: Tx, height: nat, j: nat)
    requires R.txId(tx).Some? && j < |tx.outputs| && IsCoinbase(tx)
    requires OutPoint(R.txId(tx).value, j) in u && Stopped(R, u, v, tx, height, j)
    ensures OutPoint(R.txId(tx).value, j) in u
    ensures forall i | 0 <= i <= j :: OutPoint(R.txId(tx).value, i) in v
    ensures forall k | j < k :: OutPoint(R.txId(tx).value, j) in OwnOps(R, tx, k)
  {
    assert OpSet([]) == {};
    assert u - OpSet(Consumed(tx)) == u;
    forall i | 0 <= i < j ensures OutPoint(R.txId(tx).value, i) in Created(R.txId(tx).value, tx.outputs[..j], height, true) {}
  }

  // ---- Outputs that are already there ----

  /** An output of the transaction is in the map, and not one of those it consumes. */
  ghost predicate Clashes(R: Rules, u: Utxos, tx: Tx) {
    R.txId(tx).Some? && exists i :: 0 <= i < |tx.outputs| && OutPoint(R.txId(tx).value, i) in u - OpSet(Consumed(tx))
  }

  /** With inputs that are there and distinct, a clash is the only reason not to apply. */
  lemma AppliesUnlessClash(R: Rules, u: Utxos, tx: Tx)
    requires Lawful(R) && R.txId(tx).Some? && AllPresent(u, Consumed(tx)) && Distinct(Consumed(tx))
    ensures Applies(R, u, tx) <==> !Clashes(R, u, tx)
  {
    hide LeafKeysInjective, IdInjective, OpSet;
    if Clashes(R, u, tx) {
      var i :| 0 <= i < |tx.outputs| && OutPoint(R.txId(tx).value, i) in u - OpSet(Consumed(tx));
      assert Blocked(R, u, tx, i);
    } else {
      forall i | 0 <= i < |tx.outputs| ensures !Blocked(R, u, tx, i) {
        assert OutPoint(R.txId(tx).value, i) !in u - OpSet(Consumed(tx));
      }
    }
  }

  lemma AppliesNoClash(R: Rules, u: Utxos, tx: Tx)
    requires Applies(R, u, tx)
    ensures !Clashes(R, u, tx)
  {
    hide OpSet;
    forall i | 0 <= i < |tx.outputs| ensures OutPoint(R.txId(tx).value, i) !in u - OpSet(Consumed(tx)) {
      assert !Blocked(R, u, tx, i);
    }
  }

  /** For a coinbase that is a collision. */
  lemma CoinbaseClash(R: Rules, u: Utxos, tx: Tx)
    requires IsCoinbase(tx)
    ensures Clashes(R, u, tx) <==> Collides(R, u, tx)
  {
    assert OpSet([]) == {};
    assert u - OpSet(Consumed(tx)) == u;
  }

  /** What a run leaves and no transaction of it can have created was there before and is consumed by none. */
  lemma {:induction false} StaysPut(R: Rules, u: Utxos, txs: seq<Tx>, height: nat, n: nat, op: OutPoint)
    requires n <= |txs| && Flows(R, u, txs, height, n) && op in After(R, u, txs, height, n)
    requires forall i | 0 <= i < n :: R.txId(txs[i]) != Some(op.txId)
    ensures op in u && forall i | 0 <= i < n :: op !in Consumed(txs[i])
    decreases n
  {
    hide Applies, Consumed, OpSet;
    if n > 0 {
      var w, tx := After(R, u, txs, height, n - 1), txs[n - 1];
      AppliesId(R, w, tx);
      assert op in w && op !in OpSet(Consumed(tx));
      StaysPut(R, u, txs, height, n - 1, op);
      NotConsumed(tx, op);
    }
  }

  lemma NotConsumed(tx: Tx, op: OutPoint)
    ensures op !in OpSet(Consumed(tx)) ==> op !in Consumed(tx)
  {
  }

  /** What a run notes as spent is consumed by one of its transactions. */
  lemma {:induction false} SpentFrom(R: Rules, u: Utxos, txs: seq<Tx>, height: nat, n: nat, op: OutPoint)
    requires n <= |txs| && forall i | 0 <= i < n :: op !in Consumed(txs[i])
    ensures forall j | 0 <= j < |SpentAfter(R, u, txs, height, n)| :: SpentAfter(R, u, txs, height, n)[j].0 != op
    decreases n
  {
    hide After, Consumed;
    if n > 0 {
      SpentFrom(R, u, txs, height, n - 1, op);
      SpentOfOps(After(R, u, txs, height, n - 1), txs[n - 1], op);
    }
  }

  lemma SpentOfOps(u: Utxos, tx: Tx, op: OutPoint)
    requires op !in Consumed(tx)
    ensures forall j | 0 <= j < |SpentOf(u, tx)| :: SpentOf(u, tx)[j].0 != op
  {
  }

  /** The output over which transaction `n` clashes was there before the block, and the block has not spent it. */
  lemma ClashWasThere(R: Rules, u: Utxos, txs: seq<Tx>, height: nat, n: nat) returns (op: OutPoint)
    requires n < |txs| && NoRepeats(R, txs) && Flows(R, u, txs, height, n) && Clashes(R, After(R, u, txs, height, n), txs[n])
    ensures op in u && op in OwnOps(R, txs[n], |txs[n].outputs|) && op !in Consumed(txs[n])
    ensures forall j | 0 <= j < |SpentAfter(R, u, txs, height, n)| :: SpentAfter(R, u, txs, height, n)[j].0 != op
  {
    hide Flows, After, SpentAfter, Consumed;
    var w, id := After(R, u, txs, height, n), R.txId(txs[n]).value;
    var i :| 0 <= i < |txs[n].outputs| && OutPoint(id, i) in w - OpSet(Consumed(txs[n]));
    op := OutPoint(id, i);
    StaysPut(R, u, txs, height, n, op);
    SpentFrom(R, u, txs, height, n, op);
    NotConsumed(txs[n], op);
  }

  /** The undo metadata of the first `n` transactions keeps its budget. */
  ghost predicate WithinBudget(R: Rules, u: Utxos, txs: seq<Tx>, height: nat, n: nat)
    requires n <= |txs|
  {
    SpentBytes(R, SpentAfter(R, u, txs, height, n)) <= MAX_SPENT_UTXOS_SIZE
  }

  /** The validating path gets so far as to apply transaction `k`, and an output of it is already there. */
  ghost predicate ClashAt(R: Rules, u: Utxos, txs: seq<Tx>, height: nat, k: nat)
    requires k < |txs|
  {
    Reached(R, u, txs, height, k) && WithinBudget(R, u, txs, height, k + 1) && Clashes(R, After(R, u, txs, height, k), txs[k])
  }

  ghost predicate BlockClashes(R: Rules, u: Utxos, txs: seq<Tx>, height: nat) {
    exists k :: 0 <= k < |txs| && ClashAt(R, u, txs, height, k)
  }

  /** A path that ends at transaction `n` clashes there or nowhere. */
  lemma ClashOnlyAt(R: Rules, u: Utxos, txs: seq<Tx>, height: nat, n: nat)
    requires n <= |txs| && Ran(R, u, txs, height, n)
    requires n == |txs| || !Ran(R, u, txs, height, n + 1) || !WithinBudget(R, u, txs, height, n + 1)
    ensures BlockClashes(R, u, txs, height) <==> n < |txs| && ClashAt(R, u, txs, height, n)
  {
    hide Ran, After, Clashes, ValidateTx, Flows, WithinBudget;
    forall k | 0 <= k < |txs| && k != n ensures !ClashAt(R, u, txs, height, k) {
      if k < n {
        RanFlows(R, u, txs, height, n);
        FlowsAt(R, u, txs, height, k, n);
        AppliesNoClash(R, After(R, u, txs, height, k), txs[k]);
      } else if Reached(R, u, txs, height, k) && WithinBudget(R, u, txs, height, k + 1) {
        RanPrefix(R, u, txs, height, n + 1, k);
        BudgetBelow(R, u, txs, height, n + 1, k + 1);
      }
    }
  }

  lemma BudgetBelow(R: Rules, u: Utxos, txs: seq<Tx>, height: nat, m: nat, n: nat)
    requires m <= n <= |txs| && WithinBudget(R, u, txs, height, n)
    ensures WithinBudget(R, u, txs, height, m)
  {
    SpentBytesGrow(R, u, txs, height, m, n);
  }

  // ---- Logs and spent lists of a whole run ----

  lemma LogAfterStep(R: Rules, u: Utxos, txs: seq<Tx>, height: nat, n: nat)
    requires n <= |txs| && Flows(R, u, txs, height, n)
    ensures n == 0 ==> LogAfter(R, u, txs, height, n) == []
    ensures n > 0 ==>
              var w, tx := After(R, u, txs, height, n - 1), txs[n - 1];
              && Flows(R, u, txs, height, n - 1) && R.txId(tx).Some? && Spends(w, tx)
              && LogAfter(R, u, txs, height, n) == LogAfter(R, u, txs, height, n - 1) + Log(R, w, tx, height)
  {
    hide Log, After;
  }

  lemma RunStart(R: Rules, u: Utxos, txs: seq<Tx>, height: nat)
    ensures After(R, u, txs, height, 0) == u && Forward(u, []) == u && Backward(u, []) == u
    ensures SpentAfter(R, u, txs, height, 0) == [] && CollectSpent([]) == []
  {
  }

  /** The log of a clean run replays forward to its result and backward to its start. */
  lemma {:induction false} RunReplays(R: Rules, u: Utxos, txs: seq<Tx>, height: nat, n: nat)
    requires n <= |txs| && Clean(R, u, txs, n) && Flows(R, u, txs, height, n)
    ensures Forward(u, LogAfter(R, u, txs, height, n)) == After(R, u, txs, height, n)
    ensures Backward(After(R, u, txs, height, n), LogAfter(R, u, txs, height, n)) == u
    decreases n
  {
    hide After, LogAfter, Flows, Applies, Applied, Log, Forward, Backward, Clean, Spends, Unowned;
    LogAfterStep(R, u, txs, height, n);
    RunStart(R, u, txs, height);
    if n > 0 {
      var w := After(R, u, txs, height, n - 1);
      CleanUpTo(R, u, txs, n - 1, n);
      RunReplays(R, u, txs, height, n - 1);
      FlowsAt(R, u, txs, height, n - 1, n);
      StillUnowned(R, u, txs, height, n - 1, n - 1);
      LogReplays(R, w, txs[n - 1], height);
      ForwardConcat(u, LogAfter(R, u, txs, height, n - 1), Log(R, w, txs[n - 1], height));
      BackwardConcat(After(R, u, txs, height, n), LogAfter(R, u, txs, height, n - 1), Log(R, w, txs[n - 1], height));
    }
  }

  /** The spent entries recorded in a mutation log. */
  function CollectSpent(log: seq<Mutation>): SpentList {
    if log == [] then []
    else
      var rest := CollectSpent(log[..|log| - 1]);
      match log[|log| - 1]
      case Remove(op, e) => rest + [(op, e)]
      case Insert(_, _) => rest
  }

  lemma {:induction false} CollectConcat(a: seq<Mutation>, b: seq<Mutation>)
    ensures CollectSpent(a + b) == CollectSpent(a) + CollectSpent(b)
    decreases |b|
  {
    if b == [] {
      assert a + b == a;
    } else {
      assert (a + b)[..|a + b| - 1] == a + b[..|b| - 1];
      CollectConcat(a, b[..|b| - 1]);
    }
  }

  lemma {:induction false} CollectRemoves(u: Utxos, ops: seq<OutPoint>)
    requires AllPresent(u, ops)
    ensures CollectSpent(RemoveLog(u, ops)) == seq(|ops|, i requires 0 <= i < |ops| => (ops[i], u[ops[i]]))
  {
    if ops != [] {
      CollectRemoves(u, ops[..|ops| - 1]);
      assert RemoveLog(u, ops)[..|ops| - 1] == RemoveLog(u, ops[..|ops| - 1]);
    }
  }

  lemma {:induction false} CollectInserts(log: seq<Mutation>)
    requires forall i | 0 <= i < |log| :: log[i].Insert?
    ensures CollectSpent(log) == []
  {
    if log != [] { CollectInserts(log[..|log| - 1]); }
  }

  lemma CollectLog(R: Rules, u: Utxos, tx: Tx, height: nat)
    requires R.txId(tx).Some? && AllPresent(u, Consumed(tx))
    ensures CollectSpent(Log(R, u, tx, height)) == SpentOf(u, tx)
  {
    hide CollectSpent;
    var removes, inserts := RemoveLog(u, Consumed(tx)), InsertLog(R.txId(tx).value, tx.outputs, height, IsCoinbase(tx));
    CollectConcat(removes, inserts);
    CollectRemoves(u, Consumed(tx));
    CollectInserts(inserts);
  }

  /** The spent list of a run is what its mutation log records as removed. */
  lemma {:induction false} SpentIsCollected(R: Rules, u: Utxos, txs: seq<Tx>, height: nat, n: nat)
    requires n <= |txs| && Flows(R, u, txs, height, n)
    ensures CollectSpent(LogAfter(R, u, txs, height, n)) == SpentAfter(R, u, txs, height, n)
    decreases n
  {
    hide After, LogAfter, Flows, CollectSpent, Log, SpentOf;
    LogAfterStep(R, u, txs, height, n);
    RunStart(R, u, txs, height);
    if n > 0 {
      var w, tx := After(R, u, txs, height, n - 1), txs[n - 1];
      SpentIsCollected(R, u, txs, height, n - 1);
      CollectConcat(LogAfter(R, u, txs, height, n - 1), Log(R, w, tx, height));
      CollectLog(R, w, tx, height);
    }
  }

  // ---- The trusted path ----

  /** The first `n` transactions pass the structural checks of the trusted path. */
  ghost predicate Trusted(R: Rules, u: Utxos, txs: seq<Tx>, height: nat, n: nat)
    requires n <= |txs|
  {
    n == 0 ||
    (&& Trusted(R, u, txs, height, n - 1)
     && Applies(R, After(R, u, txs, height, n - 1), txs[n - 1])
     && (n == 1 || Affordable(After(R, u, txs, height, n - 1), txs[n - 1])))
  }

  /** All inputs exist and cover the outputs. */
  ghost predicate Affordable(u: Utxos, tx: Tx) {
    AllPresent(u, tx.inputs) && SumEntries(Entries(u, tx.inputs)) >= SumOutputs(tx.outputs)
  }

  ghost function TrustedFees(R: Rules, u: Utxos, txs: seq<Tx>, height: nat, n: nat): nat
    requires n <= |txs| && Trusted(R, u, txs, height, n)
  {
    if n <= 1 then 0
    else
      var w, tx := After(R, u, txs, height, n - 1), txs[n - 1];
      TrustedFees(R, u, txs, height, n - 1) + (SumEntries(Entries(w, tx.inputs)) - SumOutputs(tx.outputs))
  }

  /** The trusted path gets so far as to apply transaction `k`, and an output of it is already there. */
  ghost predicate TrustedClashAt(R: Rules, u: Utxos, txs: seq<Tx>, height: nat, k: nat)
    requires k < |txs|
  {
    && Trusted(R, u, txs, height, k) && (k == 0 || Affordable(After(R, u, txs, height, k), txs[k]))
    && WithinBudget(R, u, txs, height, k + 1) && Clashes(R, After(R, u, txs, height, k), txs[k])
  }

  ghost predicate TrustedClashes(R: Rules, u: Utxos, txs: seq<Tx>, height: nat) {
    exists k :: 0 <= k < |txs| && TrustedClashAt(R, u, txs, height, k)
  }

  lemma {:induction false} TrustedFlows(R: Rules, u: Utxos, txs: seq<Tx>, height: nat, n: nat)
    requires n <= |txs| && Trusted(R, u, txs, height, n)
    ensures Flows(R, u, txs, height, n)
    decreases n
  {
    hide After, Applies, Affordable;
    if n > 0 { TrustedFlows(R, u, txs, height, n - 1); }
  }

  lemma {:induction false} TrustedUpTo(R: Rules, u: Utxos, txs: seq<Tx>, height: nat, i: nat, n: nat)
    requires i <= n <= |txs| && Trusted(R, u, txs, height, n)
    ensures Trusted(R, u, txs, height, i)
    decreases n
  {
    hide After, Applies, Affordable;
    if i < n { TrustedUpTo(R, u, txs, height, i, n - 1); }
  }

  /** A path that ends at transaction `n` clashes there or nowhere. */
  lemma TrustedClashOnlyAt(R: Rules, u: Utxos, txs: seq<Tx>, height: nat, n: nat)
    requires n <= |txs| && Trusted(R, u, txs, height, n)
    requires n == |txs| || !Trusted(R, u, txs, height, n + 1) || !WithinBudget(R, u, txs, height, n + 1)
    ensures TrustedClashes(R, u, txs, height) <==> n < |txs| && TrustedClashAt(R, u, txs, height, n)
  {
    hide Trusted, After, Clashes, Affordable, Flows, WithinBudget;
    forall k | 0 <= k < |txs| && k != n ensures !TrustedClashAt(R, u, txs, height, k) {
      if k < n {
        TrustedFlows(R, u, txs, height, n);
        FlowsAt(R, u, txs, height, k, n);
        AppliesNoClash(R, After(R, u, txs, height, k), txs[k]);
      } else if Trusted(R, u, txs, height, k) && WithinBudget(R, u, txs, height, k + 1) {
        TrustedUpTo(R, u, txs, height, n + 1, k);
        BudgetBelow(R, u, txs, height, n + 1, k + 1);
      }
    }
  }

  ghost predicate TrustedAccepts(R: Rules, u: Utxos, block: Block) {
    var n, h := |block.txs|, block.header.height;
    && n > 0 && Trusted(R, u, block.txs, h, n)
    && SpentBytes(R, SpentAfter(R, u, block.txs, h, n)) <= MAX_SPENT_UTXOS_SIZE
    && TrustedFees(R, u, block.txs, h, n) <= U64_MAX
  }

  lemma {:induction false} RanTrusted(R: Rules, u: Utxos, txs: seq<Tx>, height: nat, n: nat)
    requires n <= |txs| && Ran(R, u, txs, height, n)
    ensures Trusted(R, u, txs, height, n) && TrustedFees(R, u, txs, height, n) == FeesAfter(R, u, txs, height, n)
    decreases n
  {
    hide After, Applies, ValidateTx, SumEntries, SumOutputs, Distinct;
    if n > 0 {
      RanTrusted(R, u, txs, height, n - 1);
      if n > 1 {
        ValidTxFacts(R, After(R, u, txs, height, n - 1), txs[n - 1], height);
      }
    }
  }

  /** Every block that the validating path accepts, the trusted path accepts with the same fees. */
  lemma AcceptedIsTrusted(R: Rules, u: Utxos, block: Block)
    requires Accepts(R, u, block)
    ensures TrustedAccepts(R, u, block)
    ensures TrustedFees(R, u, block.txs, block.header.height, |block.txs|) == FeesAfter(R, u, block.txs, block.header.height, |block.txs|)
  {
    RanTrusted(R, u, block.txs, block.header.height, |block.txs|);
  }

  lemma {:induction false} TrustedRunIff(R: Rules, u: Utxos, txs: seq<Tx>, height: nat, n: nat)
    requires n <= |txs|
    ensures Trusted(R, u, txs, height, n) <==>
              forall i | 0 <= i < n ::
                && Applies(R, After(R, u, txs, height, i), txs[i])
                && (i > 0 ==> Affordable(After(R, u, txs, height, i), txs[i]))
    decreases n
  {
    hide After, Applies, Affordable;
    if n > 0 { TrustedRunIff(R, u, txs, height, n - 1); }
  }

  /**
   The trusted path accepts a block if and only if each of its transactions applies on the map before it, each payment
   finds its inputs there with no less value than it pays out, and undo budget and fees keep their limits.
   */
  lemma TrustedAcceptsIff(R: Rules, u: Utxos, block: Block)
    requires block.txs != []
    ensures TrustedAccepts(R, u, block) <==>
              var txs, h, n := block.txs, block.header.height, |block.txs|;
              && Trusted(R, u, txs, h, n)
              && (forall i | 0 <= i < n :: Applies(R, After(R, u, txs, h, i), txs[i]))
              && (forall i | 0 < i < n ::
                    var w := After(R, u, txs, h, i);
                    AllPresent(w, txs[i].inputs) && SumEntries(Entries(w, txs[i].inputs)) >= SumOutputs(txs[i].outputs))
              && SpentBytes(R, SpentAfter(R, u, txs, h, n)) <= 16_777_216
              && TrustedFees(R, u, txs, h, n) <= U64_MAX
  {
    hide Trusted, After, Applies, SpentBytes, SpentAfter, TrustedFees, SumOutputs, SumEntries;
    TrustedRunIff(R, u, block.txs, block.header.height, |block.txs|);
  }
}
