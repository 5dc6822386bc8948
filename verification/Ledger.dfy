/**
 Transactions, blocks and the UTXO map as values, with the effect of one transaction on the map.

 Hashing, serialization, script evaluation and the fee schedule are functions in `Rules`; what the
 proofs need to know of them is stated in the predicates below it.
 */
module Ledger {
  import opened SmtSpec
  import opened WorkSpec

  const U64_MAX: nat := 0xFFFF_FFFF_FFFF_FFFF
  const U32_MAX: nat := 0xFFFF_FFFF
  const DUST_THRESHOLD: nat := 200
  const COINBASE_MATURITY: nat := 360
  const MAX_SPENT_UTXOS_SIZE: nat := 16_777_216

  type U64 = n: nat | n <= U64_MAX
  type Byte = n: nat | n < 256
  type Bytes = seq<Byte>

  datatype Option<+T> = None | Some(value: T)
  datatype Result<+T, +E> = Ok(value: T) | Err(error: E)

  datatype OutPoint = OutPoint(txId: Hash256, index: nat)
  datatype TxOutput = TxOutput(value: U64, script: Bytes, datum: Bytes)
  datatype Tx = Tx(inputs: seq<OutPoint>, outputs: seq<TxOutput>, witnesses: Bytes)
  datatype UtxoEntry = UtxoEntry(output: TxOutput, height: nat, isCoinbase: bool)
  datatype Mutation = Insert(op: OutPoint, entry: UtxoEntry) | Remove(op: OutPoint, entry: UtxoEntry)

  /** `seal` stands for the version and the nonce. */
  datatype Header = Header(
    height: U64, prevId: Hash256, timestamp: U64, target: U256, txRoot: Hash256, stateRoot: Hash256, seal: Bytes)
  datatype Block = Block(header: Header, txs: seq<Tx>)

  type Utxos = map<OutPoint, UtxoEntry>
  type SpentList = seq<(OutPoint, UtxoEntry)>

  predicate IsCoinbase(tx: Tx) {
    |tx.inputs| == 1 && tx.inputs[0].txId == ZERO
  }

  /** The parts of the node that stay uninterpreted. */
  datatype Rules = Rules(
    txId: Tx -> Option<Hash256>,                    // None: a field is too large to serialize
    outputSize: TxOutput -> Option<nat>,            // serialized length of an output
    leafKey: OutPoint -> Key,
    leafValue: UtxoEntry -> Hash256,
    hash2: Combine,
    fits: Tx -> bool,                               // serializes, within MAX_TX_SIZE
    wellFormed: Tx -> bool,                         // witness count and field size limits
    datumMatches: TxOutput -> bool,                 // an inline datum has the hash given beside it
    outputsAdmissible: Tx -> bool,                  // output scripts are well typed and unambiguous
    scriptsAccept: (Tx, seq<UtxoEntry>, nat) -> bool, // signatures, scripts and the script budget
    minFee: (Tx, seq<UtxoEntry>, nat) -> nat,
    coinbaseForm: (Tx, nat) -> bool,                // witness and datum rules of a coinbase
    reward: nat -> U64,
    blockId: Header -> Hash256,
    version: Header -> bool,                        // the protocol version is the supported one
    pow: Header -> bool,                            // the proof of work meets the target
    txRoot: seq<Tx> -> Option<Hash256>,             // Merkle root over witness-committed hashes
    blockSize: Block -> Option<nat>                 // serialized length of a block
  )

  /**
   A transaction id covers the serialized outputs, so it exists only if each of them serializes; and it
   exists for every transaction within the size limits, whose full serialization was computed.
   */
  ghost predicate IdCoversOutputs(R: Rules) {
    && (forall tx, i | R.txId(tx).Some? && 0 <= i < |tx.outputs| :: R.outputSize(tx.outputs[i]).Some?)
    && (forall tx | R.fits(tx) :: R.txId(tx).Some?)
  }

  /** The id is a hash of inputs and outputs, taken to be collision free and never zero. */
  ghost predicate IdInjective(R: Rules) {
    && (forall a: Tx, b: Tx | R.txId(a).Some? && R.txId(a) == R.txId(b) :: a.inputs == b.inputs && a.outputs == b.outputs)
    && (forall a: Tx, b: Tx | a.inputs == b.inputs && a.outputs == b.outputs :: R.txId(a) == R.txId(b))
    && (forall a :: R.txId(a) != Some(ZERO))
  }

  /** Some transaction has this outpoint as an output. */
  ghost predicate Known(R: Rules, op: OutPoint) {
    exists tx :: R.txId(tx) == Some(op.txId) && op.index < |tx.outputs|
  }

  /** Leaf keys are hashes too: distinct on the outpoints of transactions. */
  ghost predicate LeafKeysInjective(R: Rules) {
    forall a, b | Known(R, a) && Known(R, b) && R.leafKey(a) == R.leafKey(b) :: a == b
  }

  ghost predicate Lawful(R: Rules) {
    IdCoversOutputs(R) && IdInjective(R) && LeafKeysInjective(R)
  }

  /** Every transaction has an id and no two share one. */
  ghost predicate NoRepeats(R: Rules, txs: seq<Tx>) {
    && (forall i | 0 <= i < |txs| :: R.txId(txs[i]).Some?)
    && (forall i, j | 0 <= i < j < |txs| :: R.txId(txs[i]) != R.txId(txs[j]))
  }

  /**
   Block ids are collision-free hashes of headers and never zero. The transaction root is collision free
   on lists without repetition; on others it is not, because an odd level repeats its last element.
   */
  ghost predicate LawfulBlocks(R: Rules) {
    && (forall a: Header, b: Header | R.blockId(a) == R.blockId(b) :: a == b)
    && (forall a: Header :: R.blockId(a) != ZERO)
    && (forall a, b | R.txRoot(a).Some? && R.txRoot(a) == R.txRoot(b) && NoRepeats(R, a) && NoRepeats(R, b) :: a == b)
    && (forall b: Block | forall tx | tx in b.txs :: R.fits(tx) :: R.blockSize(b).Some? && R.txRoot(b.txs).Some?)
  }

  /** What is left of `a` after `b` is taken away, and nothing if that is too much. */
  function SatSub(a: nat, b: nat): (r: nat)
    ensures b <= a ==> r + b == a
    ensures a < b ==> r == 0
  {
    if a < b then 0 else a - b
  }

  // ---- Sums ----

  function SumOutputs(outs: seq<TxOutput>): nat {
    if outs == [] then 0 else SumOutputs(outs[..|outs| - 1]) + outs[|outs| - 1].value
  }

  function SumEntries(es: seq<UtxoEntry>): nat {
    if es == [] then 0 else SumEntries(es[..|es| - 1]) + es[|es| - 1].output.value
  }

  /** They are sums: nothing over nothing, one value over one, and additive. */
  lemma {:induction false} SumOutputsConcat(a: seq<TxOutput>, b: seq<TxOutput>)
    ensures SumOutputs(a + b) == SumOutputs(a) + SumOutputs(b)
    ensures |b| == 1 ==> SumOutputs(b) == b[0].value
    decreases |b|
  {
    if b == [] {
      assert a + b == a;
    } else {
      assert (a + b)[..|a + b| - 1] == a + b[..|b| - 1];
      SumOutputsConcat(a, b[..|b| - 1]);
      assert |b| == 1 ==> b[..|b| - 1] == [];
    }
  }

  lemma {:induction false} SumEntriesConcat(a: seq<UtxoEntry>, b: seq<UtxoEntry>)
    ensures SumEntries(a + b) == SumEntries(a) + SumEntries(b)
    ensures |b| == 1 ==> SumEntries(b) == b[0].output.value
    decreases |b|
  {
    if b == [] {
      assert a + b == a;
    } else {
      assert (a + b)[..|a + b| - 1] == a + b[..|b| - 1];
      SumEntriesConcat(a, b[..|b| - 1]);
      assert |b| == 1 ==> b[..|b| - 1] == [];
    }
  }

  // ---- Effect of a transaction ----

  predicate AllPresent(u: Utxos, ops: seq<OutPoint>) {
    forall i | 0 <= i < |ops| :: ops[i] in u
  }

  predicate Distinct<T(==)>(s: seq<T>) {
    forall i, j | 0 <= i < j < |s| :: s[i] != s[j]
  }

  function Entries(u: Utxos, ops: seq<OutPoint>): (es: seq<UtxoEntry>)
    requires AllPresent(u, ops)
    ensures |es| == |ops| && forall i | 0 <= i < |ops| :: es[i] == u[ops[i]]
  {
    seq(|ops|, i requires 0 <= i < |ops| => u[ops[i]])
  }

  ghost function OpSet(ops: seq<OutPoint>): set<OutPoint> {
    set i | 0 <= i < |ops| :: ops[i]
  }

  /** The entries that a transaction's outputs become. */
  ghost function Created(id: Hash256, outs: seq<TxOutput>, height: nat, coinbase: bool): (m: Utxos)
    ensures forall op :: op in m <==> op.txId == id && op.index < |outs|
    ensures forall op | op in m :: m[op] == UtxoEntry(outs[op.index], height, coinbase)
  {
    var ops := set i | 0 <= i < |outs| :: OutPoint(id, i);
    assert forall i | 0 <= i < |outs| :: OutPoint(id, i) in ops;
    map op | op in ops :: UtxoEntry(outs[op.index], height, coinbase)
  }

  /** Inputs that the transaction really consumes: a coinbase's sentinel is none. */
  function Consumed(tx: Tx): seq<OutPoint> {
    if IsCoinbase(tx) then [] else tx.inputs
  }

  ghost predicate Spends(u: Utxos, tx: Tx) {
    AllPresent(u, Consumed(tx)) && Distinct(Consumed(tx))
  }

  /** The id owns no entry of the map. */
  ghost predicate Unowned(u: Utxos, id: Hash256) {
    forall op | op in u :: op.txId != id
  }

  ghost function Applied(R: Rules, u: Utxos, tx: Tx, height: nat): Utxos
    requires R.txId(tx).Some?
  {
    (u - OpSet(Consumed(tx))) + Created(R.txId(tx).value, tx.outputs, height, IsCoinbase(tx))
  }

  /** Pointwise: a payment's inputs go, its outputs come at its height, and everything else stays. */
  lemma AppliedMeans(R: Rules, u: Utxos, tx: Tx, height: nat, op: OutPoint)
    requires R.txId(tx).Some?
    ensures var w, id := Applied(R, u, tx, height), R.txId(tx).value;
            if op.txId == id && op.index < |tx.outputs| then
              op in w && w[op] == UtxoEntry(tx.outputs[op.index], height, |tx.inputs| == 1 && tx.inputs[0].txId == ZERO)
            else if op in tx.inputs && !IsCoinbase(tx) then op !in w
            else (op in w <==> op in u) && (op in u ==> w[op] == u[op])
  {
    assert op in OpSet(Consumed(tx)) <==> op in Consumed(tx);
  }

  /** The log of a transaction: a removal for every consumed input, then an insertion for every output. */
  ghost function Log(R: Rules, u: Utxos, tx: Tx, height: nat): seq<Mutation>
    requires R.txId(tx).Some? && AllPresent(u, Consumed(tx))
  {
    RemoveLog(u, Consumed(tx)) + InsertLog(R.txId(tx).value, tx.outputs, height, IsCoinbase(tx))
  }

  ghost function RemoveLog(u: Utxos, ops: seq<OutPoint>): seq<Mutation>
    requires AllPresent(u, ops)
  {
    seq(|ops|, i requires 0 <= i < |ops| => Remove(ops[i], u[ops[i]]))
  }

  ghost function InsertLog(id: Hash256, outs: seq<TxOutput>, height: nat, coinbase: bool): seq<Mutation> {
    seq(|outs|, i requires 0 <= i < |outs| => Insert(OutPoint(id, i), UtxoEntry(outs[i], height, coinbase)))
  }

  /** Replay one mutation forward; the old value of an inserted key and a missing key are overwritten silently. */
  function Do(u: Utxos, m: Mutation): Utxos {
    match m
    case Insert(op, e) => u[op := e]
    case Remove(op, _) => u - {op}
  }

  function Undo(u: Utxos, m: Mutation): Utxos {
    match m
    case Insert(op, _) => u - {op}
    case Remove(op, e) => u[op := e]
  }

  function Forward(u: Utxos, log: seq<Mutation>): Utxos {
    if log == [] then u else Do(Forward(u, log[..|log| - 1]), log[|log| - 1])
  }

  function Backward(u: Utxos, log: seq<Mutation>): Utxos
    decreases |log|
  {
    if log == [] then u else Backward(Undo(u, log[|log| - 1]), log[..|log| - 1])
  }

  lemma {:induction false} ForwardConcat(u: Utxos, a: seq<Mutation>, b: seq<Mutation>)
    ensures Forward(u, a + b) == Forward(Forward(u, a), b)
  {
    if b == [] {
      assert a + b == a;
    } else {
      assert (a + b)[..|a + b| - 1] == a + b[..|b| - 1];
      ForwardConcat(u, a, b[..|b| - 1]);
    }
  }

  lemma {:induction false} BackwardConcat(u: Utxos, a: seq<Mutation>, b: seq<Mutation>)
    ensures Backward(u, a + b) == Backward(Backward(u, b), a)
    decreases |b|
  {
    if b == [] {
      assert a + b == a;
    } else {
      assert (a + b)[..|a + b| - 1] == a + b[..|b| - 1];
      BackwardConcat(Undo(u, b[|b| - 1]), a, b[..|b| - 1]);
    }
  }

  lemma LogEnds(u: Utxos, log: seq<Mutation>, m: Mutation)
    ensures Forward(u, log + [m]) == Do(Forward(u, log), m) && Backward(u, log + [m]) == Backward(Undo(u, m), log)
    ensures Forward(u, []) == u && Backward(u, []) == u
  {
    assert (log + [m])[..|log|] == log;
  }

  lemma RemoveLogSnoc(u: Utxos, ops: seq<OutPoint>)
    requires AllPresent(u, ops)
    ensures ops == [] ==> RemoveLog(u, ops) == []
    ensures ops != [] ==> var n := |ops| - 1; RemoveLog(u, ops) == RemoveLog(u, ops[..n]) + [Remove(ops[n], u[ops[n]])]
  {
  }

  lemma InsertLogSnoc(id: Hash256, outs: seq<TxOutput>, height: nat, coinbase: bool)
    ensures outs == [] ==> InsertLog(id, outs, height, coinbase) == [] && Created(id, outs, height, coinbase) == map[]
    ensures outs != [] ==>
              var n := |outs| - 1;
              && InsertLog(id, outs, height, coinbase)
                   == InsertLog(id, outs[..n], height, coinbase) + [Insert(OutPoint(id, n), UtxoEntry(outs[n], height, coinbase))]
              && Created(id, outs, height, coinbase)
                   == Created(id, outs[..n], height, coinbase)[OutPoint(id, n) := UtxoEntry(outs[n], height, coinbase)]
  {
    if outs == [] {
      assert Created(id, outs, height, coinbase).Keys == {};
    }
  }

  lemma MapAlgebra(u: Utxos, m: Utxos, k: OutPoint, e: UtxoEntry, a: set<OutPoint>)
    ensures u + m[k := e] == (u + m)[k := e] && u + map[] == u
    ensures (u - {k}) - m.Keys == u - m[k := e].Keys && u - {} == u
    ensures (u - a) - {k} == u - (a + {k})
  {
  }

  lemma {:induction false} RemoveLogForward(u: Utxos, ops: seq<OutPoint>)
    requires AllPresent(u, ops)
    ensures Forward(u, RemoveLog(u, ops)) == u - OpSet(ops)
  {
    RemoveLogSnoc(u, ops);
    if ops == [] {
      assert OpSet(ops) == {};
      MapAlgebra(u, u, OutPoint(ZERO, 0), UtxoEntry(TxOutput(0, [], []), 0, false), {});
    } else {
      hide Forward, RemoveLog, OpSet;
      var n := |ops| - 1;
      RemoveLogForward(u, ops[..n]);
      LogEnds(u, RemoveLog(u, ops[..n]), Remove(ops[n], u[ops[n]]));
      OpSetSnoc(ops);
      MapAlgebra(u, u, ops[n], u[ops[n]], OpSet(ops[..n]));
    }
  }

  lemma OpSetSnoc(ops: seq<OutPoint>)
    requires ops != []
    ensures OpSet(ops) == OpSet(ops[..|ops| - 1]) + {ops[|ops| - 1]}
  {
    assert ops == ops[..|ops| - 1] + [ops[|ops| - 1]];
    forall op ensures op in OpSet(ops) <==> op in OpSet(ops[..|ops| - 1]) + {ops[|ops| - 1]} {
      if op in OpSet(ops[..|ops| - 1]) {
        var i :| 0 <= i < |ops| - 1 && ops[..|ops| - 1][i] == op;
        assert ops[i] == op;
      }
      if op in OpSet(ops) && op != ops[|ops| - 1] {
        var i :| 0 <= i < |ops| && ops[i] == op;
        assert ops[..|ops| - 1][i] == op;
      }
    }
  }

  lemma {:induction false} InsertLogForward(u: Utxos, id: Hash256, outs: seq<TxOutput>, height: nat, coinbase: bool)
    ensures Forward(u, InsertLog(id, outs, height, coinbase)) == u + Created(id, outs, height, coinbase)
  {
    hide Forward, InsertLog, Created;
    InsertLogSnoc(id, outs, height, coinbase);
    LogEnds(u, [], Insert(OutPoint(id, 0), UtxoEntry(TxOutput(0, [], []), 0, false)));
    if outs == [] {
      MapAlgebra(u, map[], OutPoint(id, 0), UtxoEntry(TxOutput(0, [], []), 0, false), {});
    } else {
      var n := |outs| - 1;
      var log, m, e := InsertLog(id, outs[..n], height, coinbase), Created(id, outs[..n], height, coinbase), UtxoEntry(outs[n], height, coinbase);
      InsertLogForward(u, id, outs[..n], height, coinbase);
      LogEnds(u, log, Insert(OutPoint(id, n), e));
      MapAlgebra(u, m, OutPoint(id, n), e, {});
    }
  }

  lemma {:induction false} InsertLogBackward(u: Utxos, id: Hash256, outs: seq<TxOutput>, height: nat, coinbase: bool)
    ensures Backward(u, InsertLog(id, outs, height, coinbase)) == u - Created(id, outs, height, coinbase).Keys
    decreases |outs|
  {
    hide Backward, InsertLog, Created;
    InsertLogSnoc(id, outs, height, coinbase);
    LogEnds(u, [], Insert(OutPoint(id, 0), UtxoEntry(TxOutput(0, [], []), 0, false)));
    if outs == [] {
      MapAlgebra(u, map[], OutPoint(id, 0), UtxoEntry(TxOutput(0, [], []), 0, false), {});
    } else {
      var n := |outs| - 1;
      var log, m, e := InsertLog(id, outs[..n], height, coinbase), Created(id, outs[..n], height, coinbase), UtxoEntry(outs[n], height, coinbase);
      LogEnds(u, log, Insert(OutPoint(id, n), e));
      InsertLogBackward(u - {OutPoint(id, n)}, id, outs[..n], height, coinbase);
      MapAlgebra(u, m, OutPoint(id, n), e, {});
    }
  }

  ghost function Restore(u: Utxos, ops: seq<OutPoint>): Utxos
    requires AllPresent(u, ops)
  {
    map op | op in OpSet(ops) :: u[op]
  }

  lemma {:induction false} RemoveLogBackward(u: Utxos, w: Utxos, ops: seq<OutPoint>)
    requires AllPresent(u, ops)
    ensures Backward(w, RemoveLog(u, ops)) == w + Restore(u, ops)
    decreases |ops|
  {
    RemoveLogSnoc(u, ops);
    if ops == [] {
      assert Restore(u, ops) == map[];
      MapAlgebra(w, map[], OutPoint(ZERO, 0), UtxoEntry(TxOutput(0, [], []), 0, false), {});
    } else {
      hide Backward, RemoveLog;
      var n := |ops| - 1;
      var op, e := ops[n], u[ops[n]];
      LogEnds(w, RemoveLog(u, ops[..n]), Remove(op, e));
      RemoveLogBackward(u, w[op := e], ops[..n]);
      RestoreSnoc(u, w, ops);
    }
  }

  lemma RestoreSnoc(u: Utxos, w: Utxos, ops: seq<OutPoint>)
    requires ops != [] && AllPresent(u, ops)
    ensures var n := |ops| - 1; w[ops[n] := u[ops[n]]] + Restore(u, ops[..n]) == w + Restore(u, ops)
  {
    OpSetSnoc(ops);
    hide OpSet;
  }

  /** Taking a transaction's outputs away and giving its inputs back. */
  lemma AppliedParts(R: Rules, u: Utxos, tx: Tx, height: nat)
    requires R.txId(tx).Some? && Spends(u, tx) && Unowned(u, R.txId(tx).value)
    ensures Applied(R, u, tx, height) - Created(R.txId(tx).value, tx.outputs, height, IsCoinbase(tx)).Keys == u - OpSet(Consumed(tx))
    ensures (u - OpSet(Consumed(tx))) + Restore(u, Consumed(tx)) == u
  {
    assert OpSet(Consumed(tx)) <= u.Keys;
    hide OpSet;
  }

  /** A transaction's log replays forward to its effect, and backward to the state before it. */
  lemma LogReplays(R: Rules, u: Utxos, tx: Tx, height: nat)
    requires R.txId(tx).Some? && Spends(u, tx) && Unowned(u, R.txId(tx).value)
    ensures Forward(u, Log(R, u, tx, height)) == Applied(R, u, tx, height)
    ensures Backward(Applied(R, u, tx, height), Log(R, u, tx, height)) == u
  {
    hide Forward, Backward, RemoveLog, InsertLog, Created, OpSet, Restore, Unowned;
    var id, ops := R.txId(tx).value, Consumed(tx);
    var rl, il := RemoveLog(u, ops), InsertLog(id, tx.outputs, height, IsCoinbase(tx));
    ForwardConcat(u, rl, il);
    RemoveLogForward(u, ops);
    InsertLogForward(u - OpSet(ops), id, tx.outputs, height, IsCoinbase(tx));
    var w := Applied(R, u, tx, height);
    BackwardConcat(w, rl, il);
    InsertLogBackward(w, id, tx.outputs, height, IsCoinbase(tx));
    RemoveLogBackward(u, w - Created(id, tx.outputs, height, IsCoinbase(tx)).Keys, ops);
    AppliedParts(R, u, tx, height);
  }
}
