/**
 The UTXO set: the map of unspent outputs together with the two structures derived from it, the
 script index and the sparse Merkle tree behind the state root.
 */
module UtxoState {
  import opened SmtSpec
  import opened SmtArena
  import opened Ledger

  datatype StateError =
    | InputNotFound(op: OutPoint)
    | OutputNotFound(op: OutPoint)
    | DuplicateRestore(op: OutPoint)
    | DuplicateOutpoint(op: OutPoint)
    | Serialization
    | IncompleteUndo(expected: nat, got: nat)

  type ScriptIndex = map<Bytes, set<OutPoint>>

  ghost function OpsOf(u: Utxos, script: Bytes): set<OutPoint> {
    set op | op in u && u[op].output.script == script
  }

  /** The index lists exactly the outpoints of every script in use, and no other script. */
  ghost predicate Indexed(u: Utxos, idx: ScriptIndex) {
    forall s :: (s in idx <==> OpsOf(u, s) != {}) && (s in idx ==> idx[s] == OpsOf(u, s))
  }

  lemma IndexUnique(u: Utxos, a: ScriptIndex, b: ScriptIndex)
    requires Indexed(u, a) && Indexed(u, b)
    ensures a == b
  {
    forall s ensures s in a <==> s in b {
      assert s in a <==> OpsOf(u, s) != {};
    }
  }

  lemma IndexInsert(u: Utxos, idx: ScriptIndex, op: OutPoint, e: UtxoEntry)
    requires Indexed(u, idx) && op !in u
    ensures var s := e.output.script;
            Indexed(u[op := e], idx[s := (if s in idx then idx[s] else {}) + {op}])
  {
    var s := e.output.script;
    forall x ensures OpsOf(u[op := e], x) == if x == s then OpsOf(u, x) + {op} else OpsOf(u, x) {
    }
  }

  lemma IndexRemove(u: Utxos, idx: ScriptIndex, op: OutPoint)
    requires Indexed(u, idx) && op in u
    ensures var s := u[op].output.script;
            && s in idx
            && Indexed(u - {op}, if idx[s] - {op} == {} then idx - {s} else idx[s := idx[s] - {op}])
  {
    var s := u[op].output.script;
    assert op in OpsOf(u, s);
    forall x ensures OpsOf(u - {op}, x) == if x == s then OpsOf(u, x) - {op} else OpsOf(u, x) {
    }
  }

  ghost function LeafKeys(R: Rules, u: Utxos): set<Key> {
    set op | op in u :: R.leafKey(op)
  }

  /** The leaves of the state tree for a UTXO map. */
  ghost function LeafMap(R: Rules, u: Utxos): Leaves {
    map k | k in LeafKeys(R, u) :: var op :| op in u && R.leafKey(op) == k; R.leafValue(u[op])
  }

  ghost function StateRoot(R: Rules, u: Utxos): Hash256 {
    NaiveRoot(R.hash2, LeafMap(R, u), 0)
  }

  lemma LawfulKeys(R: Rules)
    requires Lawful(R)
    ensures LeafKeysInjective(R)
  {
  }

  lemma LeafMapAt(R: Rules, u: Utxos, op: OutPoint)
    requires LeafKeysInjective(R) && Sane(R, u) && op in u
    ensures R.leafKey(op) in LeafMap(R, u) && LeafMap(R, u)[R.leafKey(op)] == R.leafValue(u[op])
  {
    assert R.leafKey(op) in LeafKeys(R, u);
  }

  lemma LeafInsert(R: Rules, u: Utxos, op: OutPoint, e: UtxoEntry)
    requires LeafKeysInjective(R) && Sane(R, u) && Known(R, op) && R.outputSize(e.output).Some?
    ensures LeafMap(R, u[op := e]) == LeafMap(R, u)[R.leafKey(op) := R.leafValue(e)]
  {
    var u1 := u[op := e];
    assert LeafKeys(R, u1) == LeafKeys(R, u) + {R.leafKey(op)} by {
      forall x | x in u ensures R.leafKey(x) in LeafKeys(R, u1) { assert x in u1; }
      assert op in u1;
    }
    forall k | k in LeafMap(R, u1)
      ensures LeafMap(R, u1)[k] == LeafMap(R, u)[R.leafKey(op) := R.leafValue(e)][k]
    {
      var x :| x in u1 && R.leafKey(x) == k;
      LeafMapAt(R, u1, x);
      if x != op { LeafMapAt(R, u, x); }
    }
  }

  lemma LeafRemove(R: Rules, u: Utxos, op: OutPoint)
    requires LeafKeysInjective(R) && Sane(R, u) && op in u
    ensures LeafMap(R, u - {op}) == LeafMap(R, u) - {R.leafKey(op)}
  {
    var u1 := u - {op};
    assert LeafKeys(R, u1) == LeafKeys(R, u) - {R.leafKey(op)} by {
      forall x | x in u && x != op ensures R.leafKey(x) in LeafKeys(R, u1) { assert x in u1; }
    }
    forall k | k in LeafMap(R, u1)
      ensures LeafMap(R, u1)[k] == LeafMap(R, u)[k]
    {
      var x :| x in u1 && R.leafKey(x) == k;
      LeafMapAt(R, u1, x);
      LeafMapAt(R, u, x);
    }
  }

  /** Every entry belongs to a transaction and is serializable: true of every set built by insertion. */
  ghost predicate Sane(R: Rules, u: Utxos) {
    forall op | op in u :: Known(R, op) && R.outputSize(u[op].output).Some?
  }

  // ---- Exact outcomes of apply and undo, as functions of the map ----

  /** Output `i` cannot be inserted. */
  ghost predicate Blocked(R: Rules, u: Utxos, tx: Tx, i: nat)
    requires R.txId(tx).Some? && i < |tx.outputs|
  {
    OutPoint(R.txId(tx).value, i) in u - OpSet(Consumed(tx)) || R.outputSize(tx.outputs[i]).None?
  }

  ghost predicate Applies(R: Rules, u: Utxos, tx: Tx) {
    R.txId(tx).Some? && Spends(u, tx) && forall i | 0 <= i < |tx.outputs| :: !Blocked(R, u, tx, i)
  }

  /** Where a failed application can have left the map: some inputs gone, or all gone and some outputs in. */
  ghost predicate HalfApplied(R: Rules, u: Utxos, v: Utxos, tx: Tx, height: nat) {
    if R.txId(tx).Some? && Spends(u, tx)
    then exists k :: 0 <= k < |tx.outputs| && Blocked(R, u, tx, k) && Stopped(R, u, v, tx, height, k)
    else exists k :: 0 <= k <= |Consumed(tx)| && v == u - OpSet(Consumed(tx)[..k])
  }

  /** All inputs are gone and exactly the outputs before `k` are in. */
  ghost predicate Stopped(R: Rules, u: Utxos, v: Utxos, tx: Tx, height: nat, k: nat)
    requires R.txId(tx).Some? && k <= |tx.outputs|
  {
    v == (u - OpSet(Consumed(tx))) + Created(R.txId(tx).value, tx.outputs[..k], height, IsCoinbase(tx))
  }

  ghost function PrevMap(prev: SpentList): Utxos {
    if prev == [] then map[] else PrevMap(prev[..|prev| - 1])[prev[|prev| - 1].0 := prev[|prev| - 1].1]
  }

  ghost function OwnOps(R: Rules, tx: Tx, n: nat): set<OutPoint>
    requires R.txId(tx).Some?
  {
    set i | 0 <= i < n :: OutPoint(R.txId(tx).value, i)
  }

  ghost predicate Undoable(R: Rules, u: Utxos, tx: Tx, prev: SpentList) {
    && (IsCoinbase(tx) || |prev| == |tx.inputs|)
    && R.txId(tx).Some?
    && (forall i | 0 <= i < |tx.outputs| :: OutPoint(R.txId(tx).value, i) in u)
    && Restorable(R, u - OwnOps(R, tx, |tx.outputs|), prev)
  }

  ghost predicate KnownAll(R: Rules, prev: SpentList) {
    forall i | 0 <= i < |prev| :: Known(R, prev[i].0)
  }

  /** The undo stopped at output `k`: it was missing, and the ones before it are gone. */
  ghost predicate StoppedAtOutput(R: Rules, u: Utxos, w: Utxos, tx: Tx, k: nat)
    requires R.txId(tx).Some?
  {
    && k < |tx.outputs| && OutPoint(R.txId(tx).value, k) !in u
    && (forall j | 0 <= j < k :: OutPoint(R.txId(tx).value, j) in u) && w == u - OwnOps(R, tx, k)
  }

  /** It stopped at entry `i`: all outputs are gone, and the entries before it are back. */
  ghost predicate StoppedAtEntry(R: Rules, u: Utxos, w: Utxos, tx: Tx, prev: SpentList, i: nat)
    requires R.txId(tx).Some?
  {
    && i < |prev| && w == (u - OwnOps(R, tx, |tx.outputs|)) + PrevMap(prev[..i])
    && (prev[i].0 in w || R.outputSize(prev[i].1.output).None?)
  }

  /** Where a failed undo leaves the map. */
  ghost predicate HalfUndone(R: Rules, u: Utxos, w: Utxos, tx: Tx, prev: SpentList) {
    if (!IsCoinbase(tx) && |prev| != |tx.inputs|) || R.txId(tx).None? then w == u
    else (exists k :: 0 <= k && StoppedAtOutput(R, u, w, tx, k)) || (exists i :: 0 <= i && StoppedAtEntry(R, u, w, tx, prev, i))
  }

  /** An undo puts nothing back but the given entries. */
  lemma UndoAddsNothing(R: Rules, u: Utxos, w: Utxos, tx: Tx, prev: SpentList, op: OutPoint)
    requires HalfUndone(R, u, w, tx, prev) || (Undoable(R, u, tx, prev) && w == (u - OwnOps(R, tx, |tx.outputs|)) + PrevMap(prev))
    requires op !in u && forall j | 0 <= j < |prev| :: prev[j].0 != op
    ensures op !in w
  {
    hide PrevMap, Undoable, OwnOps;
    PrevMapKeys(prev);
    if i :| 0 <= i < |prev| && R.txId(tx).Some? && StoppedAtEntry(R, u, w, tx, prev, i) {
      PrevMapKeys(prev[..i]);
      forall j | 0 <= j < i ensures prev[..i][j].0 != op { assert prev[..i][j] == prev[j]; }
    }
  }

  /** The entries can be put back one by one. */
  ghost predicate Restorable(R: Rules, u: Utxos, prev: SpentList) {
    && (forall i | 0 <= i < |prev| :: prev[i].0 !in u && R.outputSize(prev[i].1.output).Some?)
    && (forall i, j | 0 <= i < j < |prev| :: prev[i].0 != prev[j].0)
  }

  /** Put back the entries that are missing. */
  ghost function RestoreMissing(u: Utxos, prev: SpentList): Utxos {
    if prev == [] then u else
    var w := RestoreMissing(u, prev[..|prev| - 1]);
    var (op, e) := prev[|prev| - 1];
    if op in w then w else w[op := e]
  }

  /** A partial undo puts nothing back but the given entries. */
  lemma {:induction false} RestoreAddsNothing(u: Utxos, prev: SpentList, op: OutPoint)
    requires op !in u && forall j | 0 <= j < |prev| :: prev[j].0 != op
    ensures op !in RestoreMissing(u, prev)
  {
    if prev != [] {
      assert prev[|prev| - 1].0 != op;
      RestoreAddsNothing(u, prev[..|prev| - 1], op);
    }
  }

  // ---- One loop iteration each, on values ----

  lemma RemoveStep(u: Utxos, ops: seq<OutPoint>, i: nat)
    requires i < |ops| && AllPresent(u, ops[..i]) && Distinct(ops[..i])
    ensures var w := u - OpSet(ops[..i]);
            if ops[i] in w then
              && AllPresent(u, ops[..i + 1]) && Distinct(ops[..i + 1]) && w[ops[i]] == u[ops[i]]
              && w - {ops[i]} == u - OpSet(ops[..i + 1])
              && RemoveLog(u, ops[..i + 1]) == RemoveLog(u, ops[..i]) + [Mutation.Remove(ops[i], u[ops[i]])]
            else
              !(AllPresent(u, ops) && Distinct(ops)) && w - {ops[i]} == w
  {
    var pre, next := ops[..i], ops[..i + 1];
    assert next == pre + [ops[i]];
    OpSetSnoc(next);
    assert next[..i] == pre;
    if ops[i] in OpSet(pre) {
      var j :| 0 <= j < i && pre[j] == ops[i];
      assert ops[j] == ops[i];
    } else if ops[i] in u {
      forall j | 0 <= j < i ensures next[j] != next[i] {
        assert pre[j] in OpSet(pre);
      }
    }
  }

  lemma InsertStep(u: Utxos, id: Hash256, outs: seq<TxOutput>, i: nat, height: nat, coinbase: bool)
    requires i < |outs|
    ensures var e := UtxoEntry(outs[i], height, coinbase);
            && (u + Created(id, outs[..i], height, coinbase))[OutPoint(id, i) := e] == u + Created(id, outs[..i + 1], height, coinbase)
            && InsertLog(id, outs[..i + 1], height, coinbase)
                 == InsertLog(id, outs[..i], height, coinbase) + [Mutation.Insert(OutPoint(id, i), e)]
            && (OutPoint(id, i) in u + Created(id, outs[..i], height, coinbase) <==> OutPoint(id, i) in u)
  {
    hide InsertLog;
    assert outs[..i + 1][..i] == outs[..i];
    InsertLogSnoc(id, outs[..i + 1], height, coinbase);
  }

  lemma OwnStep(R: Rules, u: Utxos, tx: Tx, i: nat)
    requires R.txId(tx).Some?
    ensures var op := OutPoint(R.txId(tx).value, i);
            && (u - OwnOps(R, tx, i)) - {op} == u - OwnOps(R, tx, i + 1)
            && (op in u - OwnOps(R, tx, i) <==> op in u)
            && (op !in u ==> u - OwnOps(R, tx, i + 1) == u - OwnOps(R, tx, i))
  {
    OwnOpsSnoc(R, tx, i);
  }

  lemma {:induction false} PrevMapKeys(prev: SpentList)
    ensures forall op :: op in PrevMap(prev) <==> exists j :: 0 <= j < |prev| && prev[j].0 == op
  {
    if prev != [] {
      var n := |prev| - 1;
      PrevMapKeys(prev[..n]);
      forall op ensures op in PrevMap(prev) <==> exists j :: 0 <= j < |prev| && prev[j].0 == op {
        if op in PrevMap(prev[..n]) {
          var j :| 0 <= j < n && prev[..n][j].0 == op;
          assert prev[j].0 == op;
        } else if op == prev[n].0 {
          assert prev[n].0 == op;
        } else {
          forall j | 0 <= j < |prev| ensures prev[j].0 != op {
            if j < n { assert prev[..n][j].0 != op; }
          }
        }
      }
    }
  }

  lemma RestoreStep(R: Rules, u: Utxos, prev: SpentList, i: nat)
    requires i < |prev| && Restorable(R, u, prev[..i])
    ensures var w := u + PrevMap(prev[..i]);
            var (op, e) := prev[i];
            && w[op := e] == u + PrevMap(prev[..i + 1])
            && (op !in w && R.outputSize(e.output).Some? ==> Restorable(R, u, prev[..i + 1]))
            && (op in w || R.outputSize(e.output).None? ==> !Restorable(R, u, prev))
  {
    assert prev[..i + 1][..i] == prev[..i];
    PrevMapKeys(prev[..i]);
    forall j | 0 <= j < i ensures prev[j].0 in PrevMap(prev[..i]) {
      assert prev[..i][j].0 == prev[j].0;
    }
    if prev[i].0 in PrevMap(prev[..i]) {
      var j :| 0 <= j < i && prev[..i][j].0 == prev[i].0;
      assert prev[j].0 == prev[i].0;
    }
  }

  class UtxoSet {
    const R: Rules
    const smt: SparseMerkleTree
    var utxos: Utxos
    var byScript: ScriptIndex

    /** Both derived structures are functions of the map. */
    ghost predicate Valid()
      reads this, smt
    {
      && Lawful(R) && Sane(R, utxos)
      && smt.Valid() && smt.hash2 == R.hash2 && smt.Map() == LeafMap(R, utxos)
      && Indexed(utxos, byScript)
    }

    constructor (R: Rules)
      requires Lawful(R)
      ensures Valid() && fresh(smt) && this.R == R && utxos == map[]
    {
      this.R := R;
      utxos := map[];
      byScript := map[];
      smt := new SparseMerkleTree(R.hash2);
      new;
      assert LeafKeys(R, map[]) == {};
      assert forall s :: OpsOf(utxos, s) == {};
    }

    lemma EntriesSane()
      requires Valid()
      ensures Lawful(R) && Sane(R, utxos)
    {
    }

    /** Map, script index and state root are all what they were. */
    twostate predicate Restored()
      reads this, smt
    {
      utxos == old(utxos) && byScript == old(byScript) && smt.rootHash == old(smt.rootHash)
    }

    /** With the map back, the script index and the state root are back too. */
    twostate lemma MapDecides()
      requires old(Valid()) && Valid() && utxos == old(utxos)
      ensures Restored()
    {
      IndexUnique(utxos, old(byScript), byScript);
    }

    /** The root is the naive root over the leaves of the map, however the map was reached. */
    method GetStateRoot() returns (root: Hash256)
      requires Valid()
      ensures root == StateRoot(R, utxos)
    {
      root := smt.rootHash;
    }

    method Insert(op: OutPoint, entry: UtxoEntry) returns (r: Result<(), StateError>)
      requires Valid() && Known(R, op)
      modifies this`utxos, this`byScript, smt
      ensures Valid()
      ensures r.Ok? <==> op !in old(utxos) && R.outputSize(entry.output).Some?
      ensures utxos == if r.Ok? then old(utxos)[op := entry] else old(utxos)
      ensures r.Err? ==> r.error == if op in old(utxos) then DuplicateOutpoint(op) else Serialization
    {
      hide SparseMerkleTree.Valid, SparseMerkleTree.Map, LeafMap, Lawful, OpsOf;
      if op in utxos {
        return Err(DuplicateOutpoint(op));
      }
      if R.outputSize(entry.output).None? {
        return Err(Serialization);
      }
      EntriesSane();
      LawfulKeys(R);
      LeafInsert(R, utxos, op, entry);
      IndexInsert(utxos, byScript, op, entry);
      smt.Insert(R.leafKey(op), R.leafValue(entry));
      var script := entry.output.script;
      utxos := utxos[op := entry];
      byScript := byScript[script := (if script in byScript then byScript[script] else {}) + {op}];
      r := Ok(());
    }

    method Remove(op: OutPoint) returns (r: Option<UtxoEntry>)
      requires Valid()
      modifies this`utxos, this`byScript, smt
      ensures Valid()
      ensures r == if op in old(utxos) then Some(old(utxos)[op]) else None
      ensures utxos == old(utxos) - {op}
    {
      hide SparseMerkleTree.Valid, SparseMerkleTree.Map, LeafMap, Lawful, OpsOf;
      if op !in utxos {
        assert utxos - {op} == utxos;
        return None;
      }
      var entry := utxos[op];
      LawfulKeys(R);
      LeafRemove(R, utxos, op);
      IndexRemove(utxos, byScript, op);
      smt.Remove(R.leafKey(op));
      utxos := utxos - {op};
      var script := entry.output.script;
      if script in byScript {
        var set' := byScript[script] - {op};
        byScript := if set' == {} then byScript - {script} else byScript[script := set'];
      }
      r := Some(entry);
    }

    /** Remove the inputs in order, stopping at the first that is missing. */
    method RemoveInputs(ops: seq<OutPoint>) returns (r: Result<seq<Mutation>, StateError>)
      requires Valid()
      modifies this`utxos, this`byScript, smt
      ensures Valid()
      ensures r.Ok? <==> AllPresent(old(utxos), ops) && Distinct(ops)
      ensures r.Ok? ==> utxos == old(utxos) - OpSet(ops) && r.value == RemoveLog(old(utxos), ops)
      ensures r.Err? ==> exists k :: 0 <= k <= |ops| && utxos == old(utxos) - OpSet(ops[..k])
    {
      hide UtxoSet.Valid;
      var log := [];
      assert utxos - OpSet(ops[..0]) == utxos;
      for i := 0 to |ops|
        invariant Valid()
        invariant AllPresent(old(utxos), ops[..i]) && Distinct(ops[..i])
        invariant utxos == old(utxos) - OpSet(ops[..i])
        invariant log == RemoveLog(old(utxos), ops[..i])
      {
        RemoveStep(old(utxos), ops, i);
        var entry := Remove(ops[i]);
        if entry.None? {
          return Err(InputNotFound(ops[i]));
        }
        log := log + [Mutation.Remove(ops[i], entry.value)];
      }
      assert ops[..|ops|] == ops;
      r := Ok(log);
    }

    /** Insert the outputs in order, stopping at the first that is blocked. */
    method InsertOutputs(id: Hash256, outs: seq<TxOutput>, height: nat, coinbase: bool)
      returns (r: Result<seq<Mutation>, StateError>)
      requires Valid() && forall i | 0 <= i < |outs| :: Known(R, OutPoint(id, i))
      modifies this`utxos, this`byScript, smt
      ensures Valid()
      ensures r.Ok? ==> forall i | 0 <= i < |outs| :: OutPoint(id, i) !in old(utxos) && R.outputSize(outs[i]).Some?
      ensures r.Ok? ==> utxos == old(utxos) + Created(id, outs, height, coinbase)
                        && r.value == InsertLog(id, outs, height, coinbase)
      ensures r.Err? ==> exists k :: 0 <= k < |outs| && (OutPoint(id, k) in old(utxos) || R.outputSize(outs[k]).None?)
                                     && utxos == old(utxos) + Created(id, outs[..k], height, coinbase)
    {
      hide UtxoSet.Valid, Created, Known;
      var log := [];
      assert utxos + Created(id, outs[..0], height, coinbase) == utxos;
      for i := 0 to |outs|
        invariant Valid()
        invariant forall j | 0 <= j < i :: OutPoint(id, j) !in old(utxos) && R.outputSize(outs[j]).Some?
        invariant utxos == old(utxos) + Created(id, outs[..i], height, coinbase)
        invariant log == InsertLog(id, outs[..i], height, coinbase)
      {
        var entry := UtxoEntry(outs[i], height, coinbase);
        InsertStep(old(utxos), id, outs, i, height, coinbase);
        var ok := Insert(OutPoint(id, i), entry);
        if ok.Err? {
          return Err(ok.error);
        }
        log := log + [Mutation.Insert(OutPoint(id, i), entry)];
      }
      assert outs[..|outs|] == outs;
      r := Ok(log);
    }

    /** Apply a transaction: all of its effect with the full log, or an error and a half-applied set. */
    method ApplyTransaction(tx: Tx, height: nat) returns (r: Result<seq<Mutation>, StateError>)
      requires Valid()
      modifies this`utxos, this`byScript, smt
      ensures Valid()
      ensures r.Ok? <==> Applies(R, old(utxos), tx)
      ensures r.Ok? ==> utxos == Applied(R, old(utxos), tx, height) && r.value == Log(R, old(utxos), tx, height)
      ensures r.Err? ==> HalfApplied(R, old(utxos), utxos, tx, height)
    {
      hide UtxoSet.Valid;
      var id := R.txId(tx);
      if id.None? {
        assert Consumed(tx)[..0] == [] && utxos == utxos - OpSet(Consumed(tx)[..0]);
        return Err(Serialization);
      }
      var coinbase := IsCoinbase(tx);
      var log := [];
      if !coinbase {
        var removed := RemoveInputs(tx.inputs);
        if removed.Err? {
          return Err(removed.error);
        }
        log := removed.value;
      } else {
        assert utxos == utxos - OpSet([]);
        assert RemoveLog(utxos, []) == [];
      }
      ghost var w := utxos;
      var inserted := InsertOutputs(id.value, tx.outputs, height, coinbase);
      if inserted.Err? {
        ghost var k :| 0 <= k < |tx.outputs| && (OutPoint(id.value, k) in w || R.outputSize(tx.outputs[k]).None?)
                       && utxos == w + Created(id.value, tx.outputs[..k], height, coinbase);
        assert Blocked(R, old(utxos), tx, k) && Stopped(R, old(utxos), utxos, tx, height, k);
        return Err(inserted.error);
      }
      r := Ok(log + inserted.value);
    }

    /** Remove the outputs of `tx`, present or not. */
    method DropOutputs(tx: Tx)
      requires Valid() && R.txId(tx).Some?
      modifies this`utxos, this`byScript, smt
      ensures Valid() && utxos == old(utxos) - OwnOps(R, tx, |tx.outputs|)
    {
      hide UtxoSet.Valid;
      assert OwnOps(R, tx, 0) == {};
      for i := 0 to |tx.outputs|
        invariant Valid() && utxos == old(utxos) - OwnOps(R, tx, i)
      {
        OwnStep(R, old(utxos), tx, i);
        var _ := Remove(OutPoint(R.txId(tx).value, i));
      }
    }

    /** Remove the outputs of `tx` in order, stopping at the first that is missing: the index reached. */
    method RemoveOutputs(tx: Tx) returns (k: nat)
      requires Valid() && R.txId(tx).Some?
      modifies this`utxos, this`byScript, smt
      ensures Valid() && k <= |tx.outputs| && utxos == old(utxos) - OwnOps(R, tx, k)
      ensures forall j | 0 <= j < k :: OutPoint(R.txId(tx).value, j) in old(utxos)
      ensures k < |tx.outputs| ==> OutPoint(R.txId(tx).value, k) !in old(utxos)
    {
      hide UtxoSet.Valid;
      assert OwnOps(R, tx, 0) == {};
      k := 0;
      while k < |tx.outputs|
        invariant Valid() && k <= |tx.outputs| && utxos == old(utxos) - OwnOps(R, tx, k)
        invariant forall j | 0 <= j < k :: OutPoint(R.txId(tx).value, j) in old(utxos)
      {
        OwnStep(R, old(utxos), tx, k);
        var entry := Remove(OutPoint(R.txId(tx).value, k));
        if entry.None? {
          return;
        }
        k := k + 1;
      }
    }

    /** Put spent entries back in order, stopping at the first that cannot go in. */
    method RestoreInputs(prev: SpentList) returns (r: Result<(), StateError>, ghost i: nat)
      requires Valid() && KnownAll(R, prev)
      modifies this`utxos, this`byScript, smt
      ensures Valid()
      ensures r.Ok? <==> Restorable(R, old(utxos), prev)
      ensures r.Ok? ==> utxos == old(utxos) + PrevMap(prev)
      ensures r.Err? ==> && i < |prev| && utxos == old(utxos) + PrevMap(prev[..i])
                         && (prev[i].0 in utxos || R.outputSize(prev[i].1.output).None?)
    {
      hide UtxoSet.Valid;
      for k := 0 to |prev|
        invariant Valid()
        invariant Restorable(R, old(utxos), prev[..k])
        invariant utxos == old(utxos) + PrevMap(prev[..k])
      {
        var (op, entry) := prev[k];
        RestoreStep(R, old(utxos), prev, k);
        if op in utxos {
          return Err(DuplicateRestore(op)), k;
        }
        var ok := Insert(op, entry);
        if ok.Err? {
          return Err(ok.error), k;
        }
      }
      assert prev[..|prev|] == prev;
      r, i := Ok(()), |prev|;
    }

    /** Undo a transaction: exact inverse of its application when it succeeds. */
    method UndoTransaction(tx: Tx, prev: SpentList) returns (r: Result<(), StateError>)
      requires Valid() && KnownAll(R, prev)
      modifies this`utxos, this`byScript, smt
      ensures Valid()
      ensures r.Ok? <==> Undoable(R, old(utxos), tx, prev)
      ensures r.Ok? ==> utxos == (old(utxos) - OwnOps(R, tx, |tx.outputs|)) + PrevMap(prev)
      ensures r.Err? ==> HalfUndone(R, old(utxos), utxos, tx, prev)
    {
      hide UtxoSet.Valid, PrevMap, OwnOps, Restorable, KnownAll;
      if !IsCoinbase(tx) && |prev| != |tx.inputs| {
        return Err(IncompleteUndo(|tx.inputs|, |prev|));
      }
      var id := R.txId(tx);
      if id.None? {
        return Err(Serialization);
      }
      var k := RemoveOutputs(tx);
      if k < |tx.outputs| {
        assert StoppedAtOutput(R, old(utxos), utxos, tx, k);
        return Err(OutputNotFound(OutPoint(id.value, k)));
      }
      ghost var i;
      r, i := RestoreInputs(prev);
      if r.Err? {
        assert StoppedAtEntry(R, old(utxos), utxos, tx, prev, i);
      }
    }

    /** Undo a transaction that may have been applied only in part. */
    method UndoPartialTransaction(tx: Tx, prev: SpentList) returns (r: Result<(), StateError>)
      requires Valid() && KnownAll(R, prev)
      modifies this`utxos, this`byScript, smt
      ensures Valid()
      ensures R.txId(tx).None? ==> r.Err? && utxos == old(utxos)
      ensures r.Ok? ==> utxos == RestoreMissing(old(utxos) - OwnOps(R, tx, |tx.outputs|), if IsCoinbase(tx) then [] else prev)
      ensures R.txId(tx).Some? && (forall i | 0 <= i < |prev| :: R.outputSize(prev[i].1.output).Some?) ==> r.Ok?
      ensures r.Err? && R.txId(tx).Some? ==>
                exists i :: && 0 <= i < |prev| && R.outputSize(prev[i].1.output).None?
                            && utxos == RestoreMissing(old(utxos) - OwnOps(R, tx, |tx.outputs|), prev[..i])
    {
      hide UtxoSet.Valid;
      if R.txId(tx).None? {
        return Err(Serialization);
      }
      DropOutputs(tx);
      if !IsCoinbase(tx) {
        ghost var w := utxos;
        for i := 0 to |prev|
          invariant Valid()
          invariant utxos == RestoreMissing(w, prev[..i])
        {
          var (op, entry) := prev[i];
          assert prev[..i + 1][..i] == prev[..i];
          if op !in utxos {
            var ok := Insert(op, entry);
            if ok.Err? {
              return Err(ok.error);
            }
          }
        }
        assert prev[..|prev|] == prev;
      }
      r := Ok(());
    }
  }

  lemma OwnOpsSnoc(R: Rules, tx: Tx, n: nat)
    requires R.txId(tx).Some?
    ensures OwnOps(R, tx, n + 1) == OwnOps(R, tx, n) + {OutPoint(R.txId(tx).value, n)}
  {
  }
}
