/**
 The pool of unconfirmed transactions: five tables that every operation keeps consistent, with eviction by
 fee density when the pool is full.
 */
module Mempool {
  import opened SmtSpec
  import opened Ledger
  import Digits

  const MEMPOOL_CAPACITY: nat := 8192
  const MAX_MEMPOOL_BYTES: nat := 268_435_456

  datatype SpentInput = SpentInput(op: OutPoint, script: Bytes, value: nat)

  datatype Entry = Entry(tx: Tx, id: Hash256, fee: nat, density: nat, spent: seq<SpentInput>)

  datatype MempoolError = TooLarge | AlreadyInMempool | CoinbaseNotAllowed | DoubleSpend(op: OutPoint) | CostOverflow | FeeTooLow

  type Entries = map<Hash256, Entry>
  type Rank = (nat, Hash256)
  type ScriptTable = map<Bytes, set<Hash256>>

  // ---- What the tables should be, given the entries ----

  ghost predicate EntriesOk(R: Rules, es: Entries) {
    && (forall id | id in es :: es[id].id == id && R.txId(es[id].tx) == Some(id) && !IsCoinbase(es[id].tx))
    && (forall a, b | a in es && b in es && a != b :: OpSet(es[a].tx.inputs) !! OpSet(es[b].tx.inputs))
  }

  ghost function SpentBy(es: Entries): set<OutPoint> {
    set id, op | id in es && op in OpSet(es[id].tx.inputs) :: op
  }

  function RankOf(e: Entry): Rank {
    (e.density, e.id)
  }

  ghost function Ranks(es: Entries): set<Rank> {
    set id | id in es :: RankOf(es[id])
  }

  /** Some output of the transaction pays the script, or some input spent from it. */
  ghost predicate Touches(e: Entry, script: Bytes) {
    || (exists i :: 0 <= i < |e.tx.outputs| && e.tx.outputs[i].script == script)
    || (exists i :: 0 <= i < |e.spent| && e.spent[i].script == script)
  }

  predicate Listed(t: ScriptTable, script: Bytes, id: Hash256) {
    script in t && id in t[script]
  }

  ghost predicate ScriptsOk(es: Entries, t: ScriptTable) {
    && (forall s | s in t :: t[s] != {})
    && (forall s, id :: Listed(t, s, id) <==> id in es && Touches(es[id], s))
  }

  ghost function TotalSize(size: Tx -> nat, es: Entries): nat {
    if es == map[] then 0
    else
      var id :| id in es;
      size(es[id].tx) + TotalSize(size, es - {id})
  }

  lemma {:induction false} SizeRemove(size: Tx -> nat, es: Entries, id: Hash256)
    requires id in es
    ensures TotalSize(size, es) == size(es[id].tx) + TotalSize(size, es - {id})
    decreases |es|
  {
    var x :| x in es && TotalSize(size, es) == size(es[x].tx) + TotalSize(size, es - {x});
    if x != id {
      SizeRemove(size, es - {x}, id);
      SizeRemove(size, es - {id}, x);
      assert (es - {x}) - {id} == (es - {id}) - {x};
    }
  }

  lemma SizeInsert(size: Tx -> nat, es: Entries, e: Entry)
    requires e.id !in es
    ensures TotalSize(size, es[e.id := e]) == TotalSize(size, es) + size(e.tx)
  {
    SizeRemove(size, es[e.id := e], e.id);
    assert es[e.id := e] - {e.id} == es;
  }

  /** All five tables describe the same pool. */
  ghost predicate Consistent(R: Rules, size: Tx -> nat, es: Entries, ranks: set<Rank>, spent: set<OutPoint>, scripts: ScriptTable, total: nat) {
    && EntriesOk(R, es) && ranks == Ranks(es) && spent == SpentBy(es) && ScriptsOk(es, scripts)
    && total == TotalSize(size, es)
  }

  // ---- Adding and removing one entry ----

  lemma SpentInsert(es: Entries, e: Entry)
    requires e.id !in es
    ensures SpentBy(es[e.id := e]) == SpentBy(es) + OpSet(e.tx.inputs)
  {
    var t := es[e.id := e];
    forall op ensures op in SpentBy(t) <==> op in SpentBy(es) + OpSet(e.tx.inputs) {
      if op in SpentBy(es) {
        var id :| id in es && op in OpSet(es[id].tx.inputs);
        assert id in t && t[id] == es[id];
      }
      if op in OpSet(e.tx.inputs) { assert e.id in t && op in OpSet(t[e.id].tx.inputs); }
    }
  }

  lemma SpentRemove(R: Rules, es: Entries, id: Hash256)
    requires EntriesOk(R, es) && id in es
    ensures SpentBy(es - {id}) == SpentBy(es) - OpSet(es[id].tx.inputs)
  {
    var rest := es - {id};
    forall op ensures op in SpentBy(rest) <==> op in SpentBy(es) - OpSet(es[id].tx.inputs) {
      if op in SpentBy(rest) {
        var x :| x in rest && op in OpSet(rest[x].tx.inputs);
        assert x in es && op in OpSet(es[x].tx.inputs) && OpSet(es[x].tx.inputs) !! OpSet(es[id].tx.inputs);
      }
      if op in SpentBy(es) && op !in OpSet(es[id].tx.inputs) {
        var x :| x in es && op in OpSet(es[x].tx.inputs);
        assert x in rest && op in OpSet(rest[x].tx.inputs);
      }
    }
  }

  lemma RanksInsert(es: Entries, e: Entry)
    requires e.id !in es
    ensures Ranks(es[e.id := e]) == Ranks(es) + {RankOf(e)}
  {
    var t := es[e.id := e];
    forall r ensures r in Ranks(t) <==> r in Ranks(es) + {RankOf(e)} {
      if r in Ranks(es) {
        var id :| id in es && r == RankOf(es[id]);
        assert id in t && r == RankOf(t[id]);
      }
      if r == RankOf(e) { assert e.id in t && r == RankOf(t[e.id]); }
    }
  }

  lemma RanksRemove(R: Rules, es: Entries, id: Hash256)
    requires EntriesOk(R, es) && id in es
    ensures Ranks(es - {id}) == Ranks(es) - {RankOf(es[id])}
  {
    var rest := es - {id};
    forall r ensures r in Ranks(rest) <==> r in Ranks(es) - {RankOf(es[id])} {
      if r in Ranks(rest) {
        var x :| x in rest && r == RankOf(rest[x]);
        assert x in es && r == RankOf(es[x]) && es[x].id == x;
      }
      if r in Ranks(es) && r != RankOf(es[id]) {
        var x :| x in es && r == RankOf(es[x]);
        assert x in rest && r == RankOf(rest[x]);
      }
    }
  }

  lemma EntriesRemove(R: Rules, es: Entries, id: Hash256)
    requires EntriesOk(R, es)
    ensures EntriesOk(R, es - {id})
  {
  }

  lemma EntriesInsert(R: Rules, es: Entries, e: Entry)
    requires EntriesOk(R, es) && e.id !in es && R.txId(e.tx) == Some(e.id) && !IsCoinbase(e.tx) && OpSet(e.tx.inputs) !! SpentBy(es)
    ensures EntriesOk(R, es[e.id := e])
  {
    var t := es[e.id := e];
    forall a, b | a in t && b in t && a != b ensures OpSet(t[a].tx.inputs) !! OpSet(t[b].tx.inputs) {
      if a == e.id {
        assert OpSet(es[b].tx.inputs) <= SpentBy(es) by { InSpent(es, b); }
      } else if b == e.id {
        assert OpSet(es[a].tx.inputs) <= SpentBy(es) by { InSpent(es, a); }
      }
    }
  }

  lemma InSpent(es: Entries, id: Hash256)
    requires id in es
    ensures OpSet(es[id].tx.inputs) <= SpentBy(es)
  {
  }

  // ---- The script table ----

  function AddScript(t: ScriptTable, s: Bytes, id: Hash256): (r: ScriptTable)
    ensures forall x, i :: Listed(r, x, i) <==> Listed(t, x, i) || (x == s && i == id)
    ensures (forall x | x in t :: t[x] != {}) ==> forall x | x in r :: r[x] != {}
  {
    t[s := (if s in t then t[s] else {}) + {id}]
  }

  function DropScript(t: ScriptTable, s: Bytes, id: Hash256): (r: ScriptTable)
    ensures forall x, i :: Listed(r, x, i) <==> Listed(t, x, i) && !(x == s && i == id)
    ensures (forall x | x in t :: t[x] != {}) ==> forall x | x in r :: r[x] != {}
  {
    if s !in t then t
    else if t[s] - {id} == {} then DropAll(t, s, id)
    else t[s := t[s] - {id}]
  }

  function DropAll(t: ScriptTable, s: Bytes, id: Hash256): (r: ScriptTable)
    requires s in t && t[s] - {id} == {}
    ensures forall x, i :: Listed(r, x, i) <==> Listed(t, x, i) && !(x == s && i == id)
    ensures forall x | x in r :: x in t && r[x] == t[x]
  {
    assert forall i | i in t[s] :: i in t[s] - {id} || i == id;
    t - {s}
  }

  /** Scripts of the first `n` outputs and the first `m` spent inputs. */
  ghost predicate TouchesUpTo(e: Entry, n: nat, m: nat, script: Bytes)
    requires n <= |e.tx.outputs| && m <= |e.spent|
  {
    || (exists i :: 0 <= i < n && e.tx.outputs[i].script == script)
    || (exists i :: 0 <= i < m && e.spent[i].script == script)
  }

  lemma TouchOutput(e: Entry, n: nat, m: nat, s: Bytes)
    requires n < |e.tx.outputs| && m <= |e.spent|
    ensures TouchesUpTo(e, n + 1, m, s) <==> TouchesUpTo(e, n, m, s) || s == e.tx.outputs[n].script
  {
  }

  lemma TouchSpent(e: Entry, n: nat, m: nat, s: Bytes)
    requires n <= |e.tx.outputs| && m < |e.spent|
    ensures TouchesUpTo(e, n, m + 1, s) <==> TouchesUpTo(e, n, m, s) || s == e.spent[m].script
  {
  }

  /** The table with the entry listed under every script it touches, and without empty rows. */
  ghost predicate With(t: ScriptTable, r: ScriptTable, e: Entry) {
    && (forall s | s in r :: r[s] != {})
    && forall s, id :: Listed(r, s, id) <==> Listed(t, s, id) || (id == e.id && Touches(e, s))
  }

  ghost predicate Without(t: ScriptTable, r: ScriptTable, e: Entry) {
    && (forall s | s in r :: r[s] != {})
    && forall s, id :: Listed(r, s, id) <==> Listed(t, s, id) && !(id == e.id && Touches(e, s))
  }

  method IndexEntry(t: ScriptTable, e: Entry) returns (r: ScriptTable)
    requires forall s | s in t :: t[s] != {}
    ensures With(t, r, e)
  {
    hide Listed, AddScript;
    r := t;
    for i := 0 to |e.tx.outputs|
      invariant forall s | s in r :: r[s] != {}
      invariant forall s, id :: Listed(r, s, id) <==> Listed(t, s, id) || (id == e.id && TouchesUpTo(e, i, 0, s))
    {
      forall s ensures TouchesUpTo(e, i + 1, 0, s) <==> TouchesUpTo(e, i, 0, s) || s == e.tx.outputs[i].script { TouchOutput(e, i, 0, s); }
      r := AddScript(r, e.tx.outputs[i].script, e.id);
    }
    var n := |e.tx.outputs|;
    for j := 0 to |e.spent|
      invariant forall s | s in r :: r[s] != {}
      invariant forall s, id :: Listed(r, s, id) <==> Listed(t, s, id) || (id == e.id && TouchesUpTo(e, n, j, s))
    {
      forall s ensures TouchesUpTo(e, n, j + 1, s) <==> TouchesUpTo(e, n, j, s) || s == e.spent[j].script { TouchSpent(e, n, j, s); }
      r := AddScript(r, e.spent[j].script, e.id);
    }
  }

  method DeindexEntry(t: ScriptTable, e: Entry) returns (r: ScriptTable)
    requires forall s | s in t :: t[s] != {}
    ensures Without(t, r, e)
  {
    hide Listed, DropScript;
    r := t;
    for i := 0 to |e.tx.outputs|
      invariant forall s | s in r :: r[s] != {}
      invariant forall s, id :: Listed(r, s, id) <==> Listed(t, s, id) && !(id == e.id && TouchesUpTo(e, i, 0, s))
    {
      forall s ensures TouchesUpTo(e, i + 1, 0, s) <==> TouchesUpTo(e, i, 0, s) || s == e.tx.outputs[i].script { TouchOutput(e, i, 0, s); }
      r := DropScript(r, e.tx.outputs[i].script, e.id);
    }
    var n := |e.tx.outputs|;
    for j := 0 to |e.spent|
      invariant forall s | s in r :: r[s] != {}
      invariant forall s, id :: Listed(r, s, id) <==> Listed(t, s, id) && !(id == e.id && TouchesUpTo(e, n, j, s))
    {
      forall s ensures TouchesUpTo(e, n, j + 1, s) <==> TouchesUpTo(e, n, j, s) || s == e.spent[j].script { TouchSpent(e, n, j, s); }
      r := DropScript(r, e.spent[j].script, e.id);
    }
  }

  lemma ScriptsInsert(es: Entries, t: ScriptTable, r: ScriptTable, e: Entry)
    requires ScriptsOk(es, t) && e.id !in es && With(t, r, e)
    ensures ScriptsOk(es[e.id := e], r)
  {
    hide Touches, Listed;
  }

  lemma ScriptsRemove(es: Entries, t: ScriptTable, r: ScriptTable, id: Hash256)
    requires ScriptsOk(es, t) && id in es && es[id].id == id && Without(t, r, es[id])
    ensures ScriptsOk(es - {id}, r)
  {
    hide Touches, Listed;
  }

  // ---- Ranks ----

  predicate Lower(a: Rank, b: Rank) {
    a.0 < b.0 || (a.0 == b.0 && a.1 < b.1)
  }

  method Lowest(ranks: set<Rank>) returns (r: Rank)
    requires ranks != {}
    ensures r in ranks && forall x | x in ranks && x != r :: Lower(r, x)
  {
    r :| r in ranks;
    var todo := ranks - {r};
    while todo != {}
      invariant todo <= ranks && r in ranks && r !in todo && forall x | x in ranks && x !in todo && x != r :: Lower(r, x)
      decreases |todo|
    {
      var x :| x in todo;
      if Lower(x, r) { r := x; }
      todo := todo - {x};
    }
  }

  lemma RankIsEntry(R: Rules, es: Entries, r: Rank)
    requires EntriesOk(R, es) && r in Ranks(es)
    ensures r.1 in es && RankOf(es[r.1]) == r
  {
  }

  lemma NoEntriesNoRanks(es: Entries)
    ensures Ranks(es) == {} <==> es == map[]
  {
    if es != map[] {
      var id :| id in es;
      assert RankOf(es[id]) in Ranks(es);
    }
  }

  /** Everything that left the pool ranks below everything that stayed. */
  ghost predicate Outranked(before: Entries, after: Entries) {
    && (forall id | id in after :: id in before && after[id] == before[id])
    && (forall a, b | a in before && a !in after && b in after :: Lower(RankOf(before[a]), RankOf(after[b])))
  }

  /** Density decides the rank. */
  lemma LowerMeans(a: Rank, b: Rank)
    ensures a.0 < b.0 ==> Lower(a, b) && !Lower(b, a)
    ensures a.0 == b.0 ==> (Lower(a, b) <==> a.1 < b.1)
  {
  }

  /** Nothing that stays is less dense than anything that went. */
  lemma DenserStay(before: Entries, after: Entries, gone: Hash256, kept: Hash256)
    requires Outranked(before, after) && gone in before && gone !in after && kept in after
    ensures before[gone].density <= after[kept].density
  {
    LowerMeans(RankOf(after[kept]), RankOf(before[gone]));
  }

  lemma EvictOne(R: Rules, before: Entries, mid: Entries, id: Hash256)
    requires EntriesOk(R, mid) && Outranked(before, mid) && LowestRanked(mid, id)
    ensures Outranked(before, mid - {id}) && id in before && before[id] == mid[id]
  {
    var after := mid - {id};
    forall a, b | a in before && a !in after && b in after ensures Lower(RankOf(before[a]), RankOf(after[b])) {
      assert RankOf(mid[b]) in Ranks(mid) && mid[b].id == b && mid[id].id == id;
    }
  }

  method AddInputs(spent: set<OutPoint>, ops: seq<OutPoint>) returns (r: set<OutPoint>)
    ensures r == spent + OpSet(ops)
  {
    r := spent;
    for i := 0 to |ops|
      invariant r == spent + OpSet(ops[..i])
    {
      OpSetSnoc(ops[..i + 1]);
      assert ops[..i + 1][..i] == ops[..i];
      r := r + {ops[i]};
    }
    assert ops[..|ops|] == ops;
  }

  method DropInputs(spent: set<OutPoint>, ops: seq<OutPoint>) returns (r: set<OutPoint>)
    ensures r == spent - OpSet(ops)
  {
    r := spent;
    for i := 0 to |ops|
      invariant r == spent - OpSet(ops[..i])
    {
      OpSetSnoc(ops[..i + 1]);
      assert ops[..i + 1][..i] == ops[..i];
      r := r - {ops[i]};
    }
    assert ops[..|ops|] == ops;
  }

  ghost predicate FirstAt(spent: set<OutPoint>, ops: seq<OutPoint>, i: nat) {
    i < |ops| && ops[i] in spent && forall j | 0 <= j < i :: ops[j] !in spent
  }

  /** The first of these outpoints that is in the set. */
  ghost predicate FirstIn(spent: set<OutPoint>, ops: seq<OutPoint>, op: OutPoint) {
    exists i :: 0 <= i && FirstAt(spent, ops, i) && ops[i] == op
  }

  /** The outputs among these that are resolved, in order. */
  function Resolved(ops: seq<OutPoint>, resolved: Utxos): seq<SpentInput> {
    if ops == [] then []
    else
      var rest, op := Resolved(ops[..|ops| - 1], resolved), ops[|ops| - 1];
      if op in resolved then rest + [SpentInput(op, resolved[op].output.script, resolved[op].output.value)] else rest
  }

  /** The first input that another entry already spends. */
  method FindConflict(spent: set<OutPoint>, ops: seq<OutPoint>) returns (op: Option<OutPoint>)
    ensures op.None? <==> OpSet(ops) !! spent
    ensures op.Some? ==> FirstIn(spent, ops, op.value)
  {
    for i := 0 to |ops|
      invariant forall j | 0 <= j < i :: ops[j] !in spent
    {
      if ops[i] in spent {
        assert ops[i] in OpSet(ops) && FirstAt(spent, ops, i);
        return Some(ops[i]);
      }
    }
    op := None;
  }

  /** The spent outputs as far as the snapshot has them. */
  method ResolveSpent(ops: seq<OutPoint>, resolved: Utxos) returns (spent: seq<SpentInput>)
    ensures spent == Resolved(ops, resolved)
    ensures forall s | s in spent :: s.op in OpSet(ops) && s.op in resolved && s.script == resolved[s.op].output.script
    ensures forall i | 0 <= i < |ops| && ops[i] in resolved :: exists s :: s in spent && s.op == ops[i]
  {
    spent := [];
    for i := 0 to |ops|
      invariant spent == Resolved(ops[..i], resolved)
      invariant forall s | s in spent :: s.op in OpSet(ops) && s.op in resolved && s.script == resolved[s.op].output.script
      invariant forall j | 0 <= j < i && ops[j] in resolved :: exists s :: s in spent && s.op == ops[j]
    {
      assert ops[..i + 1][..i] == ops[..i];
      if ops[i] in resolved {
        var e := resolved[ops[i]].output;
        assert ops[i] in OpSet(ops);
        ghost var before := spent;
        spent := spent + [SpentInput(ops[i], e.script, e.value)];
        assert spent[|before|].op == ops[i];
        forall j | 0 <= j < i && ops[j] in resolved ensures exists s :: s in spent && s.op == ops[j] {
          var s :| s in before && s.op == ops[j];
          assert s in spent;
        }
      }
    }
    assert ops[..|ops|] == ops;
  }

  /** The fee in millionths, as far as 64 bits hold it. */
  function Counted(fee: nat): nat {
    if fee * 1_000_000 > U64_MAX then U64_MAX else fee * 1_000_000
  }

  function Density(fee: nat, cost: nat): nat {
    if cost == 0 then 0 else Counted(fee) / cost
  }

  /**
   The density is the fee in millionths per unit of cost, rounded down; a fee beyond 64 bits counts as the largest,
   and without cost there is none.
   */
  lemma DensityMeans(fee: nat, cost: nat)
    ensures cost == 0 ==> Density(fee, cost) == 0
    ensures cost > 0 && fee * 1_000_000 <= U64_MAX ==>
              Density(fee, cost) * cost <= fee * 1_000_000 < (Density(fee, cost) + 1) * cost
    ensures cost > 0 && fee * 1_000_000 > U64_MAX ==>
              Density(fee, cost) * cost <= U64_MAX < (Density(fee, cost) + 1) * cost
  {
    if cost > 0 {
      var n := Counted(fee);
      var q := n / cost;
      assert n == q * cost + n % cost;
      Digits.Distribute(q, 1, cost);
    }
  }

  /** More counted fee for the cost never ranks lower. */
  lemma DensityOrder(f1: nat, c1: nat, f2: nat, c2: nat)
    requires c1 > 0 && c2 > 0 && Counted(f1) * c2 >= Counted(f2) * c1
    ensures Density(f1, c1) >= Density(f2, c2)
  {
    hide Counted, Density;
    var d1, d2, n1, n2 := Density(f1, c1), Density(f2, c2), Counted(f1), Counted(f2);
    CountedMeans(f1, c1);
    CountedMeans(f2, c2);
    if d1 < d2 {
      Digits.MulMonotone(d1 + 1, d2, c1);
      StrictMul(n1, d2 * c1, c2);
      Digits.MulMonotone(d2 * c2, n2, c1);
      Digits.MulAssoc(d2, c1, c2);
      Digits.MulAssoc(d2, c2, c1);
    }
  }

  lemma CountedMeans(fee: nat, cost: nat)
    requires cost > 0
    ensures Density(fee, cost) * cost <= Counted(fee) < (Density(fee, cost) + 1) * cost
  {
    hide Density;
    DensityMeans(fee, cost);
  }

  /** So more fee for the cost never ranks lower, unless it is beyond what counts and the cost is larger. */
  lemma FeeOrder(f1: nat, c1: nat, f2: nat, c2: nat)
    requires c1 > 0 && c2 > 0 && f1 * c2 >= f2 * c1 && (f1 * 1_000_000 <= U64_MAX || c1 <= c2)
    ensures Density(f1, c1) >= Density(f2, c2)
  {
    hide Density;
    if f1 * 1_000_000 <= U64_MAX {
      Digits.MulAssoc(1_000_000, f2, c1);
      Digits.MulAssoc(1_000_000, f1, c2);
      Scaled(f2 * c1, f1 * c2);
      Digits.MulMonotone(Counted(f2), f2 * 1_000_000, c1);
    } else {
      Digits.MulMonotone(Counted(f2), U64_MAX, c1);
      Digits.MulMonotone(c1, c2, U64_MAX);
    }
    DensityOrder(f1, c1, f2, c2);
  }

  lemma Scaled(a: nat, b: nat)
    requires a <= b
    ensures 1_000_000 * a <= 1_000_000 * b
  {
  }

  lemma StrictMul(a: nat, b: nat, c: nat)
    requires a < b && c > 0
    ensures a * c < b * c
  {
    Digits.MulMonotone(a + 1, b, c);
    Digits.Distribute(a, 1, c);
  }

  /** With a fee beyond what counts, half the fee for half the cost ranks higher. */
  lemma DensitySaturates()
    ensures var f, c := 40_000_000_000_000, 1000;
            (2 * f) * c >= f * (2 * c) && Density(2 * f, 2 * c) < Density(f, c)
  {
  }

  // ---- The pool ----

  class Mempool {
    const R: Rules
    const size: Tx -> nat           // serialized size, 0 if it cannot be serialized
    var entries: Entries
    var byDensity: set<Rank>
    var spentOutpoints: set<OutPoint>
    var byScript: ScriptTable
    var totalBytes: nat

    /** The tables agree. */
    ghost predicate Coherent()
      reads this
    {
      Consistent(R, size, entries, byDensity, spentOutpoints, byScript, totalBytes)
    }

    ghost predicate Valid()
      reads this
    {
      Coherent() && |entries| <= MEMPOOL_CAPACITY && totalBytes <= MAX_MEMPOOL_BYTES
    }

    constructor (R: Rules, size: Tx -> nat)
      ensures Valid() && this.R == R && this.size == size && entries == map[]
    {
      this.R, this.size := R, size;
      entries, byDensity, spentOutpoints, byScript, totalBytes := map[], {}, {}, map[], 0;
    }

    /** Take an entry out of all tables. */
    method TakeOut(id: Hash256)
      requires Coherent() && id in entries
      modifies this
      ensures Coherent() && entries == old(entries) - {id}
      ensures totalBytes + size(old(entries)[id].tx) == old(totalBytes) && |entries| == |old(entries)| - 1
    {
      hide Consistent, With, Without;
      var e := entries[id];
      NoEmptyRows(R, size, entries, byDensity, spentOutpoints, byScript, totalBytes);
      RemoveConsistent(R, size, entries, byDensity, spentOutpoints, byScript, totalBytes, id);
      var scripts := DeindexEntry(byScript, e);
      var spent := DropInputs(spentOutpoints, e.tx.inputs);
      OneLess(entries, id);
      entries := entries - {id};
      byDensity := byDensity - {(e.density, e.id)};
      byScript, spentOutpoints := scripts, spent;
      totalBytes := SatSub(totalBytes, size(e.tx));
    }

    method Remove(id: Hash256) returns (tx: Option<Tx>)
      requires Valid()
      modifies this
      ensures Valid() && entries == old(entries) - {id}
      ensures tx == if id in old(entries) then Some(old(entries)[id].tx) else None
    {
      hide Consistent;
      if id !in entries { return None; }
      tx := Some(entries[id].tx);
      TakeOut(id);
    }

    /** Evict the lowest-ranked entry. */
    method EvictLowest() returns (ghost id: Hash256)
      requires Coherent() && entries != map[]
      modifies this
      ensures Coherent() && id in old(entries) && entries == old(entries) - {id} && LowestRanked(old(entries), id)
      ensures totalBytes + size(old(entries)[id].tx) == old(totalBytes) && |entries| == |old(entries)| - 1
    {
      hide Consistent;
      ConsistentEntries(R, size, entries, byDensity, spentOutpoints, byScript, totalBytes);
      NoEntriesNoRanks(entries);
      var r := Lowest(byDensity);
      RankIsEntry(R, entries, r);
      id := r.1;
      TakeOut(r.1);
    }

    ghost predicate Full(bytes: nat)
      reads this
    {
      |entries| >= MEMPOOL_CAPACITY || totalBytes + bytes > MAX_MEMPOOL_BYTES
    }

    /**
     Evict from the bottom until a transaction of this size fits. What goes is the shortest such prefix of
     the ranking: everything that stays outranks it, and with its last entry back there would be no room.
     */
    method MakeRoom(bytes: nat) returns (ghost last: Option<Hash256>)
      requires Valid() && bytes <= MAX_MEMPOOL_BYTES
      modifies this
      ensures Valid() && !Full(bytes) && Outranked(old(entries), entries)
      ensures last.None? ==> entries == old(entries)
      ensures last.Some? ==> last.value in old(entries) && last.value !in entries && NoRoomWith(old(entries)[last.value], bytes)
    {
      hide Consistent, Outranked, Mempool.Coherent;
      last := None;
      OutrankedSame(entries);
      while |entries| >= MEMPOOL_CAPACITY || totalBytes + bytes > MAX_MEMPOOL_BYTES
        invariant Valid() && Outranked(old(entries), entries)
        invariant last.None? ==> entries == old(entries)
        invariant last.Some? ==> last.value in old(entries) && last.value !in entries && NoRoomWith(old(entries)[last.value], bytes)
        decreases |entries|
      {
        ghost var id := EvictForRoom(bytes, old(entries));
        last := Some(id);
      }
    }

    method EvictForRoom(bytes: nat, ghost before: Entries) returns (ghost id: Hash256)
      requires Valid() && Full(bytes) && bytes <= MAX_MEMPOOL_BYTES && Outranked(before, entries)
      modifies this
      ensures Valid() && |entries| < |old(entries)| && Outranked(before, entries)
      ensures id in before && id !in entries && NoRoomWith(before[id], bytes)
    {
      hide Consistent, Ranks, LowestRanked, Outranked;
      ghost var mid := entries;
      Nobody(R, size, entries, byDensity, spentOutpoints, byScript, totalBytes);
      ConsistentEntries(R, size, entries, byDensity, spentOutpoints, byScript, totalBytes);
      id := EvictLowest();
      EvictOne(R, before, mid, id);
    }

    /** Putting this entry back would leave no room. */
    ghost predicate NoRoomWith(e: Entry, bytes: nat)
      reads this
    {
      |entries| + 1 >= MEMPOOL_CAPACITY || totalBytes + size(e.tx) + bytes > MAX_MEMPOOL_BYTES
    }

    /** New to the pool, not a coinbase, and in conflict with no entry. */
    ghost predicate Admissible(es: Entries, tx: Tx) {
      R.txId(tx).Some? && R.txId(tx).value !in es && !IsCoinbase(tx) && OpSet(tx.inputs) !! SpentBy(es)
    }

    /** The first reason not to admit the transaction, and for a conflict its first conflicting input. */
    ghost predicate Objection(es: Entries, tx: Tx, e: MempoolError) {
      match e
      case TooLarge => R.txId(tx).None?
      case AlreadyInMempool => R.txId(tx).Some? && R.txId(tx).value in es
      case CoinbaseNotAllowed => R.txId(tx).Some? && R.txId(tx).value !in es && IsCoinbase(tx)
      case DoubleSpend(op) => R.txId(tx).Some? && R.txId(tx).value !in es && !IsCoinbase(tx) && FirstIn(SpentBy(es), tx.inputs, op)
      case _ => false
    }

    /** Is the transaction known, a coinbase or in conflict? */
    method PreCheck(tx: Tx) returns (err: Option<MempoolError>)
      requires Valid()
      ensures err == None <==> Admissible(entries, tx)
      ensures err.Some? ==> Objection(entries, tx, err.value)
    {
      hide Consistent, SpentBy;
      ConsistentEntries(R, size, entries, byDensity, spentOutpoints, byScript, totalBytes);
      var id := R.txId(tx);
      if id.None? { return Some(TooLarge); }
      if id.value in entries { return Some(AlreadyInMempool); }
      if IsCoinbase(tx) { return Some(CoinbaseNotAllowed); }
      var conflict := FindConflict(spentOutpoints, tx.inputs);
      err := if conflict.Some? then Some(DoubleSpend(conflict.value)) else None;
    }

    /** Write an entry to all tables. */
    method PutIn(e: Entry)
      requires Coherent() && e.id !in entries && R.txId(e.tx) == Some(e.id) && !IsCoinbase(e.tx) && OpSet(e.tx.inputs) !! SpentBy(entries)
      modifies this
      ensures Coherent() && entries == old(entries)[e.id := e]
      ensures totalBytes == old(totalBytes) + size(e.tx) && |entries| == |old(entries)| + 1
    {
      hide Consistent, With, Without, SpentBy;
      NoEmptyRows(R, size, entries, byDensity, spentOutpoints, byScript, totalBytes);
      InsertConsistent(R, size, entries, byDensity, spentOutpoints, byScript, totalBytes, e);
      spentOutpoints := AddInputs(spentOutpoints, e.tx.inputs);
      byDensity := byDensity + {(e.density, e.id)};
      totalBytes := totalBytes + size(e.tx);
      byScript := IndexEntry(byScript, e);
      entries := entries[e.id := e];
    }

    /**
     Admit a validated transaction. It gets in if and only if nothing speaks against it, it has a cost, and the
     pool has room or it is denser than the bottom of the ranking. An error leaves the pool as it was; success adds
     exactly this entry and evicts nothing but a shortest prefix of the ranking.
     */
    method AddValidated(tx: Tx, fee: nat, cost: Option<nat>, resolved: Utxos) returns (r: Result<Hash256, MempoolError>, ghost last: Option<Hash256>)
      requires Valid() && size(tx) <= MAX_MEMPOOL_BYTES
      modifies this
      ensures Valid()
      ensures r.Err? ==> entries == old(entries)
      ensures r.Ok? <==> && Admissible(old(entries), tx) && cost.Some?
                         && !(old(Full(size(tx))) && Cheapest(Ranks(old(entries)), Density(fee, cost.value)))
      ensures r.Ok? ==> R.txId(tx) == Some(r.value) && Admitted(old(entries), r.value, tx, fee, cost.value, last)
      ensures r.Ok? ==> entries[r.value].spent == Resolved(tx.inputs, resolved)
      ensures !Admissible(old(entries), tx) ==> Objection(old(entries), tx, r.error)
      ensures Admissible(old(entries), tx) && r.Err? ==> r.error == if cost.None? then CostOverflow else FeeTooLow
    {
      hide Consistent, SpentBy, Ranks, Density, Outranked, Cheapest, Resolved, FirstIn;
      last := None;
      var bad := PreCheck(tx);
      if bad.Some? { return Err(bad.value), last; }
      if cost.None? { return Err(CostOverflow), last; }
      var density := Density(fee, cost.value);
      var spent := ResolveSpent(tx.inputs, resolved);
      ConsistentEntries(R, size, entries, byDensity, spentOutpoints, byScript, totalBytes);
      OutrankedSame(entries);
      if |entries| >= MEMPOOL_CAPACITY || totalBytes + size(tx) > MAX_MEMPOOL_BYTES {
        NoEntriesNoRanks(entries);
        Nobody(R, size, entries, byDensity, spentOutpoints, byScript, totalBytes);
        var worst := Lowest(byDensity);
        WorstDensity(byDensity, worst, density);
        if density <= worst.0 { return Err(FeeTooLow), last; }
        last := MakeRoom(size(tx));
      }
      StillAdmissible(old(entries), entries, tx);
      AddBack(entries, R.txId(tx).value, Entry(tx, R.txId(tx).value, fee, density, spent));
      PutIn(Entry(tx, R.txId(tx).value, fee, density, spent));
      r := Ok(R.txId(tx).value);
    }

    /** The entry is in, and what left is a shortest prefix of the ranking. */
    ghost predicate Admitted(before: Entries, id: Hash256, tx: Tx, fee: nat, cost: nat, last: Option<Hash256>)
      reads this
    {
      && id in entries && entries[id].tx == tx && entries[id].fee == fee && entries[id].density == Density(fee, cost)
      && Outranked(before, entries - {id})
      && (last.None? ==> entries - {id} == before)
      && (last.Some? ==> last.value in before && last.value !in entries && (last.value != id) && LastNeeded(before[last.value]))
    }

    ghost predicate LastNeeded(e: Entry)
      reads this
    {
      |entries| >= MEMPOOL_CAPACITY || totalBytes + size(e.tx) > MAX_MEMPOOL_BYTES
    }

    method RemoveByIds(txs: seq<Tx>)
      requires Valid()
      modifies this
      ensures Valid() && entries == old(entries) - ConfirmedIds(R, txs)
    {
      hide Consistent, ConfirmedIds, ConfirmedSpends, Mempool.Coherent, OpSet, Consumed;
      ghost var before := entries;
      NoneConfirmed(R);
      DropTwice(before, {}, {});
      for i := 0 to |txs|
        invariant Valid() && entries == before - ConfirmedIds(R, txs[..i])
      {
        ConfirmedStep(R, txs, i);
        if R.txId(txs[i]).Some? { DropTwice(before, ConfirmedIds(R, txs[..i]), {R.txId(txs[i]).value}); }
        if R.txId(txs[i]).Some? {
          var removed := Remove(R.txId(txs[i]).value);
        }
      }
      assert txs[..|txs|] == txs;
    }

    method RemoveSpending(gone: set<OutPoint>)
      requires Valid()
      modifies this
      ensures Valid()
      ensures forall id | id in entries :: id in old(entries) && entries[id] == old(entries)[id]
      ensures forall id | id in old(entries) :: id in entries <==> OpSet(old(entries)[id].tx.inputs) !! gone
    {
      hide Consistent, OpSet;
      ghost var mid := entries;
      var todo := entries.Keys;
      while todo != {}
        invariant Valid() && todo <= mid.Keys
        invariant forall id | id in entries :: id in mid && entries[id] == mid[id]
        invariant forall id | id in mid :: id in entries <==> id in todo || OpSet(mid[id].tx.inputs) !! gone
        decreases |todo|
      {
        var id :| id in todo;
        var conflict := FindConflict(gone, entries[id].tx.inputs);
        if conflict.Some? { var removed := Remove(id); }
        todo := todo - {id};
      }
    }

    /** Drop what a block confirmed and whatever conflicts with it. */
    method RemoveConfirmed(txs: seq<Tx>)
      requires Valid()
      modifies this
      ensures Valid() && entries == Unaffected(R, old(entries), txs)
    {
      hide Consistent, Unaffected, ConfirmedIds, ConfirmedSpends;
      RemoveByIds(txs);
      ghost var mid := entries;
      var gone := CollectSpends(R, txs);
      RemoveSpending(gone);
      UnaffectedIs(R, old(entries), txs, mid, entries);
    }

    lemma StillAdmissible(before: Entries, after: Entries, tx: Tx)
      requires Outranked(before, after) && Admissible(before, tx)
      ensures Admissible(after, tx)
    {
      SpentShrinks(before, after);
    }
  }

  // ---- Confirmation ----

  ghost function ConfirmedIds(R: Rules, txs: seq<Tx>): set<Hash256> {
    set i | 0 <= i < |txs| && R.txId(txs[i]).Some? :: R.txId(txs[i]).value
  }

  ghost function ConfirmedSpends(txs: seq<Tx>): set<OutPoint> {
    set i, op | 0 <= i < |txs| && op in OpSet(Consumed(txs[i])) :: op
  }

  /** The entries that a block neither confirms nor conflicts with. */
  ghost function Unaffected(R: Rules, es: Entries, txs: seq<Tx>): Entries {
    map id | id in es && id !in ConfirmedIds(R, txs) && OpSet(es[id].tx.inputs) !! ConfirmedSpends(txs) :: es[id]
  }

  /** An entry stays exactly if the block neither confirms it nor spends one of its inputs. */
  lemma UnaffectedMeans(R: Rules, es: Entries, txs: seq<Tx>, id: Hash256)
    ensures id in Unaffected(R, es, txs) <==>
              && id in es && (forall i | 0 <= i < |txs| :: R.txId(txs[i]) != Some(id))
              && (forall i, op | 0 <= i < |txs| && !IsCoinbase(txs[i]) && op in txs[i].inputs :: op !in es[id].tx.inputs)
    ensures id in Unaffected(R, es, txs) ==> Unaffected(R, es, txs)[id] == es[id]
  {
    if id in es {
      forall i, op | 0 <= i < |txs| && !IsCoinbase(txs[i]) && op in txs[i].inputs ensures op in ConfirmedSpends(txs) {
        assert op in OpSet(Consumed(txs[i]));
      }
      forall op | op in ConfirmedSpends(txs) ensures exists i :: 0 <= i < |txs| && !IsCoinbase(txs[i]) && op in txs[i].inputs {
        var i :| 0 <= i < |txs| && op in OpSet(Consumed(txs[i]));
        assert op in Consumed(txs[i]);
      }
      assert forall op :: op in OpSet(es[id].tx.inputs) <==> op in es[id].tx.inputs;
    }
  }

  lemma NoneConfirmed(R: Rules)
    ensures ConfirmedIds(R, []) == {} && ConfirmedSpends([]) == {}
  {
  }

  lemma ConfirmedStep(R: Rules, txs: seq<Tx>, i: nat)
    requires i < |txs|
    ensures ConfirmedIds(R, txs[..i + 1]) == ConfirmedIds(R, txs[..i]) + (if R.txId(txs[i]).Some? then {R.txId(txs[i]).value} else {})
    ensures ConfirmedSpends(txs[..i + 1]) == ConfirmedSpends(txs[..i]) + OpSet(Consumed(txs[i]))
    ensures IsCoinbase(txs[i]) ==> OpSet(Consumed(txs[i])) == {}
  {
    var a, b := txs[..i], txs[..i + 1];
    assert b == a + [txs[i]];
    forall id ensures id in ConfirmedIds(R, b) <==> id in ConfirmedIds(R, a) || R.txId(txs[i]) == Some(id) {
      if id in ConfirmedIds(R, a) {
        var j :| 0 <= j < i && R.txId(a[j]).Some? && R.txId(a[j]).value == id;
        assert b[j] == a[j];
      }
      if R.txId(txs[i]) == Some(id) { assert b[i] == txs[i]; }
      if id in ConfirmedIds(R, b) {
        var j :| 0 <= j < i + 1 && R.txId(b[j]).Some? && R.txId(b[j]).value == id;
        if j < i { assert a[j] == b[j]; }
      }
    }
    forall op ensures op in ConfirmedSpends(b) <==> op in ConfirmedSpends(a) || op in OpSet(Consumed(txs[i])) {
      if op in ConfirmedSpends(a) {
        var j :| 0 <= j < i && op in OpSet(Consumed(a[j]));
        assert b[j] == a[j];
      }
      if op in OpSet(Consumed(txs[i])) { assert b[i] == txs[i]; }
      if op in ConfirmedSpends(b) {
        var j :| 0 <= j < i + 1 && op in OpSet(Consumed(b[j]));
        if j < i { assert a[j] == b[j]; }
      }
    }
  }

  lemma DropTwice(es: Entries, a: set<Hash256>, b: set<Hash256>)
    ensures (es - a) - b == es - (a + b) && es - {} == es
  {
  }

  method CollectSpends(R: Rules, txs: seq<Tx>) returns (gone: set<OutPoint>)
    ensures gone == ConfirmedSpends(txs)
  {
    hide ConfirmedIds, ConfirmedSpends;
    gone := {};
    NoneConfirmed(R);
    for i := 0 to |txs|
      invariant gone == ConfirmedSpends(txs[..i])
    {
      ConfirmedStep(R, txs, i);
      if !IsCoinbase(txs[i]) { gone := AddInputs(gone, txs[i].inputs); }
    }
    assert txs[..|txs|] == txs;
  }

  lemma UnaffectedIs(R: Rules, before: Entries, txs: seq<Tx>, mid: Entries, after: Entries)
    requires mid == before - ConfirmedIds(R, txs)
    requires forall id | id in after :: id in mid && after[id] == mid[id]
    requires forall id | id in mid :: id in after <==> OpSet(mid[id].tx.inputs) !! ConfirmedSpends(txs)
    ensures after == Unaffected(R, before, txs)
  {
  }

  // ---- Selection for a block ----

  /** The ranking, best first. */
  ghost predicate BestFirst(order: seq<Rank>, ranks: set<Rank>) {
    && (forall i, j | 0 <= i < j < |order| :: Lower(order[j], order[i]))
    && (forall r :: r in ranks <==> r in order)
  }

  /** Along the ranking the density never rises. */
  lemma DenserFirst(order: seq<Rank>, ranks: set<Rank>, i: nat, j: nat)
    requires BestFirst(order, ranks) && i < j < |order|
    ensures order[i].0 >= order[j].0
  {
    LowerMeans(order[i], order[j]);
  }

  datatype Basket = Basket(txs: seq<Tx>, fees: nat, bytes: nat)

  /** Take the entry if it fits what is left of the block and of the fee counter. */
  function Choose(size: Tx -> nat, b: Basket, e: Entry, limit: nat): Basket {
    if b.bytes + size(e.tx) <= limit && b.fees + e.fee <= U64_MAX
    then Basket(b.txs + [e.tx], b.fees + e.fee, b.bytes + size(e.tx)) else b
  }

  function Greedy(size: Tx -> nat, es: Entries, order: seq<Rank>, limit: nat): Basket
    requires forall r | r in order :: r.1 in es
  {
    if order == [] then Basket([], 0, 0)
    else Choose(size, Greedy(size, es, order[..|order| - 1], limit), es[order[|order| - 1].1], limit)
  }

  /** The basket keeps its limits, and every transaction in it is an entry's. */
  lemma {:induction false} GreedyBounds(size: Tx -> nat, es: Entries, order: seq<Rank>, limit: nat)
    requires forall r | r in order :: r.1 in es
    ensures var b := Greedy(size, es, order, limit);
            b.bytes <= limit && b.fees <= U64_MAX && b.bytes == SumSizes(size, b.txs) && forall tx | tx in b.txs :: Pooled(es, tx)
  {
    hide Pooled;
    if order != [] {
      var init, last := order[..|order| - 1], order[|order| - 1];
      GreedyBounds(size, es, init, limit);
      var b := Greedy(size, es, init, limit);
      assert (b.txs + [es[last.1].tx])[..|b.txs|] == b.txs;
      IsPooled(es, last.1);
    }
  }

  /** The transaction is an entry's. */
  ghost predicate Pooled(es: Entries, tx: Tx) {
    exists id :: id in es && es[id].tx == tx
  }

  lemma IsPooled(es: Entries, id: Hash256)
    requires id in es
    ensures Pooled(es, es[id].tx)
  {
  }

  /**
   Every entry is taken exactly if, on top of those taken before its turn, it fits the block and the fee counter;
   taken ones are listed in the order of the ranking and bring their fee.
   */
  lemma GreedyTurn(size: Tx -> nat, es: Entries, order: seq<Rank>, limit: nat, k: nat)
    requires k < |order| && forall r | r in order :: r.1 in es
    ensures var before, after, e := Greedy(size, es, order[..k], limit), Greedy(size, es, order[..k + 1], limit), es[order[k].1];
            if SumSizes(size, before.txs) + size(e.tx) <= limit && before.fees + e.fee <= U64_MAX
            then after.txs == before.txs + [e.tx] && after.fees == before.fees + e.fee
            else after == before
  {
    assert order[..k + 1][..k] == order[..k];
    GreedyBounds(size, es, order[..k], limit);
  }

  /** What was taken by some turn stays, in front. */
  lemma {:induction false} GreedyKeeps(size: Tx -> nat, es: Entries, order: seq<Rank>, limit: nat, k: nat)
    requires k <= |order| && forall r | r in order :: r.1 in es
    ensures Greedy(size, es, order[..k], limit).txs <= Greedy(size, es, order, limit).txs
    decreases |order|
  {
    if k == |order| {
      assert order[..k] == order;
    } else {
      var n := |order| - 1;
      assert order[..n][..k] == order[..k];
      GreedyKeeps(size, es, order[..n], limit, k);
    }
  }

  /** An entry is selected, or did not fit when its turn came. */
  lemma LeftOutDidNotFit(size: Tx -> nat, es: Entries, order: seq<Rank>, limit: nat, k: nat)
    requires k < |order| && forall r | r in order :: r.1 in es
    ensures var before, e := Greedy(size, es, order[..k], limit), es[order[k].1];
            || e.tx in Greedy(size, es, order, limit).txs
            || SumSizes(size, before.txs) + size(e.tx) > limit || before.fees + e.fee > U64_MAX
  {
    hide Greedy, SumSizes;
    var before, e := Greedy(size, es, order[..k], limit), es[order[k].1];
    GreedyTurn(size, es, order, limit, k);
    GreedyKeeps(size, es, order, limit, k + 1);
    if SumSizes(size, before.txs) + size(e.tx) <= limit && before.fees + e.fee <= U64_MAX {
      assert Greedy(size, es, order, limit).txs[|before.txs|] == e.tx;
    }
  }

  function SumSizes(size: Tx -> nat, txs: seq<Tx>): nat {
    if txs == [] then 0 else SumSizes(size, txs[..|txs| - 1]) + size(txs[|txs| - 1])
  }

  method Highest(ranks: set<Rank>) returns (r: Rank)
    requires ranks != {}
    ensures r in ranks && forall x | x in ranks && x != r :: Lower(x, r)
  {
    r :| r in ranks;
    var todo := ranks - {r};
    while todo != {}
      invariant todo <= ranks && r in ranks && r !in todo && forall x | x in ranks && x !in todo && x != r :: Lower(x, r)
      decreases |todo|
    {
      var x :| x in todo;
      if Lower(r, x) { r := x; }
      todo := todo - {x};
    }
  }

  /**
   Walk the ranking from the top and take greedily. Here `size` is the serialized size, or more than any limit
   for a transaction that does not serialize, so that such a one is never taken.
   */
  method SelectTransactions(R: Rules, size: Tx -> nat, es: Entries, ranks: set<Rank>, limit: nat)
    returns (txs: seq<Tx>, fees: nat, ghost order: seq<Rank>)
    requires EntriesOk(R, es) && ranks == Ranks(es)
    ensures BestFirst(order, ranks) && (forall r | r in order :: r.1 in es)
    ensures txs == Greedy(size, es, order, limit).txs && fees == Greedy(size, es, order, limit).fees <= U64_MAX
    ensures SumSizes(size, txs) <= limit && forall tx | tx in txs :: Pooled(es, tx)
  {
    hide EntriesOk, Ranks, Pooled;
    var todo, basket := ranks, Basket([], 0, 0);
    order := [];
    while todo != {}
      invariant todo <= ranks && (forall r | r in order :: r in ranks && r !in todo && r.1 in es) && (forall r | r in ranks && r !in todo :: r in order)
      invariant forall i, j | 0 <= i < j < |order| :: Lower(order[j], order[i])
      invariant forall i, r | 0 <= i < |order| && r in todo :: Lower(r, order[i])
      invariant basket == Greedy(size, es, order, limit)
      decreases |todo|
    {
      var r := Highest(todo);
      RankIsEntry(R, es, r);
      ghost var before := order;
      order := order + [r];
      assert order[..|before|] == before;
      basket := Choose(size, basket, es[r.1], limit);
      todo := todo - {r};
    }
    GreedyBounds(size, es, order, limit);
    txs, fees := basket.txs, basket.fees;
  }

  /** No entry of the ranking is cheaper. */
  ghost predicate Cheapest(ranks: set<Rank>, density: nat) {
    ranks != {} && forall y | y in ranks :: density <= y.0
  }

  lemma AddBack(es: Entries, id: Hash256, e: Entry)
    requires id !in es
    ensures es[id := e] - {id} == es
  {
  }

  ghost predicate LowestRanked(es: Entries, id: Hash256) {
    id in es && forall x | x in Ranks(es) && x != RankOf(es[id]) :: Lower(RankOf(es[id]), x)
  }

  lemma WorstDensity(ranks: set<Rank>, worst: Rank, density: nat)
    requires worst in ranks && forall x | x in ranks && x != worst :: Lower(worst, x)
    ensures density <= worst.0 <==> Cheapest(ranks, density)
  {
  }

  lemma OutrankedSame(es: Entries)
    ensures Outranked(es, es)
  {
  }

  lemma SpentShrinks(before: Entries, after: Entries)
    requires Outranked(before, after)
    ensures SpentBy(after) <= SpentBy(before)
  {
    forall op | op in SpentBy(after) ensures op in SpentBy(before) {
      var id :| id in after && op in OpSet(after[id].tx.inputs);
      assert id in before && op in OpSet(before[id].tx.inputs);
    }
  }

  /** All tables after an entry is taken out. */
  lemma RemoveConsistent(R: Rules, size: Tx -> nat, es: Entries, ranks: set<Rank>, spent: set<OutPoint>, scripts: ScriptTable, total: nat, id: Hash256)
    requires Consistent(R, size, es, ranks, spent, scripts, total) && id in es
    ensures es[id].id == id && total >= size(es[id].tx)
    ensures forall t | Without(scripts, t, es[id]) ::
              Consistent(R, size, es - {id}, ranks - {RankOf(es[id])}, spent - OpSet(es[id].tx.inputs), t, total - size(es[id].tx))
  {
    hide ScriptsOk, SpentBy, Ranks, TotalSize;
    SizeRemove(size, es, id);
    SpentRemove(R, es, id);
    RanksRemove(R, es, id);
    EntriesRemove(R, es, id);
    forall t | Without(scripts, t, es[id]) ensures ScriptsOk(es - {id}, t) {
      ScriptsRemove(es, scripts, t, id);
    }
  }

  lemma InsertConsistent(R: Rules, size: Tx -> nat, es: Entries, ranks: set<Rank>, spent: set<OutPoint>, scripts: ScriptTable, total: nat, e: Entry)
    requires Consistent(R, size, es, ranks, spent, scripts, total)
    requires e.id !in es && R.txId(e.tx) == Some(e.id) && !IsCoinbase(e.tx) && OpSet(e.tx.inputs) !! SpentBy(es)
    ensures forall t | With(scripts, t, e) ::
              Consistent(R, size, es[e.id := e], ranks + {RankOf(e)}, spent + OpSet(e.tx.inputs), t, total + size(e.tx))
  {
    hide ScriptsOk, SpentBy, Ranks, TotalSize;
    SizeInsert(size, es, e);
    SpentInsert(es, e);
    RanksInsert(es, e);
    EntriesInsert(R, es, e);
    forall t | With(scripts, t, e) ensures ScriptsOk(es[e.id := e], t) {
      ScriptsInsert(es, scripts, t, e);
    }
  }

  lemma NoEmptyRows(R: Rules, size: Tx -> nat, es: Entries, ranks: set<Rank>, spent: set<OutPoint>, scripts: ScriptTable, total: nat)
    requires Consistent(R, size, es, ranks, spent, scripts, total)
    ensures forall s | s in scripts :: scripts[s] != {}
  {
  }

  lemma OneLess(es: Entries, id: Hash256)
    requires id in es
    ensures |es - {id}| == |es| - 1
  {
    assert es == (es - {id})[id := es[id]];
  }

  lemma Nobody(R: Rules, size: Tx -> nat, es: Entries, ranks: set<Rank>, spent: set<OutPoint>, scripts: ScriptTable, total: nat)
    requires Consistent(R, size, es, ranks, spent, scripts, total)
    ensures es == map[] ==> total == 0
  {
  }

  lemma ConsistentEntries(R: Rules, size: Tx -> nat, es: Entries, ranks: set<Rank>, spent: set<OutPoint>, scripts: ScriptTable, total: nat)
    requires Consistent(R, size, es, ranks, spent, scripts, total)
    ensures EntriesOk(R, es) && ranks == Ranks(es) && spent == SpentBy(es) && ScriptsOk(es, scripts)
  {
  }
}
