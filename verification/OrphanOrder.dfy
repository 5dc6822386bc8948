/**
 Undoing the orphans of a reorg on the persisted UTXO table, in whatever order they are listed: when it
 leads back to the fork point, and which entries it leaves behind when it does not.
 */
module OrphanOrder {
  import opened SmtSpec
  import opened Ledger
  import opened UtxoState
  import opened BlockSpec
  import opened Chain
  import opened DiskUndo
  import opened Headers
  import opened StorageSpec
  import opened Indexes

  // ---- A list of undos, outpoint by outpoint ----

  /** What the undo of a block takes away, and the row it writes back, keyed by what the block consumed. */
  datatype Effect = Effect(outs: set<OutPoint>, row: Utxos)

  ghost function UndoEffects(u: Utxos, s: seq<Effect>): Utxos
    decreases |s|
  {
    if s == [] then u else UndoEffects((u - s[0].outs) + s[0].row, s[1..])
  }

  ghost predicate Touches(e: Effect, op: OutPoint) {
    op in e.outs || op in e.row
  }

  /** No effect from the `n`-th on concerns the outpoint. */
  ghost predicate UntouchedFrom(s: seq<Effect>, n: nat, op: OutPoint) {
    forall k | n <= k < |s| :: !Touches(s[k], op)
  }

  ghost predicate Untouched(s: seq<Effect>, op: OutPoint) {
    UntouchedFrom(s, 0, op)
  }

  lemma {:induction false} UndoPasses(u: Utxos, s: seq<Effect>, op: OutPoint)
    requires Untouched(s, op)
    ensures op in UndoEffects(u, s) <==> op in u
    ensures op in u ==> UndoEffects(u, s)[op] == u[op]
    decreases |s|
  {
    if s != [] {
      assert !Touches(s[0], op);
      UndoPasses((u - s[0].outs) + s[0].row, s[1..], op);
    }
  }

  /** The last effect on an outpoint decides. */
  lemma {:induction false} LastDecides(u: Utxos, s: seq<Effect>, k: nat, op: OutPoint)
    requires k < |s| && Touches(s[k], op) && UntouchedFrom(s, k + 1, op)
    ensures op in UndoEffects(u, s) <==> op in s[k].row
    ensures op in s[k].row ==> UndoEffects(u, s)[op] == s[k].row[op]
    decreases |s|
  {
    var w := (u - s[0].outs) + s[0].row;
    if k == 0 {
      UndoPasses(w, s[1..], op);
    } else {
      LastDecides(w, s[1..], k - 1, op);
    }
  }

  lemma {:induction false} LastTouch(s: seq<Effect>, n: nat, op: OutPoint) returns (k: nat)
    requires n <= |s| && UntouchedFrom(s, n, op) && !Untouched(s, op)
    ensures k < |s| && Touches(s[k], op) && UntouchedFrom(s, k + 1, op)
    decreases n
  {
    if Touches(s[n - 1], op) {
      k := n - 1;
    } else {
      k := LastTouch(s, n - 1, op);
    }
  }

  /** Created by one effect, written back by the same or a later one. */
  ghost predicate Returns(s: seq<Effect>, op: OutPoint) {
    exists i, j :: 0 <= i <= j < |s| && op in s[i].outs && op in s[j].row
  }

  ghost predicate Outside(s: seq<Effect>, op: OutPoint) {
    forall k | 0 <= k < |s| :: op !in s[k].outs
  }

  /** Facts about one outpoint: it is created at most once and then not below; else its rows are the entry below. */
  ghost predicate Sound(base: Utxos, s: seq<Effect>, op: OutPoint) {
    && (forall i, j | 0 <= i < j < |s| && op in s[i].outs :: op !in s[j].outs)
    && (!Outside(s, op) ==> op !in base)
    && (Outside(s, op) ==> forall k | 0 <= k < |s| && op in s[k].row :: op in base && s[k].row[op] == base[op])
  }

  /** An outpoint is wrongly left behind if and only if it returns. */
  lemma UndoneAt(base: Utxos, u: Utxos, s: seq<Effect>, op: OutPoint)
    requires Sound(base, s, op) && (Untouched(s, op) && op in u ==> op in base && u[op] == base[op])
    ensures Returns(s, op) ==> op in UndoEffects(u, s) && op !in base
    ensures !Returns(s, op) && op in UndoEffects(u, s) ==> op in base && UndoEffects(u, s)[op] == base[op]
    ensures !Returns(s, op) && op in base && (Untouched(s, op) ==> op in u) ==> op in UndoEffects(u, s)
  {
    if Untouched(s, op) {
      UndoPasses(u, s, op);
      forall i | 0 <= i < |s| ensures op !in s[i].outs && op !in s[i].row {
        assert !Touches(s[i], op);
      }
    } else {
      var k := LastTouch(s, |s|, op);
      LastDecides(u, s, k, op);
      forall j | k < j < |s| ensures op !in s[j].outs && op !in s[j].row {
        assert !Touches(s[j], op);
      }
    }
  }

  // ---- The orphans of a chain ----

  ghost function EffectOf(R: Rules, spent: map<Hash256, SpentList>, b: Block): Effect {
    Effect(OutputsOf(R, b.txs), PrevMap(RowOf(spent, Id(R, b))))
  }

  ghost function EffectsOf(R: Rules, spent: map<Hash256, SpentList>, orphans: seq<Block>): (s: seq<Effect>)
    ensures |s| == |orphans| && forall k | 0 <= k < |s| :: s[k] == EffectOf(R, spent, orphans[k])
  {
    seq(|orphans|, k requires 0 <= k < |orphans| => EffectOf(R, spent, orphans[k]))
  }

  lemma {:induction false} UndoIsEffects(R: Rules, u: Utxos, spent: map<Hash256, SpentList>, orphans: seq<Block>)
    ensures UndoOrphans(R, u, spent, orphans) == UndoEffects(u, EffectsOf(R, spent, orphans))
    decreases |orphans|
  {
    hide OutputsOf, PrevMap, RowOf;
    if orphans != [] {
      var s := EffectsOf(R, spent, orphans);
      assert s[1..] == EffectsOf(R, spent, orphans[1..]);
      assert s[0] == EffectOf(R, spent, orphans[0]);
      UndoIsEffects(R, UndoneOnDisk(R, u, orphans[0].txs, RowOf(spent, Id(R, orphans[0]))), spent, orphans[1..]);
    }
  }

  /** The orphans are the blocks from height `f` on, `order` being their heights as listed. */
  ghost predicate Rearranged(c: seq<Block>, f: nat, order: seq<nat>, orphans: seq<Block>) {
    && |orphans| == |order|
    && (forall k | 0 <= k < |order| :: f <= order[k] < |c| && orphans[k] == c[order[k]])
    && (forall i, j | 0 <= i < j < |order| :: order[i] != order[j])
    && (forall h | f <= h < |c| :: h in order)
  }

  /** The table gives every orphan its own spent row. */
  ghost predicate OwnRows(R: Rules, c: seq<Block>, f: nat, spent: map<Hash256, SpentList>) {
    forall i | f <= i < |c| :: OwnRow(R, c, spent, i)
  }

  ghost predicate OwnRow(R: Rules, c: seq<Block>, spent: map<Hash256, SpentList>, i: nat)
    requires i < |c|
  {
    RowOf(spent, Id(R, c[i])) == SpentRow(R, c[..i + 1])
  }

  /** Whenever an orphan spends an output of an orphan, it is another one and listed earlier. */
  ghost predicate SpendersFirst(R: Rules, orphans: seq<Block>) {
    forall i, j | 0 <= i <= j < |orphans| :: ConsumedBy(orphans[j].txs) !! OutputsOf(R, orphans[i].txs)
  }

  /** An output of an orphan that the same or a later listed orphan spends. */
  ghost predicate LeftBehind(R: Rules, orphans: seq<Block>, op: OutPoint) {
    exists i, j :: 0 <= i <= j < |orphans| && op in OutputsOf(R, orphans[i].txs) && op in ConsumedBy(orphans[j].txs)
  }

  lemma SpendersFirstIff(R: Rules, orphans: seq<Block>)
    ensures SpendersFirst(R, orphans) <==> forall op :: !LeftBehind(R, orphans, op)
  {
    hide ConsumedBy, OutputsOf;
    if forall op :: !LeftBehind(R, orphans, op) {
      forall i, j, op | 0 <= i <= j < |orphans| && op in ConsumedBy(orphans[j].txs) ensures op !in OutputsOf(R, orphans[i].txs) {
        assert !LeftBehind(R, orphans, op);
      }
    }
  }

  lemma OwnerOfOutput(R: Rules, c: seq<Block>, h: nat, op: OutPoint)
    requires h < |c| && op in OutputsOf(R, c[h].txs)
    ensures op.txId in TxIds(R, c[h].txs)
  {
    hide OutputsOf;
    var i := OutputOwner(R, c[h].txs, op);
    assert R.txId(c[h].txs[i]).Some? && R.txId(c[h].txs[i]).value == op.txId;
  }

  /** No outpoint is created at two heights. */
  lemma OutputsApart(R: Rules, c: seq<Block>, g: nat, h: nat, op: OutPoint)
    requires Lawful(R) && Accepted(R, c) && g < |c| && h < |c| && g != h && op in OutputsOf(R, c[g].txs)
    ensures op !in OutputsOf(R, c[h].txs)
  {
    hide Lawful, Accepted, OutputsOf, TxIds;
    OwnerOfOutput(R, c, g, op);
    if op in OutputsOf(R, c[h].txs) {
      OwnerOfOutput(R, c, h, op);
      if g < h {
        IdsApart(R, c, g, h, op.txId);
      } else {
        IdsApart(R, c, h, g, op.txId);
      }
    }
  }

  lemma {:induction false} HistoryGrows(R: Rules, c: seq<Block>, n: nat, id: Hash256)
    requires n <= |c| && HasId(R, HistoryOf(c[..n]), id)
    ensures HasId(R, HistoryOf(c), id)
  {
    hide HasId, PlaceAll;
    if n == |c| {
      assert c[..n] == c;
    } else {
      var m := |c| - 1;
      assert c[..m][..n] == c[..n];
      HistoryGrows(R, c[..m], n, id);
      HasIdGrows(R, HistoryOf(c[..m]), PlaceAll(c[m].txs, c[m].header.height), id);
    }
  }

  /** An output is not unspent below the height that creates it. */
  lemma NotYetThere(R: Rules, c: seq<Block>, f: nat, h: nat, op: OutPoint)
    requires Lawful(R) && Accepted(R, c) && f <= h < |c| && op in OutputsOf(R, c[h].txs)
    ensures op !in UtxosAt(R, c[..f])
  {
    hide Lawful, Accepted, OutputsOf, TxIds, UtxosAt, HistoryOf, HasId, UniqueIds, SpentOnce, CoinbasesTagged, Sane;
    AcceptedPrefix(R, c, f);
    AcceptedPrefix(R, c, h + 1);
    ChainConsistent(R, c[..f]);
    var p := c[..h + 1];
    assert p[..h] == c[..h] && p[h] == c[h] && c[..h][..f] == c[..f];
    var i := OutputOwner(R, p[h].txs, op);
    UnseenId(R, p, i);
    if HasId(R, HistoryOf(c[..f]), op.txId) { HistoryGrows(R, c[..h], f, op.txId); }
  }

  /** None of the blocks from height `f` on creates the outpoint. */
  ghost predicate NoneCreates(R: Rules, c: seq<Block>, f: nat, op: OutPoint) {
    forall h | f <= h < |c| :: op !in OutputsOf(R, c[h].txs)
  }

  ghost predicate NoneConsumes(c: seq<Block>, f: nat, op: OutPoint) {
    forall h | f <= h < |c| :: op !in ConsumedBy(c[h].txs)
  }

  /** What happens to an entry that the blocks from height `f` on do not create. */
  lemma {:induction false} EntryPasses(R: Rules, c: seq<Block>, f: nat, op: OutPoint)
    requires Lawful(R) && Accepted(R, c) && f <= |c| && NoneCreates(R, c, f, op)
    ensures op in UtxosAt(R, c) <==> op in UtxosAt(R, c[..f]) && NoneConsumes(c, f, op)
    ensures op in UtxosAt(R, c) ==> UtxosAt(R, c)[op] == UtxosAt(R, c[..f])[op]
    decreases |c|
  {
    hide Lawful, Accepted, OutputsOf, ConsumedBy, UtxosAt, After, Flows, Clean, Accepts;
    if f == |c| {
      assert c[..f] == c;
    } else {
      var n := |c| - 1;
      var p := c[..n];
      LastBlock(R, c);
      assert p[..f] == c[..f];
      EntryPasses(R, p, f, op);
      BlockPasses(R, c, op);
    }
  }

  lemma BlockPasses(R: Rules, c: seq<Block>, op: OutPoint)
    requires Lawful(R) && Accepted(R, c) && c != [] && op !in OutputsOf(R, c[|c| - 1].txs)
    ensures op in UtxosAt(R, c) <==> op in UtxosAt(R, c[..|c| - 1]) && op !in ConsumedBy(c[|c| - 1].txs)
    ensures op in UtxosAt(R, c) ==> UtxosAt(R, c)[op] == UtxosAt(R, c[..|c| - 1])[op]
  {
    hide Lawful, Accepted, OutputsOf, ConsumedBy, UtxosAt, After, Flows, Clean;
    var u, b := UtxosAt(R, c[..|c| - 1]), c[|c| - 1];
    AcceptedClean(R, c);
    RunStripped(R, u, b.txs, b.header.height, |b.txs|);
    assert b.txs[..|b.txs|] == b.txs;
    StrippedSame(UtxosAt(R, c), u, OutputsOf(R, b.txs), ConsumedBy(b.txs), op);
  }

  lemma StrippedSame(w: Utxos, u: Utxos, outs: set<OutPoint>, gone: set<OutPoint>, op: OutPoint)
    requires w - outs == u - gone && op !in outs
    ensures op in w <==> op in u && op !in gone
    ensures op in w ==> w[op] == u[op]
  {
    assert op in w - outs <==> op in u - gone;
    if op in w { assert (w - outs)[op] == (u - gone)[op]; }
  }

  /** The row of a block is keyed by what it consumed, and holds the old entry of whatever it did not create. */
  lemma RowOfBlock(R: Rules, c: seq<Block>, op: OutPoint)
    requires Lawful(R) && Accepted(R, c) && c != []
    ensures op in PrevMap(SpentRow(R, c)) <==> op in ConsumedBy(c[|c| - 1].txs)
    ensures op in ConsumedBy(c[|c| - 1].txs) && op !in OutputsOf(R, c[|c| - 1].txs) ==>
              && op in PrevMap(SpentRow(R, c)) && op in UtxosAt(R, c[..|c| - 1])
              && PrevMap(SpentRow(R, c))[op] == UtxosAt(R, c[..|c| - 1])[op]
  {
    hide Lawful, Accepted, OutputsOf, ConsumedBy, UtxosAt, After, Flows, Clean, SpentAfter, PrevMap, Accepts;
    var u, b := UtxosAt(R, c[..|c| - 1]), c[|c| - 1];
    var n := |b.txs|;
    AcceptedClean(R, c);
    LastBlock(R, c);
    assert b.txs[..n] == b.txs;
    RowKeys(R, u, b.txs, b.header.height, n);
    if op in ConsumedBy(b.txs) && op !in OutputsOf(R, b.txs) {
      RowValues(R, u, b.txs, b.header.height, n, op);
    }
  }

  /** An outpoint that a block consumes and no block from height `f` on creates is unspent at the fork point. */
  lemma RowBelow(R: Rules, c: seq<Block>, f: nat, h: nat, op: OutPoint)
    requires Lawful(R) && Accepted(R, c) && f <= h < |c| && NoneCreates(R, c, f, op) && op in ConsumedBy(c[h].txs)
    ensures op in PrevMap(SpentRow(R, c[..h + 1])) && op in UtxosAt(R, c[..f])
    ensures PrevMap(SpentRow(R, c[..h + 1]))[op] == UtxosAt(R, c[..f])[op]
  {
    hide Lawful, Accepted, OutputsOf, ConsumedBy, UtxosAt, SpentRow, PrevMap;
    AcceptedPrefix(R, c, h + 1);
    AcceptedPrefix(R, c, h);
    var p := c[..h + 1];
    assert p[..|p| - 1] == c[..h] && p[h] == c[h] && c[..h][..f] == c[..f];
    RowOfBlock(R, p, op);
    EntryPasses(R, c[..h], f, op);
  }

  // ---- The order of the orphans ----

  /** A listed orphan, seen as an effect. */
  lemma ListedAt(R: Rules, c: seq<Block>, f: nat, order: seq<nat>, orphans: seq<Block>, spent: map<Hash256, SpentList>, k: nat, op: OutPoint)
    requires Lawful(R) && Accepted(R, c) && f <= |c| && Rearranged(c, f, order, orphans) && OwnRows(R, c, f, spent) && k < |orphans|
    ensures var e := EffectsOf(R, spent, orphans)[k];
            && e.outs == OutputsOf(R, orphans[k].txs) && e.row == PrevMap(SpentRow(R, c[..order[k] + 1]))
            && (op in e.row <==> op in ConsumedBy(orphans[k].txs))
  {
    hide Lawful, Accepted, OutputsOf, ConsumedBy, SpentRow, PrevMap, RowOf;
    var h := order[k];
    assert OwnRow(R, c, spent, h);
    AcceptedPrefix(R, c, h + 1);
    assert c[..h + 1][h] == c[h];
    RowOfBlock(R, c[..h + 1], op);
  }

  lemma ListedOutside(R: Rules, c: seq<Block>, f: nat, order: seq<nat>, orphans: seq<Block>, spent: map<Hash256, SpentList>, op: OutPoint)
    requires Lawful(R) && Accepted(R, c) && f <= |c| && Rearranged(c, f, order, orphans) && OwnRows(R, c, f, spent)
    ensures var s := EffectsOf(R, spent, orphans);
            && (Outside(s, op) <==> NoneCreates(R, c, f, op))
            && (Untouched(s, op) <==> NoneCreates(R, c, f, op) && NoneConsumes(c, f, op))
            && (Returns(s, op) <==> LeftBehind(R, orphans, op))
  {
    hide Lawful, Accepted, OutputsOf, ConsumedBy, SpentRow, PrevMap, EffectsOf, OwnRows;
    var s := EffectsOf(R, spent, orphans);
    forall k | 0 <= k < |s|
      ensures s[k].outs == OutputsOf(R, orphans[k].txs) && (op in s[k].row <==> op in ConsumedBy(orphans[k].txs))
      ensures orphans[k] == c[order[k]] && f <= order[k] < |c|
    {
      ListedAt(R, c, f, order, orphans, spent, k, op);
    }
    forall h | f <= h < |c| ensures exists k :: 0 <= k < |s| && order[k] == h && orphans[k] == c[h] {
      assert h in order;
      var k :| 0 <= k < |order| && order[k] == h;
      assert orphans[k] == c[h];
    }
  }

  lemma ListedSound(R: Rules, c: seq<Block>, f: nat, order: seq<nat>, orphans: seq<Block>, spent: map<Hash256, SpentList>, op: OutPoint)
    requires Lawful(R) && Accepted(R, c) && f <= |c| && Rearranged(c, f, order, orphans) && OwnRows(R, c, f, spent)
    ensures Sound(UtxosAt(R, c[..f]), EffectsOf(R, spent, orphans), op)
  {
    hide Lawful, Accepted, OutputsOf, ConsumedBy, SpentRow, PrevMap, EffectsOf, OwnRows, UtxosAt, Outside, Untouched, Returns, LeftBehind, NoneConsumes;
    var s, base := EffectsOf(R, spent, orphans), UtxosAt(R, c[..f]);
    ListedOutside(R, c, f, order, orphans, spent, op);
    forall i, j | 0 <= i < j < |s| && op in s[i].outs ensures op !in s[j].outs {
      ListedAt(R, c, f, order, orphans, spent, i, op);
      ListedAt(R, c, f, order, orphans, spent, j, op);
      OutputsApart(R, c, order[i], order[j], op);
    }
    if !NoneCreates(R, c, f, op) {
      var h :| f <= h < |c| && op in OutputsOf(R, c[h].txs);
      NotYetThere(R, c, f, h, op);
    } else {
      forall k | 0 <= k < |s| && op in s[k].row ensures op in base && s[k].row[op] == base[op] {
        ListedAt(R, c, f, order, orphans, spent, k, op);
        RowBelow(R, c, f, order[k], op);
      }
    }
  }

  /** From a table within the chain's map, the undo is wrong at an outpoint if and only if it is left behind. */
  lemma ListUndoneAt(R: Rules, c: seq<Block>, f: nat, order: seq<nat>, orphans: seq<Block>, spent: map<Hash256, SpentList>, u: Utxos, op: OutPoint)
    requires Lawful(R) && Accepted(R, c) && f <= |c| && Rearranged(c, f, order, orphans) && OwnRows(R, c, f, spent) && Within(u, UtxosAt(R, c))
    ensures var x, base := UndoOrphans(R, u, spent, orphans), UtxosAt(R, c[..f]);
            && (LeftBehind(R, orphans, op) ==> op in x && op !in base)
            && (!LeftBehind(R, orphans, op) && op in x ==> op in base && x[op] == base[op])
            && (!LeftBehind(R, orphans, op) && op in base && u == UtxosAt(R, c) ==> op in x)
  {
    hide Lawful, Accepted, UndoOrphans, EffectsOf, OwnRows, UtxosAt, Untouched, Returns, LeftBehind, Rearranged, Sound, NoneConsumes, NoneCreates;
    var s := EffectsOf(R, spent, orphans);
    UndoIsEffects(R, u, spent, orphans);
    ListedOutside(R, c, f, order, orphans, spent, op);
    ListedSound(R, c, f, order, orphans, spent, op);
    if Untouched(s, op) { EntryPasses(R, c, f, op); }
    UndoneAt(UtxosAt(R, c[..f]), u, s, op);
  }

  /**
   For every accepted chain, every fork point and every listing of the blocks above it: undoing them in that
   order leads back to the fork point if and only if every orphan that spends an output of an orphan is
   another one and listed before it.
   */
  lemma ReorgOrderIff(R: Rules, c: seq<Block>, f: nat, order: seq<nat>, orphans: seq<Block>, spent: map<Hash256, SpentList>)
    requires Lawful(R) && Accepted(R, c) && f <= |c| && Rearranged(c, f, order, orphans) && OwnRows(R, c, f, spent)
    ensures SpendersFirst(R, orphans) <==> UndoOrphans(R, UtxosAt(R, c), spent, orphans) == UtxosAt(R, c[..f])
  {
    hide Lawful, Accepted, UndoOrphans, OwnRows, UtxosAt, LeftBehind, Rearranged, SpendersFirst;
    var u := UtxosAt(R, c);
    SpendersFirstIff(R, orphans);
    forall op {
      ListUndoneAt(R, c, f, order, orphans, spent, u, op);
    }
    if SpendersFirst(R, orphans) {
      assert UndoOrphans(R, u, spent, orphans) == UtxosAt(R, c[..f]);
    }
  }

  /** The blocks above height `f - 1`, newest first. */
  function NewestFirst(c: seq<Block>, f: nat): seq<Block>
    requires f <= |c|
    decreases |c|
  {
    if |c| == f then [] else [c[|c| - 1]] + NewestFirst(c[..|c| - 1], f)
  }

  ghost function Downwards(n: nat, f: nat): (order: seq<nat>)
    requires f <= n
    ensures |order| == n - f && forall k | 0 <= k < |order| :: order[k] == n - 1 - k
  {
    seq(n - f, k requires 0 <= k < n - f => n - 1 - k)
  }

  lemma {:induction false} NewestFirstAt(c: seq<Block>, f: nat)
    requires f <= |c|
    ensures |NewestFirst(c, f)| == |c| - f && forall k | 0 <= k < |c| - f :: NewestFirst(c, f)[k] == c[|c| - 1 - k]
    decreases |c|
  {
    if f < |c| { NewestFirstAt(c[..|c| - 1], f); }
  }

  lemma NewestFirstListed(c: seq<Block>, f: nat)
    requires f <= |c|
    ensures Rearranged(c, f, Downwards(|c|, f), NewestFirst(c, f))
  {
    NewestFirstAt(c, f);
    var order := Downwards(|c|, f);
    forall h | f <= h < |c| ensures h in order { assert order[|c| - 1 - h] == h; }
  }

  /** A block spends no output of a later one. */
  lemma SpendsOnlyEarlier(R: Rules, c: seq<Block>, g: nat, h: nat)
    requires Lawful(R) && Accepted(R, c) && g < h < |c|
    ensures ConsumedBy(c[g].txs) !! OutputsOf(R, c[h].txs)
  {
    hide Lawful, Accepted, OutputsOf, ConsumedBy, UtxosAt, SpentRow, PrevMap;
    AcceptedPrefix(R, c, g + 1);
    var p := c[..g + 1];
    assert p[..g] == c[..g] && p[g] == c[g];
    forall op | op in ConsumedBy(c[g].txs) && op in OutputsOf(R, c[h].txs) ensures false {
      OutputsApart(R, c, h, g, op);
      RowOfBlock(R, p, op);
      NotYetThere(R, c, g, h, op);
    }
  }

  /** Newest first is right for every chain whose blocks above the fork point spend none of their own outputs, and only then. */
  lemma NewestFirstIff(R: Rules, c: seq<Block>, f: nat)
    requires Lawful(R) && Accepted(R, c) && f <= |c|
    ensures SpendersFirst(R, NewestFirst(c, f)) <==> forall h | f <= h < |c| :: !SelfSpends(R, c[h].txs)
  {
    hide Lawful, Accepted, OutputsOf, ConsumedBy, NewestFirst;
    var s := NewestFirst(c, f);
    NewestFirstAt(c, f);
    forall h | f <= h < |c| ensures !SelfSpends(R, c[h].txs) <==> ConsumedBy(c[h].txs) !! OutputsOf(R, c[h].txs) {
      SelfSpendsMeans(R, c[h].txs);
    }
    forall h | f <= h < |c| ensures s[|c| - 1 - h] == c[h] {}
    forall i, j | 0 <= i < j < |s| ensures ConsumedBy(s[j].txs) !! OutputsOf(R, s[i].txs) {
      SpendsOnlyEarlier(R, c, |c| - 1 - j, |c| - 1 - i);
    }
  }

  lemma SelfSpendsMeans(R: Rules, txs: seq<Tx>)
    ensures !SelfSpends(R, txs) <==> ConsumedBy(txs) !! OutputsOf(R, txs)
  {
    hide OutputsOf, ConsumedBy;
  }

  /** The last two blocks taken oldest first. */
  lemma OldestFirstIff(R: Rules, c: seq<Block>, spent: map<Hash256, SpentList>)
    requires Lawful(R) && Accepted(R, c) && |c| >= 2 && OwnRows(R, c, |c| - 2, spent)
    ensures var n := |c|;
            var older, newer := c[n - 2], c[n - 1];
            !SelfSpends(R, older.txs) && !SelfSpends(R, newer.txs) && ConsumedBy(newer.txs) !! OutputsOf(R, older.txs) <==>
              UndoOrphans(R, UtxosAt(R, c), spent, [older, newer]) == UtxosAt(R, c[..n - 2])
  {
    hide Lawful, Accepted, OutputsOf, ConsumedBy, UtxosAt, UndoOrphans, OwnRows, SelfSpends;
    var n := |c|;
    var order, s: seq<Block> := [n - 2, n - 1], [c[n - 2], c[n - 1]];
    forall h | n - 2 <= h < n ensures h in order { assert order[h - (n - 2)] == h; }
    ReorgOrderIff(R, c, n - 2, order, s, spent);
    SelfSpendsMeans(R, c[n - 2].txs);
    SelfSpendsMeans(R, c[n - 1].txs);
    if SpendersFirst(R, s) {
      assert ConsumedBy(s[0].txs) !! OutputsOf(R, s[0].txs);
      assert ConsumedBy(s[1].txs) !! OutputsOf(R, s[0].txs);
      assert ConsumedBy(s[1].txs) !! OutputsOf(R, s[1].txs);
    }
  }
}
