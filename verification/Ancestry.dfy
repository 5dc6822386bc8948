/**
 Walks over stored headers towards genesis: the timestamps for the median and the target of the next block.
 On the headers of a linked chain they see exactly that chain.
 */
module Ancestry {
  import opened SmtSpec
  import opened WorkSpec
  import opened Ledger
  import opened MedianTime
  import opened Headers
  import Difficulty

  type HeaderTable = map<Hash256, Header>

  /** 2 to the power 248. */
  const GENESIS_TARGET: U256 := 0x0100_0000_0000_0000_0000_0000_0000_0000_0000_0000_0000_0000_0000_0000_0000_0000

  // ---- What the walks compute ----

  /** The id reached after `n` parent links, or the ancestor that is missing. */
  function Back(t: HeaderTable, id: Hash256, n: nat): Result<Hash256, Hash256>
    decreases n
  {
    if n == 0 then Ok(id) else if id !in t then Err(id) else Back(t, t[id].prevId, n - 1)
  }

  /** The target of a block with this parent and height, or the ancestor that is missing. */
  function TargetOver(t: HeaderTable, prevId: Hash256, height: nat): Result<U256, Hash256> {
    if height == 0 then Ok(GENESIS_TARGET)
    else if prevId !in t then Err(prevId)
    else if height % RETARGET_WINDOW != 0 then Ok(t[prevId].target)
    else
      var start := Back(t, prevId, RETARGET_WINDOW - 1);
      if start.Err? then Err(start.error)
      else if start.value !in t then Err(start.value)
      else Ok(Retarget(t[prevId].target, SatSub(t[prevId].timestamp, t[start.value].timestamp)))
  }

  /** Timestamps from a block towards genesis, until the count, the first block or a gap. */
  function TimesOver(t: HeaderTable, id: Hash256, n: nat): seq<nat>
    decreases n
  {
    if n == 0 || id !in t then []
    else if t[id].prevId == ZERO then [t[id].timestamp]
    else [t[id].timestamp] + TimesOver(t, t[id].prevId, n - 1)
  }

  method GetAncestorTimestamps(t: HeaderTable, id: Hash256, count: nat) returns (ts: seq<nat>)
    ensures ts == TimesOver(t, id, count)
  {
    ts := [];
    var current := id;
    for i := 0 to count
      invariant ts + TimesOver(t, current, count - i) == TimesOver(t, id, count)
    {
      if current !in t { return; }
      ts := ts + [t[current].timestamp];
      if t[current].prevId == ZERO { return; }
      current := t[current].prevId;
    }
  }

  method ExpectedDifficulty(t: HeaderTable, prevId: Hash256, height: nat) returns (r: Result<U256, Hash256>)
    ensures r == TargetOver(t, prevId, height)
  {
    if height == 0 { return Ok(GENESIS_TARGET); }
    if prevId !in t { return Err(prevId); }
    var parent := t[prevId];
    if height % RETARGET_WINDOW != 0 { return Ok(parent.target); }
    var current := prevId;
    for i := 0 to RETARGET_WINDOW - 1
      invariant Back(t, current, RETARGET_WINDOW - 1 - i) == Back(t, prevId, RETARGET_WINDOW - 1)
    {
      if current !in t { return Err(current); }
      current := t[current].prevId;
    }
    if current !in t { return Err(current); }
    r := Ok(Retarget(parent.target, SatSub(parent.timestamp, t[current].timestamp)));
  }

  // ---- The overlay ----

  /** Headers that are validated but not stored yet, over the stored ones. */
  class ForwardHeaderOverlay {
    const R: Rules
    const stored: HeaderTable
    var overlay: HeaderTable

    constructor (R: Rules, stored: HeaderTable)
      ensures this.R == R && this.stored == stored && overlay == map[]
    {
      this.R, this.stored, overlay := R, stored, map[];
    }

    method Insert(header: Header)
      modifies this
      ensures overlay == old(overlay)[R.blockId(header) := header]
    {
      overlay := overlay[R.blockId(header) := header];
    }

    function GetHeader(id: Hash256): (h: Option<Header>)
      reads this
      ensures h == if id in stored + overlay then Some((stored + overlay)[id]) else None
    {
      if id in overlay then Some(overlay[id]) else if id in stored then Some(stored[id]) else None
    }

    method ExpectedDifficultyOverlay(prevId: Hash256, height: nat) returns (r: Result<U256, Hash256>)
      ensures r == TargetOver(stored + overlay, prevId, height)
    {
      if height == 0 { return Ok(GENESIS_TARGET); }
      var parent := GetHeader(prevId);
      if parent.None? { return Err(prevId); }
      if height % RETARGET_WINDOW != 0 { return Ok(parent.value.target); }
      var current := prevId;
      for i := 0 to RETARGET_WINDOW - 1
        invariant Back(stored + overlay, current, RETARGET_WINDOW - 1 - i) == Back(stored + overlay, prevId, RETARGET_WINDOW - 1)
      {
        var hdr := GetHeader(current);
        if hdr.None? { return Err(current); }
        current := hdr.value.prevId;
      }
      var start := GetHeader(current);
      if start.None? { return Err(current); }
      r := Ok(Retarget(parent.value.target, SatSub(parent.value.timestamp, start.value.timestamp)));
    }
  }

  /** Every header is stored under its own id. */
  ghost predicate OwnIds(R: Rules, t: HeaderTable) {
    forall id | id in t :: R.blockId(t[id]) == id
  }

  lemma {:induction false} BackGrows(R: Rules, t: HeaderTable, o: HeaderTable, id: Hash256, n: nat)
    requires LawfulBlocks(R) && OwnIds(R, t) && OwnIds(R, o) && Back(t, id, n).Ok?
    ensures Back(t + o, id, n) == Back(t, id, n)
    decreases n
  {
    if n > 0 {
      if id in o { assert t[id] == o[id]; }
      BackGrows(R, t, o, t[id].prevId, n - 1);
    }
  }

  /**
   Wherever the stored headers suffice to compute a target, an overlay of any further headers gives the same:
   tip validation and block validation cannot disagree.
   */
  lemma OverlayAgrees(R: Rules, t: HeaderTable, o: HeaderTable, prevId: Hash256, height: nat)
    requires LawfulBlocks(R) && OwnIds(R, t) && OwnIds(R, o) && TargetOver(t, prevId, height).Ok?
    ensures TargetOver(t + o, prevId, height) == TargetOver(t, prevId, height)
  {
    hide Retarget, Back;
    if height > 0 {
      SameHeader(R, t, o, prevId);
      if height % RETARGET_WINDOW == 0 {
        BackGrows(R, t, o, prevId, RETARGET_WINDOW - 1);
        SameHeader(R, t, o, Back(t, prevId, RETARGET_WINDOW - 1).value);
      }
    }
  }

  lemma SameHeader(R: Rules, t: HeaderTable, o: HeaderTable, id: Hash256)
    requires LawfulBlocks(R) && OwnIds(R, t) && OwnIds(R, o) && id in t
    ensures (t + o)[id] == t[id]
  {
    if id in o { assert R.blockId(t[id]) == R.blockId(o[id]); }
  }

  // ---- On the headers of a chain ----

  /** The table has the headers of the chain. */
  ghost predicate HasHeaders(R: Rules, t: HeaderTable, c: seq<Block>) {
    forall i | 0 <= i < |c| :: Id(R, c[i]) in t && t[Id(R, c[i])] == c[i].header
  }

  lemma {:induction false} BackOnChain(R: Rules, t: HeaderTable, c: seq<Block>, k: nat, n: nat)
    requires Linked(R, c) && HasHeaders(R, t, c) && n <= k < |c|
    ensures Back(t, Id(R, c[k]), n) == Ok(Id(R, c[k - n]))
    decreases n
  {
    if n > 0 {
      BackOnChain(R, t, c, k - 1, n - 1);
    }
  }

  /** The walk from the tip computes the target that the chain prescribes for its next block. */
  lemma TargetOnChain(R: Rules, t: HeaderTable, c: seq<Block>)
    requires Linked(R, c) && HasHeaders(R, t, c) && c != []
    ensures TargetOver(t, Id(R, c[|c| - 1]), |c|) == Ok(NextTarget(c))
  {
    hide Linked, Back, Retarget;
    var n := |c| - 1;
    if |c| % RETARGET_WINDOW == 0 {
      WholeWindow(|c|);
      BackOnChain(R, t, c, n, RETARGET_WINDOW - 1);
      assert n - (RETARGET_WINDOW - 1) == |c| - RETARGET_WINDOW;
    }
  }

  /** A window that took its 43190 seconds leaves a nonzero target as it is, for the chain and for the walk. */
  lemma SteadyWindow(R: Rules, t: HeaderTable, c: seq<Block>)
    requires Linked(R, c) && HasHeaders(R, t, c) && c != [] && |c| % RETARGET_WINDOW == 0 && c[|c| - 1].header.target > 0
    requires |c| >= RETARGET_WINDOW && c[|c| - 1].header.timestamp == c[|c| - RETARGET_WINDOW].header.timestamp + 43_190
    ensures NextTarget(c) == c[|c| - 1].header.target
    ensures TargetOver(t, Id(R, c[|c| - 1]), |c|) == Ok(c[|c| - 1].header.target)
  {
    hide Linked, Retarget, TargetOver;
    NextTargetMeans(c);
    TargetOnChain(R, t, c);
    Difficulty.RetargetSteady(c[|c| - 1].header.target);
  }

  lemma WholeWindow(n: nat)
    requires n > 0 && n % RETARGET_WINDOW == 0
    ensures n >= RETARGET_WINDOW
  {
  }

  /** The walk from the tip collects the window of the median rule. */
  lemma {:induction false} TimesOnChain(R: Rules, t: HeaderTable, c: seq<Block>, k: nat, n: nat)
    requires LawfulBlocks(R) && Linked(R, c) && HasHeaders(R, t, c) && k < |c|
    ensures TimesOver(t, Id(R, c[k]), n) == Recent(Timestamps(c[..k + 1]), n)
    decreases n
  {
    hide LawfulBlocks, Linked;
    LinkedAt(R, c, k);
    var ts := Timestamps(c[..k + 1]);
    if n > 0 {
      assert ts[..k] == Timestamps(c[..k]);
      assert ts[k] == c[k].header.timestamp;
      if k > 0 {
        NonZeroId(R, c[k - 1]);
        TimesOnChain(R, t, c, k - 1, n - 1);
        assert Recent(ts, n) == [ts[k]] + Recent(ts[..k], n - 1);
      } else {
        assert Recent(ts, n) == [ts[0]] + Recent(ts[..0], n - 1);
        assert Recent(ts[..0], n - 1) == [];
      }
    }
  }

  lemma LinkedAt(R: Rules, c: seq<Block>, k: nat)
    requires Linked(R, c) && k < |c|
    ensures c[k].header.prevId == if k == 0 then ZERO else Id(R, c[k - 1])
  {
  }

  lemma NonZeroId(R: Rules, b: Block)
    requires LawfulBlocks(R)
    ensures Id(R, b) != ZERO
  {
  }
}
