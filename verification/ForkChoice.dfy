/**
 Chain tips and the rule that prefers one over another.
 */
module ForkChoice {
  import opened SmtSpec
  import opened WorkSpec

  datatype ChainTip = ChainTip(id: Hash256, height: nat, work: U256)

  function NewTip(id: Hash256, height: nat, target: U256, parentWork: U256): ChainTip {
    ChainTip(id, height, AddWork(parentWork, WorkFromTarget(target)))
  }

  function GenesisTip(id: Hash256, target: U256): ChainTip {
    ChainTip(id, 0, WorkFromTarget(target))
  }

  /** More work wins, then more height; otherwise the current tip stays. */
  predicate IsBetterChain(candidate: ChainTip, current: ChainTip) {
    candidate.work > current.work || (candidate.work == current.work && candidate.height > current.height)
  }

  /** Work decides, and height only between equals. */
  lemma WorkDecides(a: ChainTip, b: ChainTip)
    ensures a.work > b.work ==> IsBetterChain(a, b)
    ensures a.work < b.work ==> !IsBetterChain(a, b)
    ensures a.work == b.work ==> (IsBetterChain(a, b) <==> a.height > b.height)
  {
  }

  lemma WorkIsPositive(target: U256)
    ensures WorkFromTarget(target) >= 1
  {
    if target > 0 { AtLeastOnce(U256_MAX + 1, target); }
  }

  lemma AtLeastOnce(a: nat, b: nat)
    requires 0 < b <= a
    ensures a / b >= 1
  {
  }

  /** A child is better than its parent whatever its target, also when the work has saturated. */
  lemma ChildIsBetter(parent: ChainTip, id: Hash256, target: U256)
    ensures IsBetterChain(NewTip(id, parent.height + 1, target, parent.work), parent)
  {
    WorkIsPositive(target);
    hide WorkFromTarget;
  }

  /** The preference is a strict weak order: no cycle of tips can each beat the next. */
  lemma StrictOrder(a: ChainTip, b: ChainTip, c: ChainTip)
    ensures !IsBetterChain(a, a)
    ensures IsBetterChain(a, b) ==> !IsBetterChain(b, a)
    ensures IsBetterChain(a, b) ==> IsBetterChain(a, c) || IsBetterChain(c, b)
    ensures IsBetterChain(a, b) && IsBetterChain(b, c) ==> IsBetterChain(a, c)
  {
  }
}
