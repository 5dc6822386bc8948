/**
 What a script program computes: the evaluator over trees, with its witness read in order, and the verdict on a
 spend.
 */
module ScriptEval {
  import opened Ledger
  import opened ScriptBuilder

  /** What a script can see of the spend, and the cryptography it can call. */
  datatype Context = Context(
    sigHash: Bytes,                              // the digest that signatures of this transaction sign
    height: U64,
    verify: (Bytes, Bytes, Bytes) -> bool,       // message, public key, signature
    sha256: Bytes -> Key32,
    otherJet: (nat, Value) -> Option<Value>
  )

  /** The value and the rest of the witness, or an error. */
  type Outcome = Option<(Value, seq<Value>)>

  /** The bytes of a byte string or a hash. */
  function AsBytes(v: Value): Option<Bytes> {
    match v
    case ByteString(b) => Some(b)
    case HashValue(h) => Some(h)
    case _ => None
  }

  function EvalJet(x: Context, jet: JetId, input: Value): Option<Value> {
    match jet
    case TxSigHash => Some(ByteString(x.sigHash))
    case BlockHeight => Some(Word(x.height))
    case Sha256 => if input.ByteString? then Some(HashValue(x.sha256(input.bytes))) else None
    case Ed25519Verify =>
      if input.PairValue? && input.left.ByteString? && input.right.PairValue?
         && input.right.left.ByteString? && input.right.right.ByteString?
      then Some(Bool(x.verify(input.left.bytes, input.right.left.bytes, input.right.right.bytes)))
      else None
    case EqHash =>
      if input.PairValue? && AsBytes(input.left).Some? && AsBytes(input.right).Some?
      then Some(Bool(AsBytes(input.left) == AsBytes(input.right)))
      else None
    case Gt64 =>
      if input.PairValue? && input.left.Word? && input.right.Word? then Some(Bool(input.left.n > input.right.n)) else None
    case Lt64 =>
      if input.PairValue? && input.left.Word? && input.right.Word? then Some(Bool(input.left.n < input.right.n)) else None
    case OtherJet(code) => x.otherJet(code, input)
  }

  /** Evaluate a tree on an input; every witness node takes the next value of the witness. */
  function Eval(x: Context, t: Term, input: Value, w: seq<Value>): Outcome
    decreases t, 0
  {
    if |t.subterms| < |Children(t.op)| then None
    else
      match t.op
      case Iden => Some((input, w))
      case Unit => Some((UnitValue, w))
      case Const(v) => Some((v, w))
      case MerkleHidden(_) => None
      case Witness => if w == [] then None else Some((w[0], w[1..]))
      case Jet(jet) =>
        var v := EvalJet(x, jet, input);
        if v.None? then None else Some((v.value, w))
      case Comp(_, _) =>
        var mid := Eval(x, t.subterms[0], input, w);
        if mid.None? then None else Eval(x, t.subterms[1], mid.value.0, mid.value.1)
      case Pair(_, _) =>
        var a := Eval(x, t.subterms[0], input, w);
        if a.None? then None
        else
          var b := Eval(x, t.subterms[1], input, a.value.1);
          if b.None? then None else Some((PairValue(a.value.0, b.value.0), b.value.1))
      case Take(_) => if input.PairValue? then Eval(x, t.subterms[0], input.left, w) else None
      case Drop(_) => if input.PairValue? then Eval(x, t.subterms[0], input.right, w) else None
      case InjL(_) =>
        var a := Eval(x, t.subterms[0], input, w);
        if a.None? then None else Some((LeftValue(a.value.0), a.value.1))
      case InjR(_) =>
        var a := Eval(x, t.subterms[0], input, w);
        if a.None? then None else Some((RightValue(a.value.0), a.value.1))
      case Case(_, _) =>
        if input.LeftValue? then Eval(x, t.subterms[0], input.value, w)
        else if input.RightValue? then Eval(x, t.subterms[1], input.value, w)
        else if input.Bool? then Eval(x, t.subterms[if input.b then 1 else 0], UnitValue, w)
        else None
      case Fold(_, _, k) =>
        if !input.PairValue? then None
        else
          var acc := Eval(x, t.subterms[1], input.right, w);
          if acc.None? then None else Repeat(x, t.subterms[0], input.right, acc.value.0, acc.value.1, k)
      case ListFold(_, _) =>
        if !input.PairValue? || !input.left.ListValue? then None
        else
          var acc := Eval(x, t.subterms[1], input.right, w);
          if acc.None? then None else Along(x, t.subterms[0], input.left.elements, acc.value.0, acc.value.1)
  }

  /** Apply the step `k` times to the fixed value and the accumulator. */
  function Repeat(x: Context, step: Term, fixed: Value, acc: Value, w: seq<Value>, k: nat): Outcome
    decreases step, k + 1
  {
    if k == 0 then Some((acc, w))
    else
      var next := Eval(x, step, PairValue(fixed, acc), w);
      if next.None? then None else Repeat(x, step, fixed, next.value.0, next.value.1, k - 1)
  }

  /** Apply the step to every element and the accumulator. */
  function Along(x: Context, step: Term, elements: seq<Value>, acc: Value, w: seq<Value>): Outcome
    decreases step, |elements| + 1
  {
    if elements == [] then Some((acc, w))
    else
      var next := Eval(x, step, PairValue(elements[0], acc), w);
      if next.None? then None else Along(x, step, elements[1..], next.value.0, next.value.1)
  }

  /** The spend is allowed: the script yields true and has read all of the witness. */
  predicate Unlocks(x: Context, t: Term, input: Value, w: seq<Value>) {
    var r := Eval(x, t, input, w);
    r.Some? && r.value.1 == [] && (r.value.0 == Bool(true) || r.value.0 == RightValue(UnitValue))
  }

  // ---- Parts of covenants ----

  lemma EvalLeaf(x: Context, c: Combinator, input: Value, w: seq<Value>)
    requires Children(c) == []
    ensures c.Witness? ==>
              Eval(x, Term(c, []), input, w) == if w == [] then None else Some((w[0], w[1..]))
    ensures c.Const? ==> Eval(x, Term(c, []), input, w) == Some((c.value, w))
    ensures c.Unit? ==> Eval(x, Term(c, []), input, w) == Some((UnitValue, w))
    ensures c.Jet? ==> Eval(x, Term(c, []), input, w) ==
                         var v := EvalJet(x, c.jet, input); if v.None? then None else Some((v.value, w))
  {
  }

  lemma EvalComp(x: Context, f: Term, g: Term, input: Value, w: seq<Value>)
    ensures Eval(x, Term(Comp(0, 0), [f, g]), input, w) ==
              var mid := Eval(x, f, input, w);
              if mid.None? then None else Eval(x, g, mid.value.0, mid.value.1)
  {
  }

  lemma EvalPair(x: Context, f: Term, g: Term, input: Value, w: seq<Value>)
    ensures Eval(x, Term(Pair(0, 0), [f, g]), input, w) ==
              var a := Eval(x, f, input, w);
              if a.None? then None
              else
                var b := Eval(x, g, input, a.value.1);
                if b.None? then None else Some((PairValue(a.value.0, b.value.0), b.value.1))
  {
  }

  lemma EvalCase(x: Context, f: Term, g: Term, input: Value, w: seq<Value>)
    ensures Eval(x, Term(Case(0, 0), [f, g]), input, w) ==
              if input.LeftValue? then Eval(x, f, input.value, w)
              else if input.RightValue? then Eval(x, g, input.value, w)
              else if input == Bool(false) then Eval(x, f, UnitValue, w)
              else if input == Bool(true) then Eval(x, g, UnitValue, w)
              else None
  {
  }
}
