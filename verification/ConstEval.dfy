/** The checker's constant evaluator (src/sema/typecheck.c:1382-1480), which sizes arrays,
    agrees with what lowering, the optimizer and the language make of the same expression. */
module ConstEval {
  import opened Ir
  import opened Values
  import opened IrSemantics
  import opened Source
  import opened Lowering
  import opened LoweringProof
  import opened Optimizer
  import opened OptimizerProof

  /** None: not a constant integer expression. `accepted` stands for the check of a constant's
      declaration and its integer type. */
  function EvalConst(h: Host, accepted: string -> bool, cs: seq<Const>, limit: nat, e: SExpr): Option<int>
    requires limit <= |cs|
    decreases limit, e
  {
    match e
    case SInt(n) => Some(n)
    case SName(x) =>
      var k :- FindConst(cs, limit, x);
      if accepted(x) then EvalConst(h, accepted, cs, k, cs[k].init) else None
    case SUnary(op, a) =>
      if op != Negate then None
      else
        var v :- EvalConst(h, accepted, cs, limit, a);
        Some(if InInt64(-v) then -v else h(Sub, 0, v))
    case SBinary(op, _, l, r) =>
      var a :- EvalConst(h, accepted, cs, limit, l);
      var b :- EvalConst(h, accepted, cs, limit, r);
      if !IsArithmetic(op) || ((op.Div? || op.Mod?) && b == 0) then None
      else Some(HostArithmetic(h, op, a, b))
    case _ => None
  }

  /** Whenever the evaluator gives v, lowering with constants inlined and optimizing on the
      same host gives the literal v. */
  lemma {:induction false} EvaluatedIsFolded(h: Host, accepted: string -> bool, cs: seq<Const>, limit: nat, e: SExpr)
    requires limit <= |cs| && EvalConst(h, accepted, cs, limit, e).Some?
    ensures
      var low := LowerExpr(cs, limit, NO_SCOPE, e);
      low.Some? && OptExpr(h, low.value) == Int(EvalConst(h, accepted, cs, limit, e).value)
    decreases limit, e
  {
    match e
    case SInt(_) =>
    case SName(x) =>
      var k := FindConst(cs, limit, x).value;
      EvaluatedIsFolded(h, accepted, cs, k, cs[k].init);
    case SUnary(_, a) => EvaluatedIsFolded(h, accepted, cs, limit, a);
    case SBinary(_, _, l, r) =>
      EvaluatedIsFolded(h, accepted, cs, limit, l);
      EvaluatedIsFolded(h, accepted, cs, limit, r);
  }

  /** And it is the run-time value of the expression, wherever that is defined. */
  lemma {:induction false} EvaluatedIsMeant(h: Host, accepted: string -> bool, o: Oracle, cs: seq<Const>, limit: nat,
      tr: Trace, e: SExpr)
    requires limit <= |cs| && EvalConst(h, accepted, cs, limit, e).Some?
    requires EvalS(o, cs, limit, [], [], tr, e).Val?
    ensures EvalS(o, cs, limit, [], [], tr, e) == Val(VInt(EvalConst(h, accepted, cs, limit, e).value), tr)
  {
    hide EvalConst, LowerExpr, EvalS, NamesOf;
    EvaluatedIsFolded(h, accepted, cs, limit, e);
    var low := LowerExpr(cs, limit, NO_SCOPE, e).value;
    ExprPreserved(o, cs, limit, NO_SCOPE, [], [], [], tr, e);
    ExprOptimized(h, o, [], tr, low);
  }

  /** Integer literals, negation and arithmetic over them and over accepted constants of this
      form. */
  predicate Constant(accepted: string -> bool, cs: seq<Const>, limit: nat, e: SExpr)
    requires limit <= |cs|
    decreases limit, e
  {
    match e
    case SInt(_) => true
    case SName(x) =>
      var k := FindConst(cs, limit, x);
      k.Some? && accepted(x) && Constant(accepted, cs, k.value, cs[k.value].init)
    case SUnary(op, a) => op == Negate && Constant(accepted, cs, limit, a)
    case SBinary(op, _, l, r) =>
      && (op.Add? || op.Sub? || op.Mul? || op.Div? || op.Mod?)
      && Constant(accepted, cs, limit, l) && Constant(accepted, cs, limit, r)
    case _ => false
  }

  /** The evaluator gives v if and only if the expression has that form and folds to the literal
      v; what stops it is a division by zero. */
  lemma {:induction false} EvaluatesExactly(h: Host, accepted: string -> bool, cs: seq<Const>, limit: nat, e: SExpr,
      v: int)
    requires limit <= |cs|
    ensures
      var low := LowerExpr(cs, limit, NO_SCOPE, e);
      EvalConst(h, accepted, cs, limit, e) == Some(v) <==>
        Constant(accepted, cs, limit, e) && low.Some? && OptExpr(h, low.value) == Int(v)
    decreases limit, e, 1
  {
    match e
    case SName(x) =>
      var k := FindConst(cs, limit, x);
      if k.Some? {
        EvaluatesExactly(h, accepted, cs, k.value, cs[k.value].init, v);
      }
    case SUnary(_, a) => NegationEvaluates(h, accepted, cs, limit, e, v);
    case SBinary(_, _, _, _) => BinaryEvaluates(h, accepted, cs, limit, e, v);
    case _ =>
  }

  lemma {:induction false} NegationEvaluates(h: Host, accepted: string -> bool, cs: seq<Const>, limit: nat, e: SExpr,
      v: int)
    requires limit <= |cs| && e.SUnary?
    ensures
      var low := LowerExpr(cs, limit, NO_SCOPE, e);
      EvalConst(h, accepted, cs, limit, e) == Some(v) <==>
        Constant(accepted, cs, limit, e) && low.Some? && OptExpr(h, low.value) == Int(v)
    decreases limit, e, 0
  {
    var low := LowerExpr(cs, limit, NO_SCOPE, e.operand);
    forall w
      ensures EvalConst(h, accepted, cs, limit, e.operand) == Some(w) <==>
        Constant(accepted, cs, limit, e.operand) && low.Some? && OptExpr(h, low.value) == Int(w)
    {
      EvaluatesExactly(h, accepted, cs, limit, e.operand, w);
    }
    if low.Some? && OptExpr(h, low.value).Int? {
      assert OptExpr(h, low.value) == Int(OptExpr(h, low.value).n);
    }
  }

  lemma {:induction false} BinaryEvaluates(h: Host, accepted: string -> bool, cs: seq<Const>, limit: nat, e: SExpr,
      v: int)
    requires limit <= |cs| && e.SBinary?
    ensures
      var low := LowerExpr(cs, limit, NO_SCOPE, e);
      EvalConst(h, accepted, cs, limit, e) == Some(v) <==>
        Constant(accepted, cs, limit, e) && low.Some? && OptExpr(h, low.value) == Int(v)
    decreases limit, e, 0
  {
    var l, r := LowerExpr(cs, limit, NO_SCOPE, e.left), LowerExpr(cs, limit, NO_SCOPE, e.right);
    forall w
      ensures EvalConst(h, accepted, cs, limit, e.left) == Some(w) <==>
        Constant(accepted, cs, limit, e.left) && l.Some? && OptExpr(h, l.value) == Int(w)
    {
      EvaluatesExactly(h, accepted, cs, limit, e.left, w);
    }
    forall w
      ensures EvalConst(h, accepted, cs, limit, e.right) == Some(w) <==>
        Constant(accepted, cs, limit, e.right) && r.Some? && OptExpr(h, r.value) == Int(w)
    {
      EvaluatesExactly(h, accepted, cs, limit, e.right, w);
    }
    if l.Some? && r.Some? {
      var a, b := OptExpr(h, l.value), OptExpr(h, r.value);
      assert a.Int? ==> a == Int(a.n);
      assert b.Int? ==> b == Int(b.n);
    }
  }
}
