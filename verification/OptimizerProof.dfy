/** The optimizer keeps every defined behaviour, and its output is a normal form. */
module OptimizerProof {
  import opened Ir
  import opened Values
  import opened IrSemantics
  import opened Optimizer
  import opened Operators

  lemma FoldUnaryPreserves(h: Host, o: Oracle, env: Env, tr: Trace, op: UnaryOp, a: Expr)
    requires Eval(o, env, tr, Unary(op, a)).Val?
    ensures Eval(o, env, tr, FoldUnary(h, op, a)) == Eval(o, env, tr, Unary(op, a))
  {
  }

  lemma {:induction false} FoldBinaryPreserves(h: Host, o: Oracle, env: Env, tr: Trace, op: BinaryOp, t: Type,
      l: Expr, r: Expr)
    requires Eval(o, env, tr, Binary(op, t, l, r)).Val?
    ensures Eval(o, env, tr, FoldBinary(h, op, t, l, r)) == Eval(o, env, tr, Binary(op, t, l, r))
  {
    assert EvalBinary(o, env, tr, Binary(op, t, l, r)).Val?;
    if (l.Int? && r.Int?) || (l.Bool? && r.Bool?) || (l.Str? && r.Str?) {
      assert Eval(o, env, tr, l).trace == tr && Eval(o, env, tr, r).trace == tr;
    }
  }

  lemma {:induction false} ExprOptimized(h: Host, o: Oracle, env: Env, tr: Trace, e: Expr)
    requires Eval(o, env, tr, e).Val?
    ensures Eval(o, env, tr, OptExpr(h, e)) == Eval(o, env, tr, e)
    decreases e, 1
  {
    match e
    case Unary(op, a) =>
      ExprOptimized(h, o, env, tr, a);
      FoldUnaryPreserves(h, o, env, tr, op, OptExpr(h, a));
    case Binary(op, t, l, r) => BinaryOptimized(h, o, env, tr, e);
    case IfExpr(c, t, f) =>
      ExprOptimized(h, o, env, tr, c);
      var a := Eval(o, env, tr, c);
      ExprOptimized(h, o, env, a.trace, if a.value.b then t else f);
    case Call(_, _, args) => ArgsOptimized(h, o, env, tr, args);
    case Field(base, _) => ExprOptimized(h, o, env, tr, base);
    case Ok(inner) => ExprOptimized(h, o, env, tr, inner);
    case _ =>
  }

  lemma {:induction false} BinaryOptimized(h: Host, o: Oracle, env: Env, tr: Trace, e: Expr)
    requires e.Binary? && Eval(o, env, tr, e).Val?
    ensures Eval(o, env, tr, OptExpr(h, e)) == Eval(o, env, tr, e)
    decreases e, 0
  {
    var l, r := OptExpr(h, e.left), OptExpr(h, e.right);
    assert EvalBinary(o, env, tr, e).Val?;
    ExprOptimized(h, o, env, tr, e.left);
    var a := Eval(o, env, tr, e.left);
    if Eval(o, env, a.trace, e.right).Val? {
      ExprOptimized(h, o, env, a.trace, e.right);
    }
    assert EvalBinary(o, env, tr, Binary(e.bop, e.operands, l, r)) == EvalBinary(o, env, tr, e);
    FoldBinaryPreserves(h, o, env, tr, e.bop, e.operands, l, r);
  }

  lemma {:induction false} ArgsOptimized(h: Host, o: Oracle, env: Env, tr: Trace, args: seq<Expr>)
    requires EvalArgs(o, env, tr, args).Vals?
    ensures EvalArgs(o, env, tr, OptArgs(h, args)) == EvalArgs(o, env, tr, args)
    decreases args, 0
  {
    if args != [] {
      ExprOptimized(h, o, env, tr, args[0]);
      ArgsOptimized(h, o, env, Eval(o, env, tr, args[0]).trace, args[1..]);
      assert OptArgs(h, args)[1..] == OptArgs(h, args[1..]);
    }
  }

  /** A defined outcome is kept. */
  predicate Keeps(before: Outcome, after: Outcome) {
    before.Undefined? || after == before
  }

  lemma {:induction false} StmtsOptimized(h: Host, o: Oracle, fuel: nat, env: Env, tr: Trace, ss: seq<Stmt>)
    ensures Keeps(ExecStmts(o, fuel, env, tr, ss), ExecStmts(o, fuel, env, tr, OptStmts(h, ss)))
    decreases fuel, ss, 0
  {
    if ss != [] {
      StmtOptimized(h, o, fuel, env, tr, ss[0]);
      var out := ExecStmt(o, fuel, env, tr, ss[0]);
      if out.Next? {
        StmtsOptimized(h, o, fuel, out.env, out.trace, ss[1..]);
      }
      assert !ss[0].Return? ==> OptStmts(h, ss)[1..] == OptStmts(h, ss[1..]);
    }
  }

  lemma {:induction false} BlockOptimized(h: Host, o: Oracle, fuel: nat, env: Env, tr: Trace, ss: seq<Stmt>)
    ensures Keeps(ExecBlock(o, fuel, env, tr, ss), ExecBlock(o, fuel, env, tr, OptStmts(h, ss)))
    decreases fuel, ss, 1
  {
    StmtsOptimized(h, o, fuel, env, tr, ss);
  }

  lemma {:induction false} StmtOptimized(h: Host, o: Oracle, fuel: nat, env: Env, tr: Trace, s: Stmt)
    ensures Keeps(ExecStmt(o, fuel, env, tr, s), ExecStmt(o, fuel, env, tr, OptStmt(h, s)))
    decreases fuel, s, 0
  {
    match s
    case Zone(z, body) =>
      var a := Act(o, tr, AZoneEnter);
      BlockOptimized(h, o, fuel, [Binding(z, a.value)] + env, a.trace, body);
    case IfThen(c, t) =>
      if Eval(o, env, tr, c).Val? {
        ExprOptimized(h, o, env, tr, c);
        BlockOptimized(h, o, fuel, env, Eval(o, env, tr, c).trace, t);
      }
    case IfElse(c, t, f) =>
      if Eval(o, env, tr, c).Val? {
        ExprOptimized(h, o, env, tr, c);
        BlockOptimized(h, o, fuel, env, Eval(o, env, tr, c).trace, t);
        BlockOptimized(h, o, fuel, env, Eval(o, env, tr, c).trace, f);
      }
    case While(c, body) => WhileOptimized(h, o, fuel, env, tr, c, body);
    case Loop(body) => WhileOptimized(h, o, fuel, env, tr, Bool(true), body);
    case For(x, a, b, body) =>
      var lo := Eval(o, env, tr, a);
      if lo.Val? && Eval(o, env, lo.trace, b).Val? {
        var hi := Eval(o, env, lo.trace, b);
        ExprOptimized(h, o, env, tr, a);
        ExprOptimized(h, o, env, lo.trace, b);
        if hi.value.VInt? {
          ForOptimized(h, o, fuel, [Binding(x, lo.value)] + env, hi.trace, hi.value.i, body);
        }
      }
    case _ => SimpleOptimized(h, o, fuel, env, tr, s);
  }

  lemma {:induction false} SimpleOptimized(h: Host, o: Oracle, fuel: nat, env: Env, tr: Trace, s: Stmt)
    requires s.Let? || s.Assign? || s.Return? || s.ExprStmt? || s.Free?
    ensures Keeps(ExecStmt(o, fuel, env, tr, s), ExecStmt(o, fuel, env, tr, OptStmt(h, s)))
  {
    if !(s.Return? && s.result.None?) {
      var e := match s
        case Let(_, e) => e
        case Assign(_, e) => e
        case Return(r) => r.value
        case ExprStmt(e) => e
        case Free(e) => e;
      if Eval(o, env, tr, e).Val? {
        ExprOptimized(h, o, env, tr, e);
      }
    }
  }

  lemma {:induction false} WhileOptimized(h: Host, o: Oracle, fuel: nat, env: Env, tr: Trace, c: Expr, body: seq<Stmt>)
    ensures Keeps(ExecWhile(o, fuel, env, tr, c, body), ExecWhile(o, fuel, env, tr, OptExpr(h, c), OptStmts(h, body)))
    decreases fuel, body, 2
  {
    if fuel != 0 && Eval(o, env, tr, c).Val? {
      ExprOptimized(h, o, env, tr, c);
      var r := Eval(o, env, tr, c);
      BlockOptimized(h, o, fuel, env, r.trace, body);
      var out := ExecBlock(o, fuel, env, r.trace, body);
      if out.Next? {
        WhileOptimized(h, o, fuel - 1, out.env, out.trace, c, body);
      }
    }
  }

  lemma {:induction false} ForOptimized(h: Host, o: Oracle, fuel: nat, env: Env, tr: Trace, end: int, body: seq<Stmt>)
    ensures Keeps(ExecFor(o, fuel, env, tr, end, body), ExecFor(o, fuel, env, tr, end, OptStmts(h, body)))
    decreases fuel, body, 2
  {
    if fuel != 0 {
      BlockOptimized(h, o, fuel, env, tr, body);
      var out := ExecBlock(o, fuel, env, tr, body);
      if out.Next? && out.env != [] && out.env[0].value.VInt? {
        var next := Binding(out.env[0].name, VInt(out.env[0].value.i + 1));
        ForOptimized(h, o, fuel - 1, [next] + out.env[1..], out.trace, end, body);
      }
    }
  }

  /** No node the optimizer would still fold. */
  predicate NormalExpr(e: Expr)
    decreases e, 1
  {
    match e
    case Unary(op, a) => NormalExpr(a) && !(op.Negate? && a.Int?) && !(op.Not? && a.Bool?)
    case Binary(op, _, l, r) =>
      && NormalExpr(l) && NormalExpr(r)
      && (l.Int? && r.Int? ==> op.And? || op.Or? || ((op.Div? || op.Mod?) && r.n == 0))
      && (l.Bool? && r.Bool? ==> IsArithmetic(op) || IsComparison(op))
      && (l.Str? && r.Str? ==> !op.Equal? && !op.NotEqual?)
    case IfExpr(c, t, f) => !c.Bool? && NormalExpr(c) && NormalExpr(t) && NormalExpr(f)
    case Call(_, _, args) => NormalArgs(args)
    case Field(base, _) => NormalExpr(base)
    case Ok(inner) => NormalExpr(inner)
    case _ => true
  }

  predicate NormalArgs(args: seq<Expr>)
    decreases args, 0
  {
    args == [] || (NormalExpr(args[0]) && NormalArgs(args[1..]))
  }

  predicate NormalStmts(ss: seq<Stmt>)
    decreases ss, 0
  {
    ss == [] || (NormalStmt(ss[0]) && NormalStmts(ss[1..]) && (ss[0].Return? ==> |ss| == 1))
  }

  predicate NormalStmt(s: Stmt)
    decreases s, 1
  {
    match s
    case Let(_, e) => NormalExpr(e)
    case Assign(_, e) => NormalExpr(e)
    case Return(e) => e.None? || NormalExpr(e.value)
    case ExprStmt(e) => NormalExpr(e)
    case Free(e) => NormalExpr(e)
    case Zone(_, body) => NormalStmts(body)
    case IfThen(c, t) => NormalExpr(c) && NormalStmts(t)
    case IfElse(c, t, f) => NormalExpr(c) && NormalStmts(t) && NormalStmts(f)
    case While(c, body) => NormalExpr(c) && NormalStmts(body)
    case Loop(body) => NormalStmts(body)
    case For(_, a, b, body) => NormalExpr(a) && NormalExpr(b) && NormalStmts(body)
  }

  lemma {:induction false} ExprBecomesNormal(h: Host, e: Expr)
    ensures NormalExpr(OptExpr(h, e))
    decreases e, 1
  {
    match e
    case Unary(_, a) => ExprBecomesNormal(h, a);
    case Binary(_, _, l, r) => ExprBecomesNormal(h, l); ExprBecomesNormal(h, r);
    case IfExpr(c, t, f) => ExprBecomesNormal(h, c); ExprBecomesNormal(h, t); ExprBecomesNormal(h, f);
    case Call(_, _, args) => ArgsBecomeNormal(h, args);
    case Field(a, _) => ExprBecomesNormal(h, a);
    case Ok(a) => ExprBecomesNormal(h, a);
    case _ =>
  }

  lemma {:induction false} ArgsBecomeNormal(h: Host, args: seq<Expr>)
    ensures NormalArgs(OptArgs(h, args))
    decreases args, 0
  {
    if args != [] {
      ExprBecomesNormal(h, args[0]);
      ArgsBecomeNormal(h, args[1..]);
      assert OptArgs(h, args)[1..] == OptArgs(h, args[1..]);
    }
  }

  lemma {:induction false} StmtsBecomeNormal(h: Host, ss: seq<Stmt>)
    ensures NormalStmts(OptStmts(h, ss))
    decreases ss, 0
  {
    if ss != [] {
      StmtBecomesNormal(h, ss[0]);
      StmtsBecomeNormal(h, ss[1..]);
      assert OptStmts(h, ss)[1..] == if ss[0].Return? then [] else OptStmts(h, ss[1..]);
    }
  }

  lemma {:induction false} StmtBecomesNormal(h: Host, s: Stmt)
    ensures NormalStmt(OptStmt(h, s))
    decreases s, 1
  {
    match s
    case Let(_, e) => ExprBecomesNormal(h, e);
    case Assign(_, e) => ExprBecomesNormal(h, e);
    case Return(e) => if e.Some? { ExprBecomesNormal(h, e.value); }
    case ExprStmt(e) => ExprBecomesNormal(h, e);
    case Free(e) => ExprBecomesNormal(h, e);
    case Zone(_, body) => StmtsBecomeNormal(h, body);
    case IfThen(c, t) => ExprBecomesNormal(h, c); StmtsBecomeNormal(h, t);
    case IfElse(c, t, f) => ExprBecomesNormal(h, c); StmtsBecomeNormal(h, t); StmtsBecomeNormal(h, f);
    case While(c, body) => ExprBecomesNormal(h, c); StmtsBecomeNormal(h, body);
    case Loop(body) => StmtsBecomeNormal(h, body);
    case For(_, a, b, body) => ExprBecomesNormal(h, a); ExprBecomesNormal(h, b); StmtsBecomeNormal(h, body);
  }

  lemma {:induction false} NormalExprFixed(h: Host, e: Expr)
    requires NormalExpr(e)
    ensures OptExpr(h, e) == e
    decreases e, 1
  {
    match e
    case Unary(_, a) => NormalExprFixed(h, a);
    case Binary(_, _, l, r) => NormalExprFixed(h, l); NormalExprFixed(h, r);
    case IfExpr(c, t, f) => NormalExprFixed(h, c); NormalExprFixed(h, t); NormalExprFixed(h, f);
    case Call(_, _, args) => NormalArgsFixed(h, args);
    case Field(a, _) => NormalExprFixed(h, a);
    case Ok(a) => NormalExprFixed(h, a);
    case _ =>
  }

  lemma {:induction false} NormalArgsFixed(h: Host, args: seq<Expr>)
    requires NormalArgs(args)
    ensures OptArgs(h, args) == args
    decreases args, 0
  {
    if args != [] {
      NormalExprFixed(h, args[0]);
      NormalArgsFixed(h, args[1..]);
    }
  }

  lemma {:induction false} NormalStmtsFixed(h: Host, ss: seq<Stmt>)
    requires NormalStmts(ss)
    ensures OptStmts(h, ss) == ss
    decreases ss, 0
  {
    if ss != [] {
      NormalStmtFixed(h, ss[0]);
      NormalStmtsFixed(h, ss[1..]);
    }
  }

  lemma {:induction false} NormalStmtFixed(h: Host, s: Stmt)
    requires NormalStmt(s)
    ensures OptStmt(h, s) == s
    decreases s, 1
  {
    match s
    case Let(_, e) => NormalExprFixed(h, e);
    case Assign(_, e) => NormalExprFixed(h, e);
    case Return(e) => if e.Some? { NormalExprFixed(h, e.value); }
    case ExprStmt(e) => NormalExprFixed(h, e);
    case Free(e) => NormalExprFixed(h, e);
    case Zone(_, body) => NormalStmtsFixed(h, body);
    case IfThen(c, t) => NormalExprFixed(h, c); NormalStmtsFixed(h, t);
    case IfElse(c, t, f) => NormalExprFixed(h, c); NormalStmtsFixed(h, t); NormalStmtsFixed(h, f);
    case While(c, body) => NormalExprFixed(h, c); NormalStmtsFixed(h, body);
    case Loop(body) => NormalStmtsFixed(h, body);
    case For(_, a, b, body) => NormalExprFixed(h, a); NormalExprFixed(h, b); NormalStmtsFixed(h, body);
  }

  /** A second pass, even on another host, changes nothing. */
  lemma {:induction false} OptimizeTwice(h: Host, h': Host, ss: seq<Stmt>)
    ensures OptStmts(h', OptStmts(h, ss)) == OptStmts(h, ss)
  {
    StmtsBecomeNormal(h, ss);
    NormalStmtsFixed(h', OptStmts(h, ss));
  }

  /** Literals fold to what the operator means, and a division by zero stays. */
  lemma {:induction false} FoldedIsMeant(h: Host, op: BinaryOp, t: Type, a: int, b: int, v: int)
    requires IsArithmetic(op)
    ensures Means(op, a, b, v) ==> OptExpr(h, Binary(op, t, Int(a), Int(b))) == Int(v)
    ensures OptExpr(h, Binary(op, t, Int(a), Int(b))).Binary? <==> (op.Div? || op.Mod?) && b == 0
  {
    ArithmeticExactly(op, a, b, v);
  }
}
