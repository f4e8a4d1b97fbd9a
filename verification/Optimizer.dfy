/** The IR optimizer (src/ir/optimize.c): constant folding bottom-up and dropping the
    statements after a `return`. */
module Optimizer {
  import opened Ir
  import opened Values

  /** What the compiling host computes where C leaves int64 arithmetic undefined. */
  type Host = (BinaryOp, int, int) -> int

  function HostArithmetic(h: Host, op: BinaryOp, a: int, b: int): int
    requires IsArithmetic(op)
  {
    var v := Arithmetic(op, a, b);
    if v.Some? then v.value.i else h(op, a, b)
  }

  function FoldUnary(h: Host, op: UnaryOp, a: Expr): Expr {
    if op.Negate? && a.Int? then Int(if InInt64(-a.n) then -a.n else h(Sub, 0, a.n))
    else if op.Not? && a.Bool? then Bool(!a.b)
    else Unary(op, a)
  }

  function FoldInts(h: Host, op: BinaryOp, t: Type, l: Expr, r: Expr): Expr
    requires l.Int? && r.Int?
  {
    if IsArithmetic(op) then
      if (op.Div? || op.Mod?) && r.n == 0 then Binary(op, t, l, r)
      else Int(HostArithmetic(h, op, l.n, r.n))
    else if IsComparison(op) then Bool(Compare(op, l.n, r.n))
    else if op.Equal? then Bool(l.n == r.n)
    else if op.NotEqual? then Bool(l.n != r.n)
    else Binary(op, t, l, r)
  }

  function FoldBools(op: BinaryOp, t: Type, l: Expr, r: Expr): Expr
    requires l.Bool? && r.Bool?
  {
    match op
    case Equal => Bool(l.b == r.b)
    case NotEqual => Bool(l.b != r.b)
    case And => Bool(l.b && r.b)
    case Or => Bool(l.b || r.b)
    case _ => Binary(op, t, l, r)
  }

  function FoldBinary(h: Host, op: BinaryOp, t: Type, l: Expr, r: Expr): Expr {
    if l.Int? && r.Int? then FoldInts(h, op, t, l, r)
    else if l.Bool? && r.Bool? then FoldBools(op, t, l, r)
    else if l.Str? && r.Str? && op.Equal? then Bool(l.s == r.s)
    else if l.Str? && r.Str? && op.NotEqual? then Bool(l.s != r.s)
    else Binary(op, t, l, r)
  }

  function FoldIf(c: Expr, t: Expr, f: Expr): Expr {
    if c.Bool? then (if c.b then t else f) else IfExpr(c, t, f)
  }

  function OptExpr(h: Host, e: Expr): Expr
    decreases e, 1
  {
    match e
    case Unary(op, a) => FoldUnary(h, op, OptExpr(h, a))
    case Binary(op, t, l, r) => FoldBinary(h, op, t, OptExpr(h, l), OptExpr(h, r))
    case IfExpr(c, t, f) => FoldIf(OptExpr(h, c), OptExpr(h, t), OptExpr(h, f))
    case Call(target, ret, args) => Call(target, ret, OptArgs(h, args))
    case Field(base, f) => Field(OptExpr(h, base), f)
    case Ok(inner) => Ok(OptExpr(h, inner))
    case _ => e
  }

  function OptArgs(h: Host, args: seq<Expr>): (r: seq<Expr>)
    ensures |r| == |args|
    decreases args, 0
  {
    if args == [] then [] else [OptExpr(h, args[0])] + OptArgs(h, args[1..])
  }

  function OptStmts(h: Host, ss: seq<Stmt>): (r: seq<Stmt>)
    ensures |r| <= |ss|
    decreases ss, 0
  {
    if ss == [] then []
    else [OptStmt(h, ss[0])] + (if ss[0].Return? then [] else OptStmts(h, ss[1..]))
  }

  function OptStmt(h: Host, s: Stmt): (r: Stmt)
    ensures r.Return? <==> s.Return?
    decreases s, 1
  {
    match s
    case Let(x, e) => Let(x, OptExpr(h, e))
    case Assign(x, e) => Assign(x, OptExpr(h, e))
    case Return(e) => Return(if e.None? then None else Some(OptExpr(h, e.value)))
    case ExprStmt(e) => ExprStmt(OptExpr(h, e))
    case Free(e) => Free(OptExpr(h, e))
    case Zone(z, body) => Zone(z, OptStmts(h, body))
    case IfThen(c, t) => IfThen(OptExpr(h, c), OptStmts(h, t))
    case IfElse(c, t, f) => IfElse(OptExpr(h, c), OptStmts(h, t), OptStmts(h, f))
    case While(c, body) => While(OptExpr(h, c), OptStmts(h, body))
    case Loop(body) => Loop(OptStmts(h, body))
    case For(x, a, b, body) => For(x, OptExpr(h, a), OptExpr(h, b), OptStmts(h, body))
  }

  /** The kept statements are the optimized ones up to the first `return`. */
  lemma {:induction false} OptStmtsKept(h: Host, ss: seq<Stmt>, kept: seq<Stmt>)
    requires |kept| <= |ss| && forall k :: 0 <= k < |kept| ==> kept[k] == OptStmt(h, ss[k])
    requires forall k :: 0 <= k < |kept| - 1 ==> !ss[k].Return?
    requires |kept| == |ss| || (kept != [] && ss[|kept| - 1].Return?)
    ensures kept == OptStmts(h, ss)
    decreases ss
  {
    if ss != [] {
      if ss[0].Return? {
        assert |kept| == 1;
      } else {
        OptStmtsKept(h, ss[1..], kept[1..]);
      }
    }
  }

  /** The in-place pass over a block's statement array: keeps the statements up to and with
      the first `return`, compacted to the front, gives back their count, and destroys the
      others one by one. */
  method OptimizeBlock(h: Host, block: array<Stmt>, ghost ss: seq<Stmt>)
    returns (count: nat, ghost destroyed: seq<Stmt>)
    requires block[..] == ss
    modifies block
    ensures count <= block.Length && block[..count] == OptStmts(h, ss)
    ensures destroyed == ss[count..] && (destroyed != [] ==> 0 < count && ss[count - 1].Return?)
    decreases ss, 0
  {
    var write := 0;
    var i := 0;
    var n := block.Length;
    destroyed := [];
    while i < n
      invariant 0 <= write == i <= n == |ss|
      invariant forall k :: i <= k < n ==> block[k] == ss[k]
      invariant forall k :: 0 <= k < write ==> block[k] == OptStmt(h, ss[k]) && !ss[k].Return?
      invariant destroyed == []
    {
      var s := block[i];
      var s' := OptimizeStatement(h, s);
      block[write] := s';
      write := write + 1;
      if s.Return? {
        for j := i + 1 to n
          invariant destroyed == ss[i + 1..j]
        {
          destroyed := destroyed + [block[j]];
        }
        break;
      }
      i := i + 1;
    }
    count := write;
    OptStmtsKept(h, ss, block[..count]);
  }

  method OptimizeStatement(h: Host, s: Stmt) returns (r: Stmt)
    ensures r == OptStmt(h, s)
    decreases s, 1
  {
    match s
    case Zone(z, body) =>
      var b := OptimizeNested(h, body);
      r := Zone(z, b);
    case IfThen(c, t) =>
      var b := OptimizeNested(h, t);
      r := IfThen(OptExpr(h, c), b);
    case IfElse(c, t, f) =>
      var b := OptimizeNested(h, t);
      var b' := OptimizeNested(h, f);
      r := IfElse(OptExpr(h, c), b, b');
    case While(c, body) =>
      var b := OptimizeNested(h, body);
      r := While(OptExpr(h, c), b);
    case Loop(body) =>
      var b := OptimizeNested(h, body);
      r := Loop(b);
    case For(x, a, e, body) =>
      var b := OptimizeNested(h, body);
      r := For(x, OptExpr(h, a), OptExpr(h, e), b);
    case _ =>
      r := OptStmt(h, s);
  }

  method OptimizeNested(h: Host, body: seq<Stmt>) returns (r: seq<Stmt>)
    ensures r == OptStmts(h, body)
    decreases body, 1
  {
    var block := new Stmt[|body|](i requires 0 <= i < |body| => body[i]);
    assert block[..] == body;
    var count, _ := OptimizeBlock(h, block, body);
    r := block[..count];
  }
}
