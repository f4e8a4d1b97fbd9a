/** Lowering of the checked source to structured IR (src/ir/lower.c): constants are inlined and
    `defer`, `try` and zone releases become copies of the pending cleanups on every exit. */
module Lowering {
  import opened Ir
  import opened Source

  /** The names and zones visible at a point, innermost first. */
  datatype Scope = Scope(names: seq<string>, zones: seq<Name>)

  const NO_SCOPE: Scope := Scope([], [])

  datatype StaticEntry =
    | Captured(d: Deferred, scope: Scope)
    | ZoneExit(zone: Name)

  type StaticFrame = seq<StaticEntry>

  /** A lowered piece and the next free index for generated names. */
  datatype Lowered = Lowered(stmts: seq<Stmt>, next: nat)

  /** None is the internal error for a name that is neither a local nor a constant. */
  function LowerExpr(cs: seq<Const>, limit: nat, sc: Scope, e: SExpr): Option<Expr>
    requires limit <= |cs|
    decreases limit, e, 1
  {
    match e
    case SInt(n) => Some(Int(n))
    case SBool(b) => Some(Bool(b))
    case SStr(s) => Some(Str(s))
    case SName(x) =>
      if x in sc.names then Some(Local(User(x)))
      else
        var k :- FindConst(cs, limit, x);
        LowerExpr(cs, k, NO_SCOPE, cs[k].init)
    case SUnary(op, a) =>
      var a' :- LowerExpr(cs, limit, sc, a);
      Some(Unary(op, a'))
    case SBinary(op, t, l, r) =>
      var l' :- LowerExpr(cs, limit, sc, l);
      var r' :- LowerExpr(cs, limit, sc, r);
      Some(Binary(op, t, l', r'))
    case SIfExpr(c, t, f) =>
      var c' :- LowerExpr(cs, limit, sc, c);
      var t' :- LowerExpr(cs, limit, sc, t);
      var f' :- LowerExpr(cs, limit, sc, f);
      Some(IfExpr(c', t', f'))
    case SCall(target, ret, args) =>
      var args' :- LowerArgs(cs, limit, sc, args);
      Some(Call(target, ret, args'))
    case SField(base, f) =>
      var base' :- LowerExpr(cs, limit, sc, base);
      Some(Field(base', f))
    case SOk(inner) =>
      var inner' :- LowerExpr(cs, limit, sc, inner);
      Some(Ok(inner'))
    case SErr(t) => if t.TResult? then Some(Err(t)) else None
    case SZAlloc(t) => if sc.zones == [] then None else Some(ZAlloc(t, sc.zones[0]))
  }

  function LowerArgs(cs: seq<Const>, limit: nat, sc: Scope, args: seq<SExpr>): Option<seq<Expr>>
    requires limit <= |cs|
    decreases limit, args, 0
  {
    if args == [] then Some([])
    else
      var first :- LowerExpr(cs, limit, sc, args[0]);
      var rest :- LowerArgs(cs, limit, sc, args[1..]);
      Some([first] + rest)
  }

  function ReleaseStmt(zone: Name): Stmt {
    ExprStmt(Call(ZONE_RELEASE, TVoid, [Local(zone)]))
  }

  /** A copy of one pending cleanup; the deferred statement is resolved in the scope captured
      where it was written. */
  function LowerEntry(cs: seq<Const>, entry: StaticEntry): Option<Stmt> {
    match entry
    case ZoneExit(z) => Some(ReleaseStmt(z))
    case Captured(d, sc) =>
      var e :- LowerExpr(cs, |cs|, sc, d.e);
      Some(if d.DeferFree? then Free(e) else ExprStmt(e))
  }

  function LowerFrame(cs: seq<Const>, frame: StaticFrame): Option<seq<Stmt>> {
    if frame == [] then Some([])
    else
      var s :- LowerEntry(cs, frame[0]);
      var rest :- LowerFrame(cs, frame[1..]);
      Some([s] + rest)
  }

  function LowerFrames(cs: seq<Const>, frames: seq<StaticFrame>): Option<seq<Stmt>> {
    if frames == [] then Some([])
    else
      var own :- LowerFrame(cs, frames[0]);
      var rest :- LowerFrames(cs, frames[1..]);
      Some(own + rest)
  }

  /** The constants and the declared return type. */
  datatype Unit = Unit(cs: seq<Const>, ret: Type)

  function Expr1(u: Unit, sc: Scope, e: SExpr): Option<Expr> {
    LowerExpr(u.cs, |u.cs|, sc, e)
  }

  /** The three statements of `try x = e`, the exit copies included. */
  function TryStmts(u: Unit, x: string, temp: Name, init: Expr, cleanup: seq<Stmt>): seq<Stmt> {
    [ Let(temp, init),
      IfThen(Unary(Not, Field(Local(temp), OkField)), cleanup + [Return(Some(Err(u.ret)))]),
      Let(User(x), Field(Local(temp), ValueField)) ]
  }

  /** The rest of a block whose own frame is frames[0]; lowering stops at a `return`. */
  function LowerRest(u: Unit, sc: Scope, frames: seq<StaticFrame>, n: nat, ss: seq<SStmt>): (r: Option<Lowered>)
    requires frames != []
    ensures r.Some? ==> n <= r.value.next
    decreases ss, 0
  {
    if ss == [] then
      var own :- LowerFrame(u.cs, frames[0]);
      Some(Lowered(own, n))
    else
      match ss[0]
      case SDefer(d) =>
        LowerRest(u, sc, [[Captured(d, sc)] + frames[0]] + frames[1..], n, ss[1..])
      case SReturn(e) =>
        var cleanup :- LowerFrames(u.cs, frames);
        if e.None? then Some(Lowered(cleanup + [Return(None)], n))
        else
          var e' :- Expr1(u, sc, e.value);
          Some(Lowered(cleanup + [Return(Some(e'))], n))
      case STry(x, _, e) =>
        if !u.ret.TResult? then None
        else
          var e' :- Expr1(u, sc, e);
          var cleanup :- LowerFrames(u.cs, frames);
          var rest :- LowerRest(u, Scope([x] + sc.names, sc.zones), frames, n + 1, ss[1..]);
          Some(Lowered(TryStmts(u, x, Gen("try", n), e', cleanup) + rest.stmts, rest.next))
      case _ =>
        var s :- LowerStmt(u, sc, frames, n, ss[0]);
        var rest :- LowerRest(u, After(sc, ss[0]), frames, s.next, ss[1..]);
        Some(Lowered(s.stmts + rest.stmts, rest.next))
  }

  /** The scope after a statement that stays in its block. */
  function After(sc: Scope, s: SStmt): Scope {
    if s.SLet? || s.STry? then Scope([s.id] + sc.names, sc.zones) else sc
  }

  function LowerBlock(u: Unit, sc: Scope, frames: seq<StaticFrame>, n: nat, ss: seq<SStmt>): (r: Option<Lowered>)
    ensures r.Some? ==> n <= r.value.next
    decreases ss, 1
  {
    LowerRest(u, sc, [[]] + frames, n, ss)
  }

  function LowerStmt(u: Unit, sc: Scope, frames: seq<StaticFrame>, n: nat, s: SStmt): (r: Option<Lowered>)
    ensures r.Some? ==> n <= r.value.next && |r.value.stmts| == 1
    decreases s, 0
  {
    match s
    case SLet(x, _, _, e) =>
      var e' :- Expr1(u, sc, e);
      Some(Lowered([Let(User(x), e')], n))
    case SAssign(x, e) =>
      if x !in sc.names then None
      else
        var e' :- Expr1(u, sc, e);
        Some(Lowered([Assign(User(x), e')], n))
    case SExprStmt(e) =>
      var e' :- Expr1(u, sc, e);
      Some(Lowered([ExprStmt(e')], n))
    case SFree(e) =>
      var e' :- Expr1(u, sc, e);
      Some(Lowered([Free(e')], n))
    case SZone(body) =>
      var z := Gen("zone", n);
      var b :- LowerBlock(u, Scope(sc.names, [z] + sc.zones), [[ZoneExit(z)]] + frames, n + 1, body);
      Some(Lowered([Zone(z, b.stmts + [ReleaseStmt(z)])], b.next))
    case SIfThen(c, t) =>
      var c' :- Expr1(u, sc, c);
      var t' :- LowerBlock(u, sc, frames, n, t);
      Some(Lowered([IfThen(c', t'.stmts)], t'.next))
    case SIfElse(c, t, f) =>
      var c' :- Expr1(u, sc, c);
      var t' :- LowerBlock(u, sc, frames, n, t);
      var f' :- LowerBlock(u, sc, frames, t'.next, f);
      Some(Lowered([IfElse(c', t'.stmts, f'.stmts)], f'.next))
    case SWhile(c, body) =>
      var c' :- Expr1(u, sc, c);
      var b :- LowerBlock(u, sc, frames, n, body);
      Some(Lowered([While(c', b.stmts)], b.next))
    case SLoop(body) =>
      var b :- LowerBlock(u, sc, frames, n, body);
      Some(Lowered([Loop(b.stmts)], b.next))
    case SFor(x, a, e, body) =>
      var a' :- Expr1(u, sc, a);
      var e' :- Expr1(u, sc, e);
      var b :- LowerBlock(u, Scope([x] + sc.names, sc.zones), frames, n, body);
      Some(Lowered([For(User(x), a', e', b.stmts)], b.next))
    case SDefer(_) => None
    case STry(_, _, _) => None
    case SReturn(_) => None
  }
}
