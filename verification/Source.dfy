/** The checked source language of the fragment and its reference semantics: an interpreter
    that keeps a run-time stack of defer frames. A block's own frame runs newest first when
    the block falls through; `return` and a failing `try` run every frame, innermost first,
    before the result is computed, in the order src/ir/lower.c:1570-1577 fixes. */
module Source {
  import opened Ir
  import opened Values
  import opened IrSemantics

  /** `SErr.resultType` is the result type the checker expects at that place. */
  datatype SExpr =
    | SInt(n: int)
    | SBool(b: bool)
    | SStr(s: string)
    | SName(id: string)
    | SUnary(uop: UnaryOp, operand: SExpr)
    | SBinary(bop: BinaryOp, operands: Type, left: SExpr, right: SExpr)
    | SIfExpr(cond: SExpr, thenExpr: SExpr, elseExpr: SExpr)
    | SCall(target: Target, ret: Type, args: seq<SExpr>)
    | SField(base: SExpr, field: FieldName)
    | SOk(inner: SExpr)
    | SErr(resultType: Type)
    | SZAlloc(allocType: Type)

  /** A module constant; constants are listed so that each uses only earlier ones. */
  datatype Const = Const(name: string, init: SExpr)

  datatype Deferred = DeferExpr(e: SExpr) | DeferFree(e: SExpr)

  datatype SStmt =
    | SLet(id: string, mut: bool, ty: Type, init: SExpr)
    | SAssign(id: string, rhs: SExpr)
    | SReturn(result: Option<SExpr>)
    | SExprStmt(expr: SExpr)
    | SFree(pointer: SExpr)
    | SDefer(deferred: Deferred)
    | STry(id: string, ty: Type, init: SExpr)
    | SZone(body: seq<SStmt>)
    | SIfThen(cond: SExpr, thenBlock: seq<SStmt>)
    | SIfElse(cond: SExpr, thenBlock: seq<SStmt>, elseBlock: seq<SStmt>)
    | SWhile(cond: SExpr, body: seq<SStmt>)
    | SLoop(body: seq<SStmt>)
    | SFor(id: string, start: SExpr, end: SExpr, body: seq<SStmt>)

  /** The first of the leading `limit` constants called x. */
  function FindConst(cs: seq<Const>, limit: nat, x: string): (r: Option<nat>)
    requires limit <= |cs|
    ensures r.Some? ==> r.value < limit && cs[r.value].name == x && forall k :: 0 <= k < r.value ==> cs[k].name != x
    ensures r.None? ==> forall k :: 0 <= k < limit ==> cs[k].name != x
  {
    if limit == 0 then None
    else
      var r := FindConst(cs, limit - 1, x);
      if r.Some? then r
      else if cs[limit - 1].name == x then Some(limit - 1)
      else None
  }

  /** A local shadows a constant; a constant means its initializer outside every scope.
      `zones` are the handles of the open zones, innermost first. */
  function EvalS(o: Oracle, cs: seq<Const>, limit: nat, env: Env, zones: seq<Value>, tr: Trace, e: SExpr): EvalResult
    requires limit <= |cs|
    decreases limit, e, 1
  {
    match e
    case SInt(n) => Val(VInt(n), tr)
    case SBool(b) => Val(VBool(b), tr)
    case SStr(s) => Val(VStr(s), tr)
    case SName(x) =>
      var v := Lookup(env, User(x));
      if v.Some? then Val(v.value, tr)
      else
        var k := FindConst(cs, limit, x);
        if k.None? then Stuck else EvalS(o, cs, k.value, [], [], tr, cs[k.value].init)
    case SUnary(op, a) =>
      var r := EvalS(o, cs, limit, env, zones, tr, a);
      if r.Stuck? then Stuck else Lift(ApplyUnary(op, r.value), r.trace)
    case SBinary(_, _, _, _) => EvalSBinary(o, cs, limit, env, zones, tr, e)
    case SIfExpr(c, t, f) =>
      var r := EvalS(o, cs, limit, env, zones, tr, c);
      if !(r.Val? && r.value.VBool?) then Stuck
      else if r.value.b then EvalS(o, cs, limit, env, zones, r.trace, t)
      else EvalS(o, cs, limit, env, zones, r.trace, f)
    case SCall(target, ret, args) =>
      var r := EvalSArgs(o, cs, limit, env, zones, tr, args);
      if r.StuckArgs? then Stuck else ActCall(o, r.trace, target, ret, r.values)
    case SField(base, f) =>
      var r := EvalS(o, cs, limit, env, zones, tr, base);
      if r.Stuck? then Stuck else Lift(FieldOf(r.value, f), r.trace)
    case SOk(inner) =>
      var r := EvalS(o, cs, limit, env, zones, tr, inner);
      if r.Stuck? then Stuck else Val(VResult(true, r.value), r.trace)
    case SErr(t) => if t.TResult? then Val(Zero(t), tr) else Stuck
    case SZAlloc(t) =>
      if zones == [] then Stuck else Act(o, tr, AZoneAlloc(zones[0], VSize(t)))
  }

  function EvalSBinary(o: Oracle, cs: seq<Const>, limit: nat, env: Env, zones: seq<Value>, tr: Trace,
      e: SExpr): EvalResult
    requires limit <= |cs| && e.SBinary?
    decreases limit, e, 0
  {
    var op := e.bop;
    var a := EvalS(o, cs, limit, env, zones, tr, e.left);
    if a.Stuck? then Stuck
    else if op.And? || op.Or? then
      if !a.value.VBool? then Stuck
      else if a.value.b == op.Or? then a
      else
        var b := EvalS(o, cs, limit, env, zones, a.trace, e.right);
        if b.Val? && b.value.VBool? then b else Stuck
    else
      var b := EvalS(o, cs, limit, env, zones, a.trace, e.right);
      if b.Stuck? then Stuck else Lift(ApplyBinary(op, e.operands, a.value, b.value), b.trace)
  }

  function EvalSArgs(o: Oracle, cs: seq<Const>, limit: nat, env: Env, zones: seq<Value>, tr: Trace,
      args: seq<SExpr>): EvalsResult
    requires limit <= |cs|
    decreases limit, args, 0
  {
    if args == [] then Vals([], tr)
    else
      var r := EvalS(o, cs, limit, env, zones, tr, args[0]);
      if r.Stuck? then StuckArgs
      else
        var rest := EvalSArgs(o, cs, limit, env, zones, r.trace, args[1..]);
        if rest.StuckArgs? then StuckArgs else Vals([r.value] + rest.values, rest.trace)
  }

  /** A pending cleanup. A deferred statement remembers how many bindings and zones were
      visible where it was written; a zone's release remembers the handle. */
  datatype Entry =
    | Pending(d: Deferred, depth: nat, zoneDepth: nat)
    | Release(handle: Value)

  type Frame = seq<Entry>

  /** The fixed surroundings of a run: callees, constants, the declared return type. */
  datatype Context = Context(o: Oracle, cs: seq<Const>, ret: Type)

  function Innermost<T>(s: seq<T>, n: nat): seq<T> {
    if n <= |s| then s[|s| - n..] else s
  }

  /** Runs one cleanup; None is an undefined outcome. */
  function RunEntry(c: Context, env: Env, zones: seq<Value>, tr: Trace, entry: Entry): Option<Trace> {
    match entry
    case Release(h) => Some(tr + [Event(ACall(ZONE_RELEASE, [h]), VUnit)])
    case Pending(d, depth, zoneDepth) =>
      var r := EvalS(c.o, c.cs, |c.cs|, Innermost(env, depth), Innermost(zones, zoneDepth), tr, d.e);
      if r.Stuck? then None
      else if d.DeferFree? then Some(r.trace + [Event(AFree(r.value), VUnit)])
      else Some(r.trace)
  }

  function RunFrame(c: Context, env: Env, zones: seq<Value>, tr: Trace, frame: Frame): Option<Trace>
    decreases frame
  {
    if frame == [] then Some(tr)
    else
      var t := RunEntry(c, env, zones, tr, frame[0]);
      if t.None? then None else RunFrame(c, env, zones, t.value, frame[1..])
  }

  function RunFrames(c: Context, env: Env, zones: seq<Value>, tr: Trace, frames: seq<Frame>): Option<Trace>
    decreases frames
  {
    if frames == [] then Some(tr)
    else
      var t := RunFrame(c, env, zones, tr, frames[0]);
      if t.None? then None else RunFrames(c, env, zones, t.value, frames[1..])
  }

  /** The rest of a block whose own frame is frames[0], its fall-through cleanup included. */
  function ExecRest(c: Context, fuel: nat, env: Env, zones: seq<Value>, frames: seq<Frame>, tr: Trace,
      ss: seq<SStmt>): Outcome
    requires frames != []
    decreases fuel, ss, 0
  {
    if ss == [] then
      var t := RunFrame(c, env, zones, tr, frames[0]);
      if t.None? then Undefined else Next(env, t.value)
    else
      match ss[0]
      case SDefer(d) =>
        var own := [Pending(d, |env|, |zones|)] + frames[0];
        ExecRest(c, fuel, env, zones, [own] + frames[1..], tr, ss[1..])
      case SReturn(e) => ExecReturn(c, env, zones, frames, tr, e)
      case STry(x, _, e) =>
        var r := EvalS(c.o, c.cs, |c.cs|, env, zones, tr, e);
        if !(r.Val? && r.value.VResult?) then Undefined
        else if r.value.ok then
          ExecRest(c, fuel, [Binding(User(x), r.value.payload)] + env, zones, frames, r.trace, ss[1..])
        else
          var t := RunFrames(c, env, zones, r.trace, frames);
          if t.None? || !c.ret.TResult? then Undefined else Returned(Zero(c.ret), t.value)
      case _ =>
        var out := ExecS(c, fuel, env, zones, frames, tr, ss[0]);
        if out.Next? then ExecRest(c, fuel, out.env, zones, frames, out.trace, ss[1..]) else out
  }

  function ExecReturn(c: Context, env: Env, zones: seq<Value>, frames: seq<Frame>, tr: Trace,
      e: Option<SExpr>): Outcome {
    var t := RunFrames(c, env, zones, tr, frames);
    if t.None? then Undefined
    else if e.None? then Returned(VUnit, t.value)
    else
      var r := EvalS(c.o, c.cs, |c.cs|, env, zones, t.value, e.value);
      if r.Stuck? then Undefined else Returned(r.value, r.trace)
  }

  function ExecInner(c: Context, fuel: nat, env: Env, zones: seq<Value>, frames: seq<Frame>, tr: Trace,
      ss: seq<SStmt>): Outcome
    decreases fuel, ss, 1
  {
    Leave(|env|, ExecRest(c, fuel, env, zones, [[]] + frames, tr, ss))
  }

  function ExecS(c: Context, fuel: nat, env: Env, zones: seq<Value>, frames: seq<Frame>, tr: Trace, s: SStmt): Outcome
    decreases fuel, s, 0
  {
    match s
    case SLet(x, _, _, e) =>
      var r := EvalS(c.o, c.cs, |c.cs|, env, zones, tr, e);
      if r.Stuck? then Undefined else Next([Binding(User(x), r.value)] + env, r.trace)
    case SAssign(x, e) =>
      var r := EvalS(c.o, c.cs, |c.cs|, env, zones, tr, e);
      if r.Stuck? || Lookup(env, User(x)).None? then Undefined else Next(Update(env, User(x), r.value), r.trace)
    case SExprStmt(e) =>
      var r := EvalS(c.o, c.cs, |c.cs|, env, zones, tr, e);
      if r.Stuck? then Undefined else Next(env, r.trace)
    case SFree(e) =>
      var r := EvalS(c.o, c.cs, |c.cs|, env, zones, tr, e);
      if r.Stuck? then Undefined else Next(env, r.trace + [Event(AFree(r.value), VUnit)])
    case SZone(body) =>
      var h := Act(c.o, tr, AZoneEnter);
      var out := ExecInner(c, fuel, env, [h.value] + zones, [[Release(h.value)]] + frames, h.trace, body);
      if out.Next? then Next(out.env, out.trace + [Event(ACall(ZONE_RELEASE, [h.value]), VUnit)]) else out
    case SIfThen(e, t) =>
      var r := EvalS(c.o, c.cs, |c.cs|, env, zones, tr, e);
      if !(r.Val? && r.value.VBool?) then Undefined
      else if r.value.b then ExecInner(c, fuel, env, zones, frames, r.trace, t)
      else Next(env, r.trace)
    case SIfElse(e, t, f) =>
      var r := EvalS(c.o, c.cs, |c.cs|, env, zones, tr, e);
      if !(r.Val? && r.value.VBool?) then Undefined
      else ExecInner(c, fuel, env, zones, frames, r.trace, if r.value.b then t else f)
    case SWhile(e, body) => ExecSWhile(c, fuel, env, zones, frames, tr, e, body)
    case SLoop(body) => ExecSWhile(c, fuel, env, zones, frames, tr, SBool(true), body)
    case SFor(x, a, b, body) =>
      var lo := EvalS(c.o, c.cs, |c.cs|, env, zones, tr, a);
      if lo.Stuck? then Undefined
      else
        var hi := EvalS(c.o, c.cs, |c.cs|, env, zones, lo.trace, b);
        if !(hi.Val? && hi.value.VInt?) then Undefined
        else
          Leave(|env|, ExecSFor(c, fuel, [Binding(User(x), lo.value)] + env, zones, frames, hi.trace, hi.value.i, body))
    case SDefer(_) => Undefined
    case STry(_, _, _) => Undefined
    case SReturn(_) => Undefined
  }

  function ExecSWhile(c: Context, fuel: nat, env: Env, zones: seq<Value>, frames: seq<Frame>, tr: Trace, e: SExpr,
      body: seq<SStmt>): Outcome
    decreases fuel, body, 2
  {
    if fuel == 0 then OutOfFuel(tr)
    else
      var r := EvalS(c.o, c.cs, |c.cs|, env, zones, tr, e);
      if !(r.Val? && r.value.VBool?) then Undefined
      else if !r.value.b then Next(env, r.trace)
      else
        var out := ExecInner(c, fuel, env, zones, frames, r.trace, body);
        if out.Next? then ExecSWhile(c, fuel - 1, out.env, zones, frames, out.trace, e, body) else out
  }

  function ExecSFor(c: Context, fuel: nat, env: Env, zones: seq<Value>, frames: seq<Frame>, tr: Trace, end: int,
      body: seq<SStmt>): Outcome
    decreases fuel, body, 2
  {
    if fuel == 0 then OutOfFuel(tr)
    else if env == [] || !env[0].value.VInt? then Undefined
    else if end <= env[0].value.i then Next(env, tr)
    else
      var out := ExecInner(c, fuel, env, zones, frames, tr, body);
      if !out.Next? then out
      else if out.env == [] || !out.env[0].value.VInt? || !InInt64(out.env[0].value.i + 1) then Undefined
      else
        var next := Binding(out.env[0].name, VInt(out.env[0].value.i + 1));
        ExecSFor(c, fuel - 1, [next] + out.env[1..], zones, frames, out.trace, end, body)
  }

  /** A whole body: parameters are bound in order, so the last is innermost. */
  function RunBody(c: Context, fuel: nat, params: Env, tr: Trace, body: seq<SStmt>): Outcome {
    ExecRest(c, fuel, params, [], [[]], tr, body)
  }
}
