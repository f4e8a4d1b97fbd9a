/** Fuel-indexed big-step semantics of the structured IR. Only loop iterations use fuel, so a
    run that does not end in OutOfFuel is the run of every larger fuel as well. */
module IrSemantics {
  import opened Ir
  import opened Values

  datatype Binding = Binding(name: Name, value: Value)

  /** The bindings in scope, innermost first. */
  type Env = seq<Binding>

  datatype EvalResult = Val(value: Value, trace: Trace) | Stuck

  datatype EvalsResult = Vals(values: seq<Value>, trace: Trace) | StuckArgs

  /** Next: fell through with this environment. Undefined: the program did something the
      language leaves undefined (overflow, division by zero, an ill-typed operand). */
  datatype Outcome =
    | Next(env: Env, trace: Trace)
    | Returned(value: Value, trace: Trace)
    | OutOfFuel(trace: Trace)
    | Undefined

  function Lookup(env: Env, x: Name): Option<Value> {
    if env == [] then None
    else if env[0].name == x then Some(env[0].value)
    else Lookup(env[1..], x)
  }

  /** Overwrites the innermost binding of x, if there is one. */
  function Update(env: Env, x: Name, v: Value): (r: Env)
    ensures |r| == |env|
    ensures forall i :: 0 <= i < |env| ==> r[i].name == env[i].name
  {
    if env == [] then []
    else if env[0].name == x then [Binding(x, v)] + env[1..]
    else [env[0]] + Update(env[1..], x, v)
  }

  /** The innermost binding of x is the one overwritten. */
  lemma {:induction false} UpdateFirst(env: Env, x: Name, i: nat, v: Value)
    requires i < |env| && env[i].name == x && forall j :: 0 <= j < i ==> env[j].name != x
    ensures Update(env, x, v) == env[i := Binding(x, v)]
    decreases env
  {
    if i != 0 {
      UpdateFirst(env[1..], x, i - 1, v);
    }
  }

  function Lift(v: Option<Value>, tr: Trace): EvalResult {
    if v.Some? then Val(v.value, tr) else Stuck
  }

  function Act(o: Oracle, tr: Trace, a: Action): EvalResult {
    var v := o(tr, a);
    Val(v, tr + [Event(a, v)])
  }

  /** A void call is performed like any other; its value is the unit. */
  function ActCall(o: Oracle, tr: Trace, target: Target, ret: Type, args: seq<Value>): EvalResult {
    var a := ACall(target, args);
    var v := if ret.TVoid? then VUnit else o(tr, a);
    Val(v, tr + [Event(a, v)])
  }

  function Eval(o: Oracle, env: Env, tr: Trace, e: Expr): EvalResult
    decreases e, 1
  {
    match e
    case Int(n) => Val(VInt(n), tr)
    case Bool(b) => Val(VBool(b), tr)
    case Str(s) => Val(VStr(s), tr)
    case Local(x) => Lift(Lookup(env, x), tr)
    case Unary(op, a) =>
      var r := Eval(o, env, tr, a);
      if r.Stuck? then Stuck else Lift(ApplyUnary(op, r.value), r.trace)
    case Binary(_, _, _, _) => EvalBinary(o, env, tr, e)
    case IfExpr(c, t, f) =>
      var r := Eval(o, env, tr, c);
      if !(r.Val? && r.value.VBool?) then Stuck
      else Eval(o, env, r.trace, if r.value.b then t else f)
    case Call(target, ret, args) =>
      var r := EvalArgs(o, env, tr, args);
      if r.StuckArgs? then Stuck else ActCall(o, r.trace, target, ret, r.values)
    case Field(base, f) =>
      var r := Eval(o, env, tr, base);
      if r.Stuck? then Stuck else Lift(FieldOf(r.value, f), r.trace)
    case Ok(inner) =>
      var r := Eval(o, env, tr, inner);
      if r.Stuck? then Stuck else Val(VResult(true, r.value), r.trace)
    case Err(t) => if t.TResult? then Val(Zero(t), tr) else Stuck
    case ZAlloc(t, z) =>
      var h := Lookup(env, z);
      if h.None? then Stuck else Act(o, tr, AZoneAlloc(h.value, VSize(t)))
  }

  function EvalBinary(o: Oracle, env: Env, tr: Trace, e: Expr): EvalResult
    requires e.Binary?
    decreases e, 0
  {
    var op := e.bop;
    var a := Eval(o, env, tr, e.left);
    if a.Stuck? then Stuck
    else if op.And? || op.Or? then
      if !a.value.VBool? then Stuck
      else if a.value.b == op.Or? then a
      else
        var b := Eval(o, env, a.trace, e.right);
        if b.Val? && b.value.VBool? then b else Stuck
    else
      var b := Eval(o, env, a.trace, e.right);
      if b.Stuck? then Stuck else Lift(ApplyBinary(op, e.operands, a.value, b.value), b.trace)
  }

  function EvalArgs(o: Oracle, env: Env, tr: Trace, args: seq<Expr>): EvalsResult
    decreases args, 0
  {
    if args == [] then Vals([], tr)
    else
      var r := Eval(o, env, tr, args[0]);
      if r.Stuck? then StuckArgs
      else
        var rest := EvalArgs(o, env, r.trace, args[1..]);
        if rest.StuckArgs? then StuckArgs else Vals([r.value] + rest.values, rest.trace)
  }

  /** Leaving a scope drops the bindings made since the environment had n of them. */
  function Leave(n: nat, out: Outcome): Outcome {
    if out.Next? && n <= |out.env| then Next(out.env[|out.env| - n..], out.trace) else out
  }

  function ExecStmts(o: Oracle, fuel: nat, env: Env, tr: Trace, ss: seq<Stmt>): Outcome
    decreases fuel, ss, 0
  {
    if ss == [] then Next(env, tr)
    else
      var out := ExecStmt(o, fuel, env, tr, ss[0]);
      if out.Next? then ExecStmts(o, fuel, out.env, out.trace, ss[1..]) else out
  }

  function ExecBlock(o: Oracle, fuel: nat, env: Env, tr: Trace, ss: seq<Stmt>): Outcome
    decreases fuel, ss, 1
  {
    Leave(|env|, ExecStmts(o, fuel, env, tr, ss))
  }

  function ExecStmt(o: Oracle, fuel: nat, env: Env, tr: Trace, s: Stmt): Outcome
    decreases fuel, s, 0
  {
    match s
    case Let(x, e) =>
      var r := Eval(o, env, tr, e);
      if r.Stuck? then Undefined else Next([Binding(x, r.value)] + env, r.trace)
    case Assign(x, e) =>
      var r := Eval(o, env, tr, e);
      if r.Stuck? || Lookup(env, x).None? then Undefined else Next(Update(env, x, r.value), r.trace)
    case Return(e) =>
      if e.None? then Returned(VUnit, tr)
      else
        var r := Eval(o, env, tr, e.value);
        if r.Stuck? then Undefined else Returned(r.value, r.trace)
    case ExprStmt(e) =>
      var r := Eval(o, env, tr, e);
      if r.Stuck? then Undefined else Next(env, r.trace)
    case Free(e) =>
      var r := Eval(o, env, tr, e);
      if r.Stuck? then Undefined else Next(env, r.trace + [Event(AFree(r.value), VUnit)])
    case Zone(z, body) =>
      var h := Act(o, tr, AZoneEnter);
      Leave(|env|, ExecBlock(o, fuel, [Binding(z, h.value)] + env, h.trace, body))
    case IfThen(c, t) =>
      var r := Eval(o, env, tr, c);
      if !(r.Val? && r.value.VBool?) then Undefined
      else if r.value.b then ExecBlock(o, fuel, env, r.trace, t)
      else Next(env, r.trace)
    case IfElse(c, t, f) =>
      var r := Eval(o, env, tr, c);
      if !(r.Val? && r.value.VBool?) then Undefined
      else ExecBlock(o, fuel, env, r.trace, if r.value.b then t else f)
    case While(c, body) => ExecWhile(o, fuel, env, tr, c, body)
    case Loop(body) => ExecWhile(o, fuel, env, tr, Bool(true), body)
    case For(x, a, b, body) =>
      var lo := Eval(o, env, tr, a);
      if lo.Stuck? then Undefined
      else
        var hi := Eval(o, env, lo.trace, b);
        if !(hi.Val? && hi.value.VInt?) then Undefined
        else Leave(|env|, ExecFor(o, fuel, [Binding(x, lo.value)] + env, hi.trace, hi.value.i, body))
  }

  /** `loop` is `while true`. */
  function ExecWhile(o: Oracle, fuel: nat, env: Env, tr: Trace, c: Expr, body: seq<Stmt>): Outcome
    decreases fuel, body, 2
  {
    if fuel == 0 then OutOfFuel(tr)
    else
      var r := Eval(o, env, tr, c);
      if !(r.Val? && r.value.VBool?) then Undefined
      else if !r.value.b then Next(env, r.trace)
      else
        var out := ExecBlock(o, fuel, env, r.trace, body);
        if out.Next? then ExecWhile(o, fuel - 1, out.env, out.trace, c, body) else out
  }

  /** The iterations of a range loop whose variable is the innermost binding of env. */
  function ExecFor(o: Oracle, fuel: nat, env: Env, tr: Trace, end: int, body: seq<Stmt>): Outcome
    decreases fuel, body, 2
  {
    if fuel == 0 then OutOfFuel(tr)
    else if env == [] || !env[0].value.VInt? then Undefined
    else if end <= env[0].value.i then Next(env, tr)
    else
      var out := ExecBlock(o, fuel, env, tr, body);
      if !out.Next? then out
      else if out.env == [] || !out.env[0].value.VInt? || !InInt64(out.env[0].value.i + 1) then Undefined
      else
        var next := Binding(out.env[0].name, VInt(out.env[0].value.i + 1));
        ExecFor(o, fuel - 1, [next] + out.env[1..], out.trace, end, body)
  }
}
