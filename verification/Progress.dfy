/** Checked programs do not go wrong: a well-typed body without arithmetic is never undefined,
    whatever its callees answer, so that everything said of defined runs is said of all of its
    runs (src/sema/typecheck.c:2651-2891). */
module Progress {
  import opened Ir
  import opened Values
  import opened IrSemantics
  import opened Source

  /** The value of an err string is the null pointer. */
  predicate Holds(v: Value, t: Type)
    decreases t
  {
    match t
    case TInt => v.VInt? && InInt64(v.i)
    case TBool => v.VBool?
    case TStr => v.VStr? || v == VPtr(0)
    case TPtr => v.VPtr?
    case TVoid => v.VUnit?
    case TResult(inner) => v.VResult? && Holds(v.payload, inner)
  }

  lemma {:induction false} ZeroHolds(t: Type)
    ensures Holds(Zero(t), t)
    decreases t
  {
    if t.TResult? {
      ZeroHolds(t.inner);
    }
  }

  /** Equality never looks at a string that may be null. */
  predicate Equatable(t: Type) { if t.TResult? then Equatable(t.inner) else !t.TStr? && !t.TVoid? }

  lemma {:induction false} EqualityHolds(t: Type, v: Value, w: Value)
    requires Equatable(t) && Holds(v, t) && Holds(w, t)
    ensures EqualAt(t, v, w).Some?
    decreases t
  {
    if t.TResult? {
      EqualityHolds(t.inner, v.payload, w.payload);
    }
  }

  // Types

  datatype Var = Var(name: string, ty: Type, mut: bool)

  /** The constants with their types, and the callees' return types. */
  datatype Globals = Globals(cs: seq<Const>, types: seq<Type>, sig: Target -> Type)

  function FindVar(vars: seq<Var>, x: string): Option<Var> {
    if vars == [] then None else if vars[0].name == x then Some(vars[0]) else FindVar(vars[1..], x)
  }

  function TypeOf(g: Globals, limit: nat, vars: seq<Var>, inZone: bool, e: SExpr): Option<Type>
    requires limit <= |g.cs| == |g.types|
    decreases e, 1
  {
    match e
    case SInt(n) => if InInt64(n) then Some(TInt) else None
    case SBool(_) => Some(TBool)
    case SStr(_) => Some(TStr)
    case SName(x) =>
      var v := FindVar(vars, x);
      if v.Some? then Some(v.value.ty)
      else
        var k :- FindConst(g.cs, limit, x);
        Some(g.types[k])
    case SUnary(op, a) =>
      if op == Not && TypeOf(g, limit, vars, inZone, a) == Some(TBool) then Some(TBool) else None
    case SBinary(op, t, l, r) =>
      var a :- TypeOf(g, limit, vars, inZone, l);
      var b :- TypeOf(g, limit, vars, inZone, r);
      if a != b || IsArithmetic(op) then None
      else if op.And? || op.Or? then (if a == TBool then Some(TBool) else None)
      else if IsComparison(op) then (if a == TInt then Some(TBool) else None)
      else if a == t && Equatable(t) then Some(TBool)
      else None
    case SIfExpr(c, t, f) =>
      var a :- TypeOf(g, limit, vars, inZone, t);
      if TypeOf(g, limit, vars, inZone, c) == Some(TBool) && TypeOf(g, limit, vars, inZone, f) == Some(a) then Some(a)
      else None
    case SCall(target, ret, args) =>
      if ret == g.sig(target) && ArgsTyped(g, limit, vars, inZone, args) then Some(ret) else None
    case SField(base, f) =>
      var t :- TypeOf(g, limit, vars, inZone, base);
      if !t.TResult? then None else Some(if f == OkField then TBool else t.inner)
    case SOk(a) =>
      var t :- TypeOf(g, limit, vars, inZone, a);
      Some(TResult(t))
    case SErr(t) => if t.TResult? then Some(t) else None
    case SZAlloc(_) => if inZone then Some(TPtr) else None
  }

  predicate ArgsTyped(g: Globals, limit: nat, vars: seq<Var>, inZone: bool, args: seq<SExpr>)
    requires limit <= |g.cs| == |g.types|
    decreases args, 0
  {
    args == [] || (TypeOf(g, limit, vars, inZone, args[0]).Some? && ArgsTyped(g, limit, vars, inZone, args[1..]))
  }

  /** Constants have their types outside every scope. */
  ghost predicate ConstsTyped(g: Globals) {
    |g.cs| == |g.types| && forall k :: 0 <= k < |g.cs| ==> TypeOf(g, k, [], false, g.cs[k].init) == Some(g.types[k])
  }

  predicate Typed(g: Globals, ret: Type, vars: seq<Var>, inZone: bool, ss: seq<SStmt>)
    requires |g.cs| == |g.types|
    decreases ss, 0
  {
    ss == [] || (TypedStmt(g, ret, vars, inZone, ss[0]) && Typed(g, ret, Binds(ss[0]) + vars, inZone, ss[1..]))
  }

  function Binds(s: SStmt): seq<Var> {
    match s
    case SLet(x, mut, ty, _) => [Var(x, ty, mut)]
    case STry(x, ty, _) => [Var(x, ty, false)]
    case _ => []
  }

  predicate TypedStmt(g: Globals, ret: Type, vars: seq<Var>, inZone: bool, s: SStmt)
    requires |g.cs| == |g.types|
    decreases s, 1
  {
    var n := |g.cs|;
    match s
    case SLet(_, _, ty, e) => TypeOf(g, n, vars, inZone, e) == Some(ty)
    case SAssign(x, e) =>
      var v := FindVar(vars, x);
      v.Some? && v.value.mut && TypeOf(g, n, vars, inZone, e) == Some(v.value.ty)
    case SReturn(e) => if e.None? then ret == TVoid else TypeOf(g, n, vars, inZone, e.value) == Some(ret)
    case SExprStmt(e) => TypeOf(g, n, vars, inZone, e).Some?
    case SFree(e) => TypeOf(g, n, vars, inZone, e) in {Some(TPtr), Some(TStr)}
    case SDefer(d) => TypeOf(g, n, vars, inZone, d.e).Some?
    case STry(_, ty, e) => ret.TResult? && TypeOf(g, n, vars, inZone, e) == Some(TResult(ty))
    case SZone(body) => Typed(g, ret, vars, true, body)
    case SIfThen(c, t) => TypeOf(g, n, vars, inZone, c) == Some(TBool) && Typed(g, ret, vars, inZone, t)
    case SIfElse(c, t, f) =>
      && TypeOf(g, n, vars, inZone, c) == Some(TBool)
      && Typed(g, ret, vars, inZone, t) && Typed(g, ret, vars, inZone, f)
    case SWhile(c, body) => TypeOf(g, n, vars, inZone, c) == Some(TBool) && Typed(g, ret, vars, inZone, body)
    case SLoop(body) => Typed(g, ret, vars, inZone, body)
    case SFor(x, a, b, body) =>
      && TypeOf(g, n, vars, inZone, a) == Some(TInt) && TypeOf(g, n, vars, inZone, b) == Some(TInt)
      && Typed(g, ret, [Var(x, TInt, false)] + vars, inZone, body)
  }

  // Values

  ghost predicate EnvFits(vars: seq<Var>, env: Env) {
    && |vars| == |env|
    && forall i :: 0 <= i < |env| ==> env[i].name == User(vars[i].name) && Holds(env[i].value, vars[i].ty)
  }

  /** Callees answer with their return type, and the allocator with pointers. */
  ghost predicate OracleFits(g: Globals, o: Oracle) {
    forall tr: Trace, a: Action ::
      && (a.ACall? && g.sig(a.target) != TVoid ==> Holds(o(tr, a), g.sig(a.target)))
      && (a.AZoneAlloc? ==> o(tr, a).VPtr?)
  }

  lemma {:induction false} FindFits(vars: seq<Var>, env: Env, x: string)
    requires EnvFits(vars, env)
    ensures FindVar(vars, x).Some? <==> Lookup(env, User(x)).Some?
    ensures FindVar(vars, x).Some? ==> Holds(Lookup(env, User(x)).value, FindVar(vars, x).value.ty)
    decreases vars
  {
    if vars != [] {
      assert env[0].name == User(vars[0].name);
      FindFits(vars[1..], env[1..], x);
    }
  }

  /** A typed expression has a value of its type. */
  lemma {:induction false} ExprProgress(c: Context, g: Globals, limit: nat, vars: seq<Var>, env: Env, zones: seq<Value>,
      tr: Trace, e: SExpr)
    requires ConstsTyped(g) && g.cs == c.cs && limit <= |g.cs| && OracleFits(g, c.o) && EnvFits(vars, env)
    requires TypeOf(g, limit, vars, zones != [], e).Some?
    ensures
      var r := EvalS(c.o, c.cs, limit, env, zones, tr, e);
      r.Val? && Holds(r.value, TypeOf(g, limit, vars, zones != [], e).value)
    decreases limit, e, 1
  {
    hide OracleFits, EnvFits, Holds;
    match e
    case SName(x) => NameProgress(c, g, limit, vars, env, zones, tr, e);
    case SUnary(_, a) =>
      ExprProgress(c, g, limit, vars, env, zones, tr, a);
      BoolHolds(EvalS(c.o, c.cs, limit, env, zones, tr, a).value);
      BoolHolds(EvalS(c.o, c.cs, limit, env, zones, tr, e).value);
    case SBinary(_, _, _, _) => BinaryProgress(c, g, limit, vars, env, zones, tr, e);
    case SIfExpr(b, t, f) =>
      ExprProgress(c, g, limit, vars, env, zones, tr, b);
      var r := EvalS(c.o, c.cs, limit, env, zones, tr, b);
      BoolHolds(r.value);
      ExprProgress(c, g, limit, vars, env, zones, r.trace, if r.value.b then t else f);
    case SCall(target, _, args) =>
      ArgsProgress(c, g, limit, vars, env, zones, tr, args);
      var r := EvalSArgs(c.o, c.cs, limit, env, zones, tr, args);
      CallHolds(g, c.o, r.trace, target, r.values);
    case SField(base, f) =>
      ExprProgress(c, g, limit, vars, env, zones, tr, base);
      var r := EvalS(c.o, c.cs, limit, env, zones, tr, base);
      FieldHolds(r.value, TypeOf(g, limit, vars, zones != [], base).value, f);
    case SOk(a) =>
      ExprProgress(c, g, limit, vars, env, zones, tr, a);
      OkHolds(EvalS(c.o, c.cs, limit, env, zones, tr, a).value, TypeOf(g, limit, vars, zones != [], a).value);
    case SErr(t) => ZeroHolds(t);
    case SZAlloc(t) => AllocHolds(g, c.o, tr, AZoneAlloc(zones[0], VSize(t)));
    case SInt(n) => LiteralHolds(n, false, "");
    case SBool(b) => LiteralHolds(0, b, "");
    case SStr(s) => LiteralHolds(0, false, s);
  }

  lemma LiteralHolds(n: int, b: bool, s: string)
    ensures (InInt64(n) ==> Holds(VInt(n), TInt)) && Holds(VBool(b), TBool) && Holds(VStr(s), TStr)
  {
  }

  lemma BoolHolds(v: Value)
    ensures Holds(v, TBool) <==> v.VBool?
  {
  }

  lemma OkHolds(v: Value, t: Type)
    requires Holds(v, t)
    ensures Holds(VResult(true, v), TResult(t))
  {
  }

  lemma FieldHolds(v: Value, t: Type, f: FieldName)
    requires t.TResult? && Holds(v, t)
    ensures FieldOf(v, f).Some? && Holds(FieldOf(v, f).value, if f == OkField then TBool else t.inner)
  {
  }

  lemma CallHolds(g: Globals, o: Oracle, tr: Trace, target: Target, args: seq<Value>)
    requires OracleFits(g, o)
    ensures
      var r := ActCall(o, tr, target, g.sig(target), args);
      r.Val? && Holds(r.value, g.sig(target))
  {
    assert ACall(target, args).target == target;
  }

  lemma AllocHolds(g: Globals, o: Oracle, tr: Trace, a: Action)
    requires OracleFits(g, o) && a.AZoneAlloc?
    ensures Holds(o(tr, a), TPtr)
  {
  }

  lemma {:induction false} NameProgress(c: Context, g: Globals, limit: nat, vars: seq<Var>, env: Env, zones: seq<Value>,
      tr: Trace, e: SExpr)
    requires ConstsTyped(g) && g.cs == c.cs && limit <= |g.cs| && OracleFits(g, c.o) && EnvFits(vars, env)
    requires e.SName? && TypeOf(g, limit, vars, zones != [], e).Some?
    ensures
      var r := EvalS(c.o, c.cs, limit, env, zones, tr, e);
      r.Val? && Holds(r.value, TypeOf(g, limit, vars, zones != [], e).value)
    decreases limit, e, 0
  {
    hide OracleFits, Holds;
    FindFits(vars, env, e.id);
    if FindVar(vars, e.id).None? {
      var k := FindConst(g.cs, limit, e.id).value;
      assert EnvFits([], []);
      ExprProgress(c, g, k, [], [], [], tr, g.cs[k].init);
    }
  }

  lemma {:induction false} BinaryProgress(c: Context, g: Globals, limit: nat, vars: seq<Var>, env: Env,
      zones: seq<Value>, tr: Trace, e: SExpr)
    requires ConstsTyped(g) && g.cs == c.cs && limit <= |g.cs| && OracleFits(g, c.o) && EnvFits(vars, env)
    requires e.SBinary? && TypeOf(g, limit, vars, zones != [], e).Some?
    ensures
      var r := EvalS(c.o, c.cs, limit, env, zones, tr, e);
      r.Val? && Holds(r.value, TypeOf(g, limit, vars, zones != [], e).value)
    decreases limit, e, 0
  {
    hide OracleFits, EnvFits, Holds;
    ExprProgress(c, g, limit, vars, env, zones, tr, e.left);
    var a := EvalS(c.o, c.cs, limit, env, zones, tr, e.left);
    ExprProgress(c, g, limit, vars, env, zones, a.trace, e.right);
    var b := EvalS(c.o, c.cs, limit, env, zones, a.trace, e.right);
    BoolHolds(a.value);
    BoolHolds(b.value);
    assert EvalS(c.o, c.cs, limit, env, zones, tr, e) == EvalSBinary(c.o, c.cs, limit, env, zones, tr, e);
    if !e.bop.And? && !e.bop.Or? {
      StrictHolds(e.bop, e.operands, TypeOf(g, limit, vars, zones != [], e.left).value, a.value, b.value);
    }
  }

  lemma {:induction false} StrictHolds(op: BinaryOp, t: Type, s: Type, v: Value, w: Value)
    requires !op.And? && !op.Or? && !IsArithmetic(op) && Holds(v, s) && Holds(w, s)
    requires if IsComparison(op) then s == TInt else s == t && Equatable(t)
    ensures ApplyBinary(op, t, v, w).Some? && Holds(ApplyBinary(op, t, v, w).value, TBool)
  {
    if op.Equal? || op.NotEqual? {
      EqualityHolds(t, v, w);
    }
  }

  lemma {:induction false} ArgsProgress(c: Context, g: Globals, limit: nat, vars: seq<Var>, env: Env, zones: seq<Value>,
      tr: Trace, args: seq<SExpr>)
    requires ConstsTyped(g) && g.cs == c.cs && limit <= |g.cs| && OracleFits(g, c.o) && EnvFits(vars, env)
    requires ArgsTyped(g, limit, vars, zones != [], args)
    ensures EvalSArgs(c.o, c.cs, limit, env, zones, tr, args).Vals?
    decreases limit, args, 0
  {
    hide OracleFits, EnvFits, Holds;
    if args != [] {
      ExprProgress(c, g, limit, vars, env, zones, tr, args[0]);
      ArgsProgress(c, g, limit, vars, env, zones, EvalS(c.o, c.cs, limit, env, zones, tr, args[0]).trace, args[1..]);
    }
  }

  // Runs

  /** Values of the same types, and the immutable ones as they were. */
  ghost predicate Same(vars: seq<Var>, env: Env, env': Env) {
    && EnvFits(vars, env') && |env| == |env'|
    && forall i :: 0 <= i < |env| && !vars[i].mut ==> env'[i] == env[i]
  }

  lemma SameThen(vars: seq<Var>, a: Env, b: Env, c: Env)
    requires Same(vars, a, b) && Same(vars, b, c)
    ensures Same(vars, a, c)
  {
  }

  /** A run that is defined, with what it leaves of the bindings there were. */
  ghost predicate Goes(vars: seq<Var>, ret: Type, env: Env, out: Outcome) {
    && !out.Undefined?
    && (out.Returned? ==> Holds(out.value, ret))
    && (out.Next? ==> |env| <= |out.env| && Same(vars, env, out.env[|out.env| - |env|..]))
  }

  /** Pending statements are typed where they were written. */
  ghost predicate FrameFits(g: Globals, vars: seq<Var>, nz: nat, frame: Frame)
    requires |g.cs| == |g.types|
  {
    forall x :: x in frame && x.Pending? ==>
      && x.depth <= |vars| && x.zoneDepth <= nz
      && TypeOf(g, |g.cs|, vars[|vars| - x.depth..], x.zoneDepth > 0, x.d.e).Some?
  }

  ghost predicate FramesFit(g: Globals, vars: seq<Var>, nz: nat, frames: seq<Frame>)
    requires |g.cs| == |g.types|
  {
    forall i :: 0 <= i < |frames| ==> FrameFits(g, vars, nz, frames[i])
  }

  /** Everything a run starts from fits the types. */
  ghost predicate Fits(c: Context, g: Globals, vars: seq<Var>, env: Env, zones: seq<Value>, frames: seq<Frame>) {
    && ConstsTyped(g) && g.cs == c.cs && OracleFits(g, c.o) && EnvFits(vars, env)
    && FramesFit(g, vars, |zones|, frames)
  }

  lemma {:induction false} FramesMore(g: Globals, vars: seq<Var>, nz: nat, frames: seq<Frame>, more: seq<Var>, nz': nat)
    requires |g.cs| == |g.types| && FramesFit(g, vars, nz, frames) && nz <= nz'
    ensures FramesFit(g, more + vars, nz', frames)
  {
    var all := more + vars;
    forall i | 0 <= i < |frames|
      ensures FrameFits(g, all, nz', frames[i])
    {
      assert FrameFits(g, vars, nz, frames[i]);
      forall x | x in frames[i] && x.Pending?
        ensures all[|all| - x.depth..] == vars[|vars| - x.depth..]
      {
      }
    }
  }

  lemma FitsEnv(c: Context, g: Globals, vars: seq<Var>, env: Env, zones: seq<Value>, frames: seq<Frame>, env': Env)
    requires Fits(c, g, vars, env, zones, frames) && EnvFits(vars, env')
    ensures Fits(c, g, vars, env', zones, frames)
  {
  }

  lemma {:induction false} FitsPush(c: Context, g: Globals, vars: seq<Var>, env: Env, zones: seq<Value>,
      frames: seq<Frame>, x: Var, v: Value)
    requires Fits(c, g, vars, env, zones, frames) && Holds(v, x.ty)
    ensures Fits(c, g, [x] + vars, [Binding(User(x.name), v)] + env, zones, frames)
  {
    hide OracleFits, Holds;
    FramesMore(g, vars, |zones|, frames, [x], |zones|);
  }

  lemma {:induction false} FitsInner(c: Context, g: Globals, vars: seq<Var>, env: Env, zones: seq<Value>,
      frames: seq<Frame>, frame: Frame)
    requires Fits(c, g, vars, env, zones, frames) && forall x :: x in frame ==> x.Release?
    ensures Fits(c, g, vars, env, zones, [frame] + frames)
  {
    hide OracleFits, EnvFits;
  }

  lemma {:induction false} FrameProgress(c: Context, g: Globals, vars: seq<Var>, env: Env, zones: seq<Value>, tr: Trace,
      frame: Frame)
    requires ConstsTyped(g) && g.cs == c.cs && OracleFits(g, c.o) && EnvFits(vars, env)
    requires FrameFits(g, vars, |zones|, frame)
    ensures RunFrame(c, env, zones, tr, frame).Some?
    decreases frame
  {
    hide OracleFits, TypeOf, EvalS;
    if frame != [] {
      var x := frame[0];
      if x.Pending? {
        assert x in frame;
        var zs := Innermost(zones, x.zoneDepth);
        assert (zs != []) == (x.zoneDepth > 0);
        ExprProgress(c, g, |c.cs|, vars[|vars| - x.depth..], Innermost(env, x.depth), zs, tr, x.d.e);
      }
      var t := RunEntry(c, env, zones, tr, x);
      FrameProgress(c, g, vars, env, zones, t.value, frame[1..]);
    }
  }

  lemma {:induction false} FramesProgress(c: Context, g: Globals, vars: seq<Var>, env: Env, zones: seq<Value>,
      tr: Trace,
      frames: seq<Frame>)
    requires Fits(c, g, vars, env, zones, frames)
    ensures RunFrames(c, env, zones, tr, frames).Some?
    decreases frames
  {
    hide OracleFits, EnvFits, RunFrame, FrameFits;
    if frames != [] {
      FrameProgress(c, g, vars, env, zones, tr, frames[0]);
      FramesProgress(c, g, vars, env, zones, RunFrame(c, env, zones, tr, frames[0]).value, frames[1..]);
    }
  }

  lemma SameSelf(vars: seq<Var>, env: Env)
    requires EnvFits(vars, env)
    ensures Same(vars, env, env) && env[|env| - |env|..] == env
  {
  }

  /** Dropping the bindings made since keeps the others. */
  lemma {:induction false} GoesOn(vars: seq<Var>, ret: Type, env: Env, more: seq<Var>, env1: Env, out: Outcome)
    requires Goes(more + vars, ret, env1, out) && |env1| == |more| + |env| && |env| == |vars|
    requires Same(vars, env, env1[|more|..])
    ensures Goes(vars, ret, env, out)
  {
    hide Holds;
    if out.Next? {
      var mid := out.env[|out.env| - |env1|..];
      var last := out.env[|out.env| - |env|..];
      assert mid[|more|..] == last;
      assert forall i :: 0 <= i < |env| ==> last[i] == mid[|more| + i] && (more + vars)[|more| + i] == vars[i];
      assert EnvFits(vars, last);
    }
  }

  /** No run of the rest of a typed block is undefined. */
  lemma {:induction false} RestProgress(c: Context, g: Globals, fuel: nat, vars: seq<Var>, env: Env, zones: seq<Value>,
      frames: seq<Frame>, tr: Trace, ss: seq<SStmt>)
    requires frames != [] && Fits(c, g, vars, env, zones, frames) && Typed(g, c.ret, vars, zones != [], ss)
    ensures Goes(vars, c.ret, env, ExecRest(c, fuel, env, zones, frames, tr, ss))
    decreases fuel, ss, 2
  {
    hide OracleFits, EnvFits, RunFrame, RunFrames, FrameFits, TypeOf, EvalS, Same, Holds, ConstsTyped, ExecS, TypedStmt,
      ExecReturn;
    FitsParts(c, g, vars, env, zones, frames);
    if ss == [] {
      FrameProgress(c, g, vars, env, zones, tr, frames[0]);
      SameSelf(vars, env);
    } else {
      match ss[0]
      case SDefer(d) => DeferProgress(c, g, fuel, vars, env, zones, frames, tr, ss);
      case SReturn(e) => ReturnProgress(c, g, vars, env, zones, frames, tr, ss[0]);
      case STry(_, _, _) => TryProgress(c, g, fuel, vars, env, zones, frames, tr, ss);
      case _ => StepProgress(c, g, fuel, vars, env, zones, frames, tr, ss);
    }
  }

  lemma FitsParts(c: Context, g: Globals, vars: seq<Var>, env: Env, zones: seq<Value>, frames: seq<Frame>)
    requires Fits(c, g, vars, env, zones, frames)
    ensures ConstsTyped(g) && g.cs == c.cs && OracleFits(g, c.o) && EnvFits(vars, env) && |vars| == |env|
    ensures |g.cs| == |g.types| && (frames != [] ==> FrameFits(g, vars, |zones|, frames[0]))
  {
  }

  lemma {:induction false} DeferProgress(c: Context, g: Globals, fuel: nat, vars: seq<Var>, env: Env, zones: seq<Value>,
      frames: seq<Frame>, tr: Trace, ss: seq<SStmt>)
    requires frames != [] && Fits(c, g, vars, env, zones, frames) && Typed(g, c.ret, vars, zones != [], ss)
    requires ss != [] && ss[0].SDefer?
    ensures Goes(vars, c.ret, env, ExecRest(c, fuel, env, zones, frames, tr, ss))
    decreases fuel, ss, 1
  {
    hide OracleFits, EnvFits, FramesFit, FrameFits, RunFrame, TypeOf, EvalS, Same, Holds, ConstsTyped, ExecS, Fits;
    FitsParts(c, g, vars, env, zones, frames);
    DeferFits(c, g, vars, env, zones, frames, ss[0].deferred);
    assert Binds(ss[0]) + vars == vars;
    var own := [Pending(ss[0].deferred, |env|, |zones|)] + frames[0];
    RestProgress(c, g, fuel, vars, env, zones, [own] + frames[1..], tr, ss[1..]);
  }

  lemma {:induction false} DeferFits(c: Context, g: Globals, vars: seq<Var>, env: Env, zones: seq<Value>,
      frames: seq<Frame>, d: Deferred)
    requires frames != [] && Fits(c, g, vars, env, zones, frames) && |g.cs| == |g.types|
    requires TypeOf(g, |g.cs|, vars, zones != [], d.e).Some?
    ensures Fits(c, g, vars, env, zones, [[Pending(d, |env|, |zones|)] + frames[0]] + frames[1..])
  {
    hide OracleFits, EnvFits, TypeOf, ConstsTyped;
    FitsParts(c, g, vars, env, zones, frames);
    var own := [Pending(d, |env|, |zones|)] + frames[0];
    assert vars[|vars| - |env|..] == vars && (zones != []) == (|zones| > 0);
    assert FrameFits(g, vars, |zones|, own);
  }

  lemma {:induction false} ReturnProgress(c: Context, g: Globals, vars: seq<Var>, env: Env, zones: seq<Value>,
      frames: seq<Frame>, tr: Trace, s: SStmt)
    requires Fits(c, g, vars, env, zones, frames) && s.SReturn? && TypedStmt(g, c.ret, vars, zones != [], s)
    ensures Goes(vars, c.ret, env, ExecReturn(c, env, zones, frames, tr, s.result))
  {
    hide OracleFits, EnvFits, RunFrames, FrameFits, TypeOf, EvalS, Same, ConstsTyped;
    FitsParts(c, g, vars, env, zones, frames);
    FramesProgress(c, g, vars, env, zones, tr, frames);
    if s.result.Some? {
      ExprProgress(c, g, |c.cs|, vars, env, zones, RunFrames(c, env, zones, tr, frames).value, s.result.value);
    }
  }

  lemma {:induction false} TryProgress(c: Context, g: Globals, fuel: nat, vars: seq<Var>, env: Env, zones: seq<Value>,
      frames: seq<Frame>, tr: Trace, ss: seq<SStmt>)
    requires frames != [] && Fits(c, g, vars, env, zones, frames) && Typed(g, c.ret, vars, zones != [], ss)
    requires ss != [] && ss[0].STry?
    ensures Goes(vars, c.ret, env, ExecRest(c, fuel, env, zones, frames, tr, ss))
    decreases fuel, ss, 1
  {
    hide OracleFits, EnvFits, RunFrames, FramesFit, TypeOf, EvalS, Same, ConstsTyped, Holds, Fits, ExecS;
    var s := ss[0];
    FitsParts(c, g, vars, env, zones, frames);
    ExprProgress(c, g, |c.cs|, vars, env, zones, tr, s.init);
    var r := EvalS(c.o, c.cs, |c.cs|, env, zones, tr, s.init);
    PayloadHolds(r.value, s.ty);
    if r.value.ok {
      var env1 := [Binding(User(s.id), r.value.payload)] + env;
      FitsPush(c, g, vars, env, zones, frames, Var(s.id, s.ty, false), r.value.payload);
      RestProgress(c, g, fuel, Binds(s) + vars, env1, zones, frames, r.trace, ss[1..]);
      SameSelf(vars, env);
      assert env1[1..] == env;
      GoesOn(vars, c.ret, env, Binds(s), env1, ExecRest(c, fuel, env1, zones, frames, r.trace, ss[1..]));
    } else {
      FramesProgress(c, g, vars, env, zones, r.trace, frames);
      ZeroHolds(c.ret);
    }
  }

  lemma PayloadHolds(v: Value, t: Type)
    requires Holds(v, TResult(t))
    ensures v.VResult? && Holds(v.payload, t)
  {
  }

  lemma {:induction false} StepProgress(c: Context, g: Globals, fuel: nat, vars: seq<Var>, env: Env, zones: seq<Value>,
      frames: seq<Frame>, tr: Trace, ss: seq<SStmt>)
    requires frames != [] && Fits(c, g, vars, env, zones, frames) && Typed(g, c.ret, vars, zones != [], ss)
    requires ss != [] && !ss[0].SDefer? && !ss[0].SReturn? && !ss[0].STry?
    ensures Goes(vars, c.ret, env, ExecRest(c, fuel, env, zones, frames, tr, ss))
    decreases fuel, ss, 1
  {
    hide OracleFits, EnvFits, FramesFit, TypeOf, EvalS, Same, ConstsTyped, Holds, Fits, ExecS, TypedStmt;
    var s := ss[0];
    FitsParts(c, g, vars, env, zones, frames);
    StmtProgress(c, g, fuel, vars, env, zones, frames, tr, s);
    var out := ExecS(c, fuel, env, zones, frames, tr, s);
    if out.Next? {
      RestProgress(c, g, fuel, Binds(s) + vars, out.env, zones, frames, out.trace, ss[1..]);
      FitsParts(c, g, Binds(s) + vars, out.env, zones, frames);
      assert out.env[|out.env| - |env|..] == out.env[|Binds(s)|..];
      GoesOn(vars, c.ret, env, Binds(s), out.env, ExecRest(c, fuel, out.env, zones, frames, out.trace, ss[1..]));
    }
  }

  lemma {:induction false} InnerProgress(c: Context, g: Globals, fuel: nat, vars: seq<Var>, env: Env, zones: seq<Value>,
      frames: seq<Frame>, tr: Trace, ss: seq<SStmt>)
    requires Fits(c, g, vars, env, zones, frames) && Typed(g, c.ret, vars, zones != [], ss)
    ensures Goes(vars, c.ret, env, ExecInner(c, fuel, env, zones, frames, tr, ss))
    ensures
      var out := ExecInner(c, fuel, env, zones, frames, tr, ss);
      out.Next? ==> |out.env| == |env| && Same(vars, env, out.env) && Fits(c, g, vars, out.env, zones, frames)
    decreases fuel, ss, 3
  {
    hide OracleFits, EnvFits, FramesFit, ConstsTyped, Holds, ExecRest, Typed, Fits;
    FitsParts(c, g, vars, env, zones, frames);
    FitsInner(c, g, vars, env, zones, frames, []);
    RestProgress(c, g, fuel, vars, env, zones, [[]] + frames, tr, ss);
    var out := ExecInner(c, fuel, env, zones, frames, tr, ss);
    if out.Next? {
      assert out.env[|out.env| - |env|..] == out.env;
      FitsEnv(c, g, vars, env, zones, frames, out.env);
    }
  }

  lemma {:induction false} StmtProgress(c: Context, g: Globals, fuel: nat, vars: seq<Var>, env: Env, zones: seq<Value>,
      frames: seq<Frame>, tr: Trace, s: SStmt)
    requires Fits(c, g, vars, env, zones, frames) && |g.cs| == |g.types| && TypedStmt(g, c.ret, vars, zones != [], s)
    requires !s.SDefer? && !s.SReturn? && !s.STry?
    ensures Goes(vars, c.ret, env, ExecS(c, fuel, env, zones, frames, tr, s))
    ensures
      var out := ExecS(c, fuel, env, zones, frames, tr, s);
      out.Next? ==> |out.env| == |Binds(s)| + |env| && Fits(c, g, Binds(s) + vars, out.env, zones, frames)
    decreases fuel, s, 1
  {
    hide OracleFits, EnvFits, FramesFit, TypeOf, EvalS, Same, ConstsTyped, Holds, Fits, ExecInner, Typed;
    FitsParts(c, g, vars, env, zones, frames);
    SameSelf(vars, env);
    assert [] + vars == vars;
    var n := |c.cs|;
    match s
    case SLet(x, mut, ty, e) =>
      ExprProgress(c, g, n, vars, env, zones, tr, e);
      var r := EvalS(c.o, c.cs, n, env, zones, tr, e);
      FitsPush(c, g, vars, env, zones, frames, Var(x, ty, mut), r.value);
      assert ([Binding(User(x), r.value)] + env)[1..] == env;
    case SAssign(x, e) => AssignProgress(c, g, fuel, vars, env, zones, frames, tr, s);
    case SExprStmt(e) => ExprProgress(c, g, n, vars, env, zones, tr, e);
    case SFree(e) => ExprProgress(c, g, n, vars, env, zones, tr, e);
    case SZone(body) => ZoneProgress(c, g, fuel, vars, env, zones, frames, tr, s);
    case SIfThen(e, t) =>
      ExprProgress(c, g, n, vars, env, zones, tr, e);
      var r := EvalS(c.o, c.cs, n, env, zones, tr, e);
      BoolHolds(r.value);
      InnerProgress(c, g, fuel, vars, env, zones, frames, r.trace, t);
    case SIfElse(e, t, f) =>
      ExprProgress(c, g, n, vars, env, zones, tr, e);
      var r := EvalS(c.o, c.cs, n, env, zones, tr, e);
      BoolHolds(r.value);
      InnerProgress(c, g, fuel, vars, env, zones, frames, r.trace, if r.value.b then t else f);
    case SWhile(e, body) => WhileProgress(c, g, fuel, vars, env, zones, frames, tr, e, body);
    case SLoop(body) =>
      LiteralTyped(g, vars, zones != []);
      WhileProgress(c, g, fuel, vars, env, zones, frames, tr, SBool(true), body);
    case SFor(_, _, _, _) => ForStmtProgress(c, g, fuel, vars, env, zones, frames, tr, s);
  }

  lemma LiteralTyped(g: Globals, vars: seq<Var>, inZone: bool)
    requires |g.cs| == |g.types|
    ensures TypeOf(g, |g.cs|, vars, inZone, SBool(true)) == Some(TBool)
  {
  }

  lemma SamePush(vars: seq<Var>, env: Env, rest: Env)
    requires EnvFits(vars, env) && vars != [] && Same(vars[1..], env[1..], rest)
    ensures Same(vars, env, [env[0]] + rest)
  {
    var all := [env[0]] + rest;
    assert all[1..] == rest;
    assert forall i :: 0 < i < |env| ==>
        vars[i] == vars[1..][i - 1] && env[i] == env[1..][i - 1] && all[i] == rest[i - 1];
  }

  lemma {:induction false} UpdateFits(vars: seq<Var>, env: Env, x: string, v: Value)
    requires EnvFits(vars, env) && FindVar(vars, x).Some? && FindVar(vars, x).value.mut
    requires Holds(v, FindVar(vars, x).value.ty)
    ensures Same(vars, env, Update(env, User(x), v)) && Lookup(env, User(x)).Some?
    decreases vars
  {
    hide Holds;
    assert env[0].name == User(vars[0].name);
    FitsTail(vars, env);
    if vars[0].name != x {
      UpdateFits(vars[1..], env[1..], x, v);
      SamePush(vars, env, Update(env[1..], User(x), v));
    }
  }

  lemma {:induction false} AssignProgress(c: Context, g: Globals, fuel: nat, vars: seq<Var>, env: Env,
      zones: seq<Value>, frames: seq<Frame>, tr: Trace, s: SStmt)
    requires Fits(c, g, vars, env, zones, frames) && |g.cs| == |g.types| && TypedStmt(g, c.ret, vars, zones != [], s)
    requires s.SAssign?
    ensures Goes(vars, c.ret, env, ExecS(c, fuel, env, zones, frames, tr, s))
    ensures
      var out := ExecS(c, fuel, env, zones, frames, tr, s);
      out.Next? ==> |out.env| == |env| && Fits(c, g, vars, out.env, zones, frames)
  {
    hide OracleFits, FramesFit, TypeOf, EvalS, ConstsTyped, Holds, Update, EnvFits;
    FitsParts(c, g, vars, env, zones, frames);
    ExprProgress(c, g, |c.cs|, vars, env, zones, tr, s.rhs);
    var r := EvalS(c.o, c.cs, |c.cs|, env, zones, tr, s.rhs);
    UpdateFits(vars, env, s.id, r.value);
    var env' := Update(env, User(s.id), r.value);
    assert env'[|env'| - |env|..] == env';
  }

  lemma {:induction false} ZoneProgress(c: Context, g: Globals, fuel: nat, vars: seq<Var>, env: Env, zones: seq<Value>,
      frames: seq<Frame>, tr: Trace, s: SStmt)
    requires Fits(c, g, vars, env, zones, frames) && |g.cs| == |g.types| && TypedStmt(g, c.ret, vars, zones != [], s)
    requires s.SZone?
    ensures Goes(vars, c.ret, env, ExecS(c, fuel, env, zones, frames, tr, s))
    ensures
      var out := ExecS(c, fuel, env, zones, frames, tr, s);
      out.Next? ==> |out.env| == |env| && Fits(c, g, vars, out.env, zones, frames)
    decreases fuel, s, 0
  {
    hide OracleFits, EnvFits, FrameFits, ConstsTyped, Holds, ExecInner, Typed, Same;
    var h := Act(c.o, tr, AZoneEnter);
    var zones', frames' := [h.value] + zones, [[Release(h.value)]] + frames;
    FramesMore(g, vars, |zones|, frames, [], |zones'|);
    assert [] + vars == vars;
    FitsInner(c, g, vars, env, zones', frames, [Release(h.value)]);
    InnerProgress(c, g, fuel, vars, env, zones', frames', h.trace, s.body);
  }

  lemma {:induction false} WhileProgress(c: Context, g: Globals, fuel: nat, vars: seq<Var>, env: Env,
      zones: seq<Value>, frames: seq<Frame>, tr: Trace, e: SExpr, body: seq<SStmt>)
    requires Fits(c, g, vars, env, zones, frames) && |g.cs| == |g.types|
    requires TypeOf(g, |g.cs|, vars, zones != [], e) == Some(TBool) && Typed(g, c.ret, vars, zones != [], body)
    ensures Goes(vars, c.ret, env, ExecSWhile(c, fuel, env, zones, frames, tr, e, body))
    ensures
      var out := ExecSWhile(c, fuel, env, zones, frames, tr, e, body);
      out.Next? ==> |out.env| == |env| && Fits(c, g, vars, out.env, zones, frames)
    decreases fuel, body, 4
  {
    hide OracleFits, EnvFits, FramesFit, TypeOf, EvalS, ConstsTyped, Holds, Fits, ExecInner, Typed, Same;
    if fuel != 0 {
      FitsParts(c, g, vars, env, zones, frames);
      SameSelf(vars, env);
      ExprProgress(c, g, |c.cs|, vars, env, zones, tr, e);
      var r := EvalS(c.o, c.cs, |c.cs|, env, zones, tr, e);
      BoolHolds(r.value);
      InnerProgress(c, g, fuel, vars, env, zones, frames, r.trace, body);
      var out := ExecInner(c, fuel, env, zones, frames, r.trace, body);
      if r.value.b && out.Next? {
        WhileProgress(c, g, fuel - 1, vars, out.env, zones, frames, out.trace, e, body);
        GoesAfter(vars, c.ret, env, out.env, ExecSWhile(c, fuel - 1, out.env, zones, frames, out.trace, e, body));
      }
    }
  }

  lemma GoesAfter(vars: seq<Var>, ret: Type, env: Env, env1: Env, out: Outcome)
    requires Goes(vars, ret, env1, out) && Same(vars, env, env1)
    ensures Goes(vars, ret, env, out)
  {
    if out.Next? {
      SameThen(vars, env, env1, out.env[|out.env| - |env|..]);
    }
  }

  /** The turns of a `for`: its variable is immutable for the body and below the bound. */
  lemma {:induction false} ForProgress(c: Context, g: Globals, fuel: nat, x: string, vars: seq<Var>, env: Env,
      zones: seq<Value>, frames: seq<Frame>, tr: Trace, end: int, body: seq<SStmt>)
    requires Fits(c, g, [Var(x, TInt, false)] + vars, env, zones, frames) && |g.cs| == |g.types| && InInt64(end)
    requires Typed(g, c.ret, [Var(x, TInt, false)] + vars, zones != [], body)
    ensures
      var out := ExecSFor(c, fuel, env, zones, frames, tr, end, body);
      && !out.Undefined? && (out.Returned? ==> Holds(out.value, c.ret))
      && (out.Next? ==> |out.env| == |env| && Same(vars, env[1..], out.env[1..]))
    decreases fuel, body, 4
  {
    hide OracleFits, FramesFit, ConstsTyped, Fits, ExecInner, Typed, Same, EnvFits, Holds;
    var all := [Var(x, TInt, false)] + vars;
    FitsParts(c, g, all, env, zones, frames);
    FitsTail(all, env);
    IntHolds(env[0].value);
    assert all[1..] == vars;
    SameSelf(vars, env[1..]);
    if fuel != 0 && env[0].value.i < end {
      InnerProgress(c, g, fuel, all, env, zones, frames, tr, body);
      var out := ExecInner(c, fuel, env, zones, frames, tr, body);
      if out.Next? {
        TurnFits(c, g, x, vars, env, zones, frames, out.env);
        var next := [Binding(out.env[0].name, VInt(out.env[0].value.i + 1))] + out.env[1..];
        ForProgress(c, g, fuel - 1, x, vars, next, zones, frames, out.trace, end, body);
        var rest := ExecSFor(c, fuel - 1, next, zones, frames, out.trace, end, body);
        if rest.Next? {
          SameThen(vars, env[1..], next[1..], rest.env[1..]);
        }
      }
    }
  }

  /** What a turn hands to the next one. */
  lemma {:induction false} TurnFits(c: Context, g: Globals, x: string, vars: seq<Var>, env: Env, zones: seq<Value>,
      frames: seq<Frame>, env': Env)
    requires Fits(c, g, [Var(x, TInt, false)] + vars, env', zones, frames)
    requires Same([Var(x, TInt, false)] + vars, env, env')
    requires env != [] && env[0].value.VInt? && InInt64(env[0].value.i + 1)
    ensures
      var next := [Binding(env'[0].name, VInt(env[0].value.i + 1))] + env'[1..];
      && env'[0] == env[0] && next[1..] == env'[1..] && Same(vars, env[1..], env'[1..])
      && Fits(c, g, [Var(x, TInt, false)] + vars, next, zones, frames)
  {
    hide OracleFits, FramesFit, ConstsTyped, Fits, Same, EnvFits, Holds;
    var all := [Var(x, TInt, false)] + vars;
    assert all[1..] == vars;
    FitsParts(c, g, all, env', zones, frames);
    SameHead(all, env, env');
    var next := [Binding(env'[0].name, VInt(env[0].value.i + 1))] + env'[1..];
    NextFits(all, env', env[0].value.i + 1);
    FitsEnv(c, g, all, env', zones, frames, next);
  }

  lemma IntHolds(v: Value)
    requires Holds(v, TInt)
    ensures v.VInt? && InInt64(v.i)
  {
  }

  lemma FitsTail(vars: seq<Var>, env: Env)
    requires EnvFits(vars, env) && vars != []
    ensures EnvFits(vars[1..], env[1..]) && Holds(env[0].value, vars[0].ty)
  {
  }

  lemma SameHead(vars: seq<Var>, env: Env, env': Env)
    requires Same(vars, env, env') && vars != [] && !vars[0].mut
    ensures env'[0] == env[0] && Same(vars[1..], env[1..], env'[1..])
  {
  }

  lemma NextFits(vars: seq<Var>, env: Env, i: int)
    requires EnvFits(vars, env) && vars != [] && vars[0].ty == TInt && InInt64(i)
    ensures EnvFits(vars, [Binding(env[0].name, VInt(i))] + env[1..])
  {
  }

  lemma {:induction false} ForStmtProgress(c: Context, g: Globals, fuel: nat, vars: seq<Var>, env: Env,
      zones: seq<Value>, frames: seq<Frame>, tr: Trace, s: SStmt)
    requires Fits(c, g, vars, env, zones, frames) && |g.cs| == |g.types| && TypedStmt(g, c.ret, vars, zones != [], s)
    requires s.SFor?
    ensures Goes(vars, c.ret, env, ExecS(c, fuel, env, zones, frames, tr, s))
    ensures
      var out := ExecS(c, fuel, env, zones, frames, tr, s);
      out.Next? ==> |out.env| == |env| && Fits(c, g, vars, out.env, zones, frames)
    decreases fuel, s, 0
  {
    hide OracleFits, EnvFits, FramesFit, TypeOf, EvalS, ConstsTyped, Fits, Typed, ExecSFor;
    FitsParts(c, g, vars, env, zones, frames);
    ExprProgress(c, g, |c.cs|, vars, env, zones, tr, s.start);
    var lo := EvalS(c.o, c.cs, |c.cs|, env, zones, tr, s.start);
    ExprProgress(c, g, |c.cs|, vars, env, zones, lo.trace, s.end);
    var hi := EvalS(c.o, c.cs, |c.cs|, env, zones, lo.trace, s.end);
    var env1 := [Binding(User(s.id), lo.value)] + env;
    FitsPush(c, g, vars, env, zones, frames, Var(s.id, TInt, false), lo.value);
    ForProgress(c, g, fuel, s.id, vars, env1, zones, frames, hi.trace, hi.value.i, s.body);
    var out := ExecSFor(c, fuel, env1, zones, frames, hi.trace, hi.value.i, s.body);
    if out.Next? {
      assert env1[1..] == env && out.env[|out.env| - |env|..] == out.env[1..];
      FitsEnv(c, g, vars, env, zones, frames, out.env[1..]);
    }
  }

  /** A typed body without arithmetic is never undefined, for any fuel, callees and arguments. */
  lemma {:induction false} TypedIsDefined(c: Context, g: Globals, fuel: nat, vars: seq<Var>, args: Env,
      body: seq<SStmt>)
    requires ConstsTyped(g) && g.cs == c.cs && OracleFits(g, c.o) && EnvFits(vars, args)
    requires Typed(g, c.ret, vars, false, body)
    ensures
      var out := RunBody(c, fuel, args, [], body);
      !out.Undefined? && (out.Returned? ==> Holds(out.value, c.ret))
  {
    hide OracleFits, EnvFits, ConstsTyped, Typed, ExecRest, Holds, Same;
    assert Fits(c, g, vars, args, [], [[]]);
    RestProgress(c, g, fuel, vars, args, [], [[]], [], body);
  }
}
