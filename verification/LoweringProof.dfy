/** Lowering preserves meaning: for every body whose deferred statements are not captured by a
    later binding, and for every fuel, the lowered IR has the trace, outcome and value of the
    reference semantics. */
module LoweringProof {
  import opened Ir
  import opened Values
  import opened IrSemantics
  import opened Source
  import opened Lowering
  import opened LoweringRelation

  /** The names an expression mentions. */
  function NamesOf(e: SExpr): set<string>
    decreases e, 1
  {
    match e
    case SName(x) => {x}
    case SUnary(_, a) => NamesOf(a)
    case SBinary(_, _, l, r) => NamesOf(l) + NamesOf(r)
    case SIfExpr(c, t, f) => NamesOf(c) + NamesOf(t) + NamesOf(f)
    case SCall(_, _, args) => NamesOfAll(args)
    case SField(base, _) => NamesOf(base)
    case SOk(inner) => NamesOf(inner)
    case _ => {}
  }

  function NamesOfAll(args: seq<SExpr>): set<string>
    decreases args, 0
  {
    if args == [] then {} else NamesOf(args[0]) + NamesOfAll(args[1..])
  }

  /** A pending deferred statement and the locals visible where it was written. */
  datatype Watch = Watch(d: Deferred, names: seq<string>)

  /** No local the deferred statement uses has been bound again between the place it was
      written and an exit where `names` are visible. */
  predicate Uncaptured(names: seq<string>, w: Watch) {
    |w.names| <= |names| ==>
      forall x :: x in NamesOf(w.d.e) && x in w.names ==> x !in names[..|names| - |w.names|]
  }

  predicate FrameUncaptured(names: seq<string>, ws: set<Watch>) {
    forall w :: w in ws ==> Uncaptured(names, w)
  }

  predicate FramesUncaptured(names: seq<string>, wss: seq<set<Watch>>) {
    forall i :: 0 <= i < |wss| ==> FrameUncaptured(names, wss[i])
  }

  /** Uncaptured at every exit that copies the cleanup; wss are the pending deferred
      statements, frame by frame. */
  predicate DefersSafe(names: seq<string>, wss: seq<set<Watch>>, ss: seq<SStmt>)
    requires wss != []
    decreases ss, 0
  {
    if ss == [] then FrameUncaptured(names, wss[0])
    else
      match ss[0]
      case SDefer(d) => DefersSafe(names, [{Watch(d, names)} + wss[0]] + wss[1..], ss[1..])
      case SReturn(_) => FramesUncaptured(names, wss)
      case STry(x, _, _) => FramesUncaptured(names, wss) && DefersSafe([x] + names, wss, ss[1..])
      case SLet(x, _, _, _) => DefersSafe([x] + names, wss, ss[1..])
      case _ => DefersSafeIn(names, wss, ss[0]) && DefersSafe(names, wss, ss[1..])
  }

  predicate DefersSafeIn(names: seq<string>, wss: seq<set<Watch>>, s: SStmt)
    decreases s, 0
  {
    match s
    case SZone(body) => DefersSafe(names, [{}] + ([{}] + wss), body)
    case SIfThen(_, t) => DefersSafe(names, [{}] + wss, t)
    case SIfElse(_, t, f) => DefersSafe(names, [{}] + wss, t) && DefersSafe(names, [{}] + wss, f)
    case SWhile(_, body) => DefersSafe(names, [{}] + wss, body)
    case SLoop(body) => DefersSafe(names, [{}] + wss, body)
    case SFor(x, _, _, body) => DefersSafe([x] + names, [{}] + wss, body)
    case _ => true
  }

  /** The watches of a frame cover its deferred statements. */
  predicate Covers(ws: set<Watch>, frame: StaticFrame) {
    forall i :: 0 <= i < |frame| && frame[i].Captured? ==> Watch(frame[i].d, frame[i].scope.names) in ws
  }

  predicate CoversAll(wss: seq<set<Watch>>, frames: seq<StaticFrame>) {
    |wss| == |frames| && forall i :: 0 <= i < |frames| ==> Covers(wss[i], frames[i])
  }

  /** Every name of the expression means the same on both sides. */
  predicate Agree(sc: Scope, senv: Env, ienv: Env, names: set<string>) {
    forall x :: x in names ==>
      if x in sc.names then Lookup(senv, User(x)).Some? && Lookup(ienv, User(x)) == Lookup(senv, User(x))
      else Lookup(senv, User(x)).None?
  }

  predicate InnerZone(sc: Scope, ienv: Env, zones: seq<Value>) {
    |zones| == |sc.zones| && (zones != [] ==> Lookup(ienv, sc.zones[0]) == Some(zones[0]))
  }

  lemma {:induction false} ExprPreserved(o: Oracle, cs: seq<Const>, limit: nat, sc: Scope, senv: Env, ienv: Env,
      zones: seq<Value>, tr: Trace, e: SExpr)
    requires limit <= |cs| && LowerExpr(cs, limit, sc, e).Some?
    requires Agree(sc, senv, ienv, NamesOf(e)) && InnerZone(sc, ienv, zones)
    ensures Eval(o, ienv, tr, LowerExpr(cs, limit, sc, e).value) == EvalS(o, cs, limit, senv, zones, tr, e)
    decreases limit, e, 1
  {
    match e
    case SInt(_) =>
    case SBool(_) =>
    case SStr(_) =>
    case SErr(_) =>
    case SZAlloc(_) =>
    case SName(x) =>
      if x !in sc.names {
        var k := FindConst(cs, limit, x).value;
        ExprPreserved(o, cs, k, NO_SCOPE, [], ienv, [], tr, cs[k].init);
      }
    case SUnary(_, a) => ExprPreserved(o, cs, limit, sc, senv, ienv, zones, tr, a);
    case SField(a, _) => ExprPreserved(o, cs, limit, sc, senv, ienv, zones, tr, a);
    case SOk(a) => ExprPreserved(o, cs, limit, sc, senv, ienv, zones, tr, a);
    case SBinary(op, t, l, r) =>
      ExprPreserved(o, cs, limit, sc, senv, ienv, zones, tr, l);
      var a := EvalS(o, cs, limit, senv, zones, tr, l);
      if a.Val? {
        ExprPreserved(o, cs, limit, sc, senv, ienv, zones, a.trace, r);
      }
    case SIfExpr(c, t, f) =>
      ExprPreserved(o, cs, limit, sc, senv, ienv, zones, tr, c);
      var a := EvalS(o, cs, limit, senv, zones, tr, c);
      if a.Val? {
        ExprPreserved(o, cs, limit, sc, senv, ienv, zones, a.trace, t);
        ExprPreserved(o, cs, limit, sc, senv, ienv, zones, a.trace, f);
      }
    case SCall(_, _, args) => ArgsPreserved(o, cs, limit, sc, senv, ienv, zones, tr, args);
  }

  lemma {:induction false} ArgsPreserved(o: Oracle, cs: seq<Const>, limit: nat, sc: Scope, senv: Env, ienv: Env,
      zones: seq<Value>, tr: Trace, args: seq<SExpr>)
    requires limit <= |cs| && LowerArgs(cs, limit, sc, args).Some?
    requires Agree(sc, senv, ienv, NamesOfAll(args)) && InnerZone(sc, ienv, zones)
    ensures EvalArgs(o, ienv, tr, LowerArgs(cs, limit, sc, args).value) ==
      EvalSArgs(o, cs, limit, senv, zones, tr, args)
    decreases limit, args, 0
  {
    if args != [] {
      ExprPreserved(o, cs, limit, sc, senv, ienv, zones, tr, args[0]);
      var a := EvalS(o, cs, limit, senv, zones, tr, args[0]);
      if a.Val? {
        ArgsPreserved(o, cs, limit, sc, senv, ienv, zones, a.trace, args[1..]);
      }
      var rest := LowerArgs(cs, limit, sc, args[1..]).value;
      assert ([LowerExpr(cs, limit, sc, args[0]).value] + rest)[1..] == rest;
    }
  }

  lemma {:induction false} ExecAppend(o: Oracle, fuel: nat, env: Env, tr: Trace, a: seq<Stmt>, b: seq<Stmt>)
    ensures
      var out := ExecStmts(o, fuel, env, tr, a);
      ExecStmts(o, fuel, env, tr, a + b) ==
        if out.Next? then ExecStmts(o, fuel, out.env, out.trace, b) else out
    decreases a
  {
    if a == [] {
      assert a + b == b;
    } else {
      assert (a + b)[0] == a[0] && (a + b)[1..] == a[1..] + b;
      var out := ExecStmt(o, fuel, env, tr, a[0]);
      if out.Next? {
        ExecAppend(o, fuel, out.env, out.trace, a[1..], b);
      }
    }
  }

  /** Inside its own block an expression sees the same names on both sides. */
  lemma {:induction false} AgreeHere(sc: Scope, senv: Env, ienv: Env, zones: seq<Value>, n: nat, names: set<string>)
    requires Related(senv, ienv, zones, sc, n)
    ensures Agree(sc, senv, ienv, names) && InnerZone(sc, ienv, zones)
  {
    forall x | x in names
      ensures Lookup(ienv, User(x)) == Lookup(senv, User(x)) && (Lookup(senv, User(x)).Some? <==> x in sc.names)
    {
      LookupStrip(ienv, x);
      LookupNames(senv, sc.names, x);
    }
  }

  /** At an exit an uncaptured deferred statement sees the names of the place it was written. */
  lemma {:induction false} AgreeCaptured(sc: Scope, senv: Env, ienv: Env, zones: seq<Value>, n: nat, d: Deferred,
      captured: Scope)
    requires Related(senv, ienv, zones, sc, n) && Inside(captured, sc)
    requires Uncaptured(sc.names, Watch(d, captured.names))
    ensures Agree(captured, Innermost(senv, |captured.names|), ienv, NamesOf(d.e))
    ensures InnerZone(captured, ienv, Innermost(zones, |captured.zones|))
  {
    var k := |senv| - |captured.names|;
    var outer := Innermost(senv, |captured.names|);
    assert senv == senv[..k] + outer;
    assert NamesAre(outer, captured.names);
    forall x | x in NamesOf(d.e)
      ensures Lookup(outer, User(x)).Some? <==> x in captured.names
      ensures x in captured.names ==> Lookup(ienv, User(x)) == Lookup(outer, User(x))
    {
      LookupNames(outer, captured.names, x);
      if x in captured.names {
        LookupStrip(ienv, x);
        forall i | 0 <= i < k
          ensures senv[..k][i].name != User(x)
        {
          assert sc.names[..k][i] == sc.names[i];
        }
        LookupSkips(senv[..k], outer, User(x));
      }
    }
    if captured.zones != [] {
      var j := |sc.zones| - |captured.zones|;
      assert captured.zones[0] == sc.zones[j];
    }
  }

  lemma {:induction false} EntryPreserved(c: Context, fuel: nat, sc: Scope, n: nat, senv: Env, ienv: Env,
      zones: seq<Value>, tr: Trace, e: Entry, st: StaticEntry)
    requires Related(senv, ienv, zones, sc, n) && EntryRel(ienv, sc, n, e, st)
    requires LowerEntry(c.cs, st).Some?
    requires st.Captured? ==> Uncaptured(sc.names, Watch(st.d, st.scope.names))
    ensures
      var t := RunEntry(c, senv, zones, tr, e);
      ExecStmt(c.o, fuel, ienv, tr, LowerEntry(c.cs, st).value) ==
        if t.None? then Undefined else Next(ienv, t.value)
  {
    match e
    case Release(h) =>
      var call := LowerEntry(c.cs, st).value.expr;
      assert Eval(c.o, ienv, tr, Local(st.zone)) == Val(h, tr);
      assert call.args[1..] == [];
      assert EvalArgs(c.o, ienv, tr, call.args[1..]) == Vals([], tr);
      assert EvalArgs(c.o, ienv, tr, call.args) == Vals([h], tr);
    case Pending(d, depth, zoneDepth) =>
      AgreeCaptured(sc, senv, ienv, zones, n, d, st.scope);
      ExprPreserved(c.o, c.cs, |c.cs|, st.scope, Innermost(senv, depth), ienv, Innermost(zones, zoneDepth), tr, d.e);
  }

  lemma {:induction false} FramePreserved(c: Context, fuel: nat, sc: Scope, n: nat, senv: Env, ienv: Env,
      zones: seq<Value>, tr: Trace, f: Frame, st: StaticFrame, ws: set<Watch>)
    requires Related(senv, ienv, zones, sc, n) && FrameRel(ienv, sc, n, f, st)
    requires LowerFrame(c.cs, st).Some?
    requires Covers(ws, st) && FrameUncaptured(sc.names, ws)
    ensures
      var t := RunFrame(c, senv, zones, tr, f);
      ExecStmts(c.o, fuel, ienv, tr, LowerFrame(c.cs, st).value) ==
        if t.None? then Undefined else Next(ienv, t.value)
    decreases f
  {
    if f != [] {
      assert EntryRel(ienv, sc, n, f[0], st[0]);
      EntryPreserved(c, fuel, sc, n, senv, ienv, zones, tr, f[0], st[0]);
      var t := RunEntry(c, senv, zones, tr, f[0]);
      var all := LowerFrame(c.cs, st).value;
      assert all[1..] == LowerFrame(c.cs, st[1..]).value;
      if t.Some? {
        forall i | 0 <= i < |f[1..]|
          ensures EntryRel(ienv, sc, n, f[1..][i], st[1..][i])
        {
          assert EntryRel(ienv, sc, n, f[i + 1], st[i + 1]);
        }
        forall i | 0 <= i < |st[1..]| && st[1..][i].Captured?
          ensures Watch(st[1..][i].d, st[1..][i].scope.names) in ws
        {
          assert st[1..][i] == st[i + 1];
        }
        FramePreserved(c, fuel, sc, n, senv, ienv, zones, t.value, f[1..], st[1..], ws);
      }
    }
  }

  lemma {:induction false} FramesPreserved(c: Context, fuel: nat, sc: Scope, n: nat, senv: Env, ienv: Env,
      zones: seq<Value>, tr: Trace, fs: seq<Frame>, sts: seq<StaticFrame>, wss: seq<set<Watch>>)
    requires Related(senv, ienv, zones, sc, n) && FramesRel(ienv, sc, n, fs, sts)
    requires LowerFrames(c.cs, sts).Some?
    requires CoversAll(wss, sts) && FramesUncaptured(sc.names, wss)
    ensures
      var t := RunFrames(c, senv, zones, tr, fs);
      ExecStmts(c.o, fuel, ienv, tr, LowerFrames(c.cs, sts).value) ==
        if t.None? then Undefined else Next(ienv, t.value)
    decreases fs
  {
    if fs != [] {
      assert FrameRel(ienv, sc, n, fs[0], sts[0]) && Covers(wss[0], sts[0]) && FrameUncaptured(sc.names, wss[0]);
      FramePreserved(c, fuel, sc, n, senv, ienv, zones, tr, fs[0], sts[0], wss[0]);
      var own := LowerFrame(c.cs, sts[0]).value;
      var rest := LowerFrames(c.cs, sts[1..]).value;
      ExecAppend(c.o, fuel, ienv, tr, own, rest);
      var t := RunFrame(c, senv, zones, tr, fs[0]);
      if t.Some? {
        forall i | 0 <= i < |fs[1..]|
          ensures FrameRel(ienv, sc, n, fs[1..][i], sts[1..][i]) && Covers(wss[1..][i], sts[1..][i])
        {
          assert FrameRel(ienv, sc, n, fs[i + 1], sts[i + 1]) && Covers(wss[i + 1], sts[i + 1]);
        }
        FramesPreserved(c, fuel, sc, n, senv, ienv, zones, t.value, fs[1..], sts[1..], wss[1..]);
      }
    }
  }
}
