/** The simulation behind LoweringPreserves, by induction on fuel and the source. */
module LoweringTheorem {
  import opened Ir
  import opened Values
  import opened IrSemantics
  import opened Source
  import opened Lowering
  import opened LoweringRelation
  import opened LoweringProof

  /** Everything that holds where a statement of a block is lowered and run. */
  ghost predicate At(c: Context, sc: Scope, n: nat, senv: Env, ienv: Env, zones: seq<Value>, fs: seq<Frame>,
      sts: seq<StaticFrame>, wss: seq<set<Watch>>) {
    && Related(senv, ienv, zones, sc, n)
    && FramesRel(ienv, sc, n, fs, sts)
    && CoversAll(wss, sts)
  }

  function UnitOf(c: Context): Unit { Unit(c.cs, c.ret) }

  lemma {:induction false} Expr1Preserved(c: Context, sc: Scope, n: nat, senv: Env, ienv: Env, zones: seq<Value>,
      tr: Trace, e: SExpr)
    requires Related(senv, ienv, zones, sc, n)
    requires Expr1(UnitOf(c), sc, e).Some?
    ensures Eval(c.o, ienv, tr, Expr1(UnitOf(c), sc, e).value) == EvalS(c.o, c.cs, |c.cs|, senv, zones, tr, e)
  {
    AgreeHere(sc, senv, ienv, zones, n, NamesOf(e));
    ExprPreserved(c.o, c.cs, |c.cs|, sc, senv, ienv, zones, tr, e);
  }

  /** At holds again after a statement that extended the environment. */
  lemma {:induction false} AtLater(c: Context, sc: Scope, sc': Scope, n: nat, m: nat, senv: Env, senv': Env,
      ienv: Env, ienv': Env, zones: seq<Value>, fs: seq<Frame>, sts: seq<StaticFrame>, wss: seq<set<Watch>>)
    requires At(c, sc, n, senv, ienv, zones, fs, sts, wss)
    requires Extends(ienv, ienv', n) && n <= m
    requires Strip(ienv') == senv' && NamesAre(senv', sc'.names) && sc'.zones == sc.zones
    requires SuffixOf(sc.names, sc'.names)
    ensures At(c, sc', m, senv', ienv', zones, fs, sts, wss)
  {
    hide Lookup, Extends, CoversAll;
    assert Inside(sc, sc') by { assert sc'.zones[|sc'.zones| - |sc.zones|..] == sc.zones; }
    FramesLater(ienv, ienv', sc, sc', n, m, fs, sts);
    ZonesLater(ienv, ienv', zones, sc, n, m);
  }

  /** Binding one more user name. */
  lemma {:induction false} AtPush(c: Context, sc: Scope, n: nat, m: nat, senv: Env, ienv: Env, ienv1: Env,
      zones: seq<Value>, fs: seq<Frame>, sts: seq<StaticFrame>, wss: seq<set<Watch>>, x: string, v: Value)
    requires At(c, sc, n, senv, ienv, zones, fs, sts, wss)
    requires Extends(ienv, ienv1, n) && Strip(ienv1) == senv && n <= m
    ensures At(c, Scope([x] + sc.names, sc.zones), m, [Binding(User(x), v)] + senv, [Binding(User(x), v)] + ienv1,
        zones, fs, sts, wss)
    ensures Extends(ienv, [Binding(User(x), v)] + ienv1, n)
  {
    hide FramesRel, CoversAll, ZonesRel, Extends, Lookup, Strip;
    var b := Binding(User(x), v);
    var sc' := Scope([x] + sc.names, sc.zones);
    StripPush(ienv1, b);
    ExtendsPush(ienv1, b, n);
    ExtendsTransitive(ienv, ienv1, [b] + ienv1, n, n);
    assert SuffixOf(sc.names, sc'.names);
    AtLater(c, sc, sc', n, m, senv, [b] + senv, ienv, [b] + ienv1, zones, fs, sts, wss);
  }

  lemma {:induction false} RestPreserved(c: Context, fuel: nat, sc: Scope, n: nat, senv: Env, ienv: Env,
      zones: seq<Value>, fs: seq<Frame>, sts: seq<StaticFrame>, wss: seq<set<Watch>>, tr: Trace, ss: seq<SStmt>)
    requires At(c, sc, n, senv, ienv, zones, fs, sts, wss) && fs != []
    requires DefersSafe(sc.names, wss, ss)
    requires LowerRest(UnitOf(c), sc, sts, n, ss).Some?
    ensures Matches(ExecRest(c, fuel, senv, zones, fs, tr, ss),
        ExecStmts(c.o, fuel, ienv, tr, LowerRest(UnitOf(c), sc, sts, n, ss).value.stmts), ienv, n)
    decreases fuel, ss, 1
  {
    hide EvalS, Eval, ZonesRel, Lookup, EntryRel;
    var u := UnitOf(c);
    if ss == [] {
      assert FrameRel(ienv, sc, n, fs[0], sts[0]) && Covers(wss[0], sts[0]);
      FramePreserved(c, fuel, sc, n, senv, ienv, zones, tr, fs[0], sts[0], wss[0]);
    } else {
      match ss[0]
      case SDefer(d) =>
        DeferPreserved(c, fuel, sc, n, senv, ienv, zones, fs, sts, wss, tr, ss);
      case SReturn(e) =>
        FramesPreserved(c, fuel, sc, n, senv, ienv, zones, tr, fs, sts, wss);
        var cleanup := LowerFrames(u.cs, sts).value;
        var last := Return(if e.None? then None else Some(Expr1(u, sc, e.value).value));
        ExecAppend(c.o, fuel, ienv, tr, cleanup, [last]);
        var t := RunFrames(c, senv, zones, tr, fs);
        if t.Some? && e.Some? {
          Expr1Preserved(c, sc, n, senv, ienv, zones, t.value, e.value);
        }
      case STry(x, _, e) =>
        TryPreserved(c, fuel, sc, n, senv, ienv, zones, fs, sts, wss, tr, ss);
      case _ =>
        StepPreserved(c, fuel, sc, n, senv, ienv, zones, fs, sts, wss, tr, ss);
    }
  }

  lemma {:induction false} DeferPreserved(c: Context, fuel: nat, sc: Scope, n: nat, senv: Env, ienv: Env,
      zones: seq<Value>, fs: seq<Frame>, sts: seq<StaticFrame>, wss: seq<set<Watch>>, tr: Trace, ss: seq<SStmt>)
    requires At(c, sc, n, senv, ienv, zones, fs, sts, wss) && fs != []
    requires ss != [] && ss[0].SDefer?
    requires DefersSafe(sc.names, wss, ss)
    requires LowerRest(UnitOf(c), sc, sts, n, ss).Some?
    ensures Matches(ExecRest(c, fuel, senv, zones, fs, tr, ss),
        ExecStmts(c.o, fuel, ienv, tr, LowerRest(UnitOf(c), sc, sts, n, ss).value.stmts), ienv, n)
    decreases fuel, ss, 0
  {
    hide EvalS, Eval, Extends, Lookup;
    var d := ss[0].deferred;
    var own := [Pending(d, |senv|, |zones|)] + fs[0];
    var own' := [Captured(d, sc)] + sts[0];
    var ws := {Watch(d, sc.names)} + wss[0];
    var fs1, sts1, wss1 := [own] + fs[1..], [own'] + sts[1..], [ws] + wss[1..];
    assert FrameRel(ienv, sc, n, fs[0], sts[0]) && Covers(wss[0], sts[0]);
    forall i | 0 <= i < |own|
      ensures EntryRel(ienv, sc, n, own[i], own'[i])
    {
      if 0 < i {
        assert own[i] == fs[0][i - 1] && own'[i] == sts[0][i - 1];
      }
    }
    assert FrameRel(ienv, sc, n, own, own') && Covers(ws, own');
    forall i | 0 <= i < |fs1|
      ensures FrameRel(ienv, sc, n, fs1[i], sts1[i]) && Covers(wss1[i], sts1[i])
    {
      if 0 < i {
        assert FrameRel(ienv, sc, n, fs[i], sts[i]) && Covers(wss[i], sts[i]);
      }
    }
    RestPreserved(c, fuel, sc, n, senv, ienv, zones, fs1, sts1, wss1, tr, ss[1..]);
  }

  lemma {:induction false} TryPreserved(c: Context, fuel: nat, sc: Scope, n: nat, senv: Env, ienv: Env,
      zones: seq<Value>, fs: seq<Frame>, sts: seq<StaticFrame>, wss: seq<set<Watch>>, tr: Trace, ss: seq<SStmt>)
    requires At(c, sc, n, senv, ienv, zones, fs, sts, wss) && fs != []
    requires ss != [] && ss[0].STry?
    requires DefersSafe(sc.names, wss, ss)
    requires LowerRest(UnitOf(c), sc, sts, n, ss).Some?
    ensures Matches(ExecRest(c, fuel, senv, zones, fs, tr, ss),
        ExecStmts(c.o, fuel, ienv, tr, LowerRest(UnitOf(c), sc, sts, n, ss).value.stmts), ienv, n)
    decreases fuel, ss, 0
  {
    var u := UnitOf(c);
    var x, temp, e := ss[0].id, Gen("try", n), ss[0].init;
    var e' := Expr1(u, sc, e).value;
    var cleanup := LowerFrames(u.cs, sts).value;
    var sc' := Scope([x] + sc.names, sc.zones);
    var rest := LowerRest(u, sc', sts, n + 1, ss[1..]).value.stmts;
    Expr1Preserved(c, sc, n, senv, ienv, zones, tr, e);
    var r := EvalS(c.o, c.cs, |c.cs|, senv, zones, tr, e);
    if !(r.Val? && r.value.VResult?) {
      TryStuck(c, fuel, ienv, tr, u, x, temp, e', cleanup, rest);
    } else if r.value.ok {
      TrySucceeds(c, fuel, sc, n, senv, ienv, zones, fs, sts, wss, tr, x, e', cleanup, rest, r);
      var b := Binding(User(x), r.value.payload);
      var env2 := [b] + ([Binding(temp, r.value)] + ienv);
      RestPreserved(c, fuel, sc', n + 1, [b] + senv, env2, zones, fs, sts, wss, r.trace, ss[1..]);
      MatchesLater(ExecRest(c, fuel, [b] + senv, zones, fs, r.trace, ss[1..]),
        ExecStmts(c.o, fuel, env2, r.trace, rest), ienv, env2, n, n + 1);
    } else {
      TryFails(c, fuel, sc, n, senv, ienv, zones, fs, sts, wss, tr, x, e', cleanup, rest, r);
    }
  }

  lemma {:induction false} MatchesLater(out: Outcome, ir: Outcome, ienv: Env, ienv': Env, n: nat, m: nat)
    requires Matches(out, ir, ienv', m) && Extends(ienv, ienv', n) && n <= m
    ensures Matches(out, ir, ienv, n)
  {
    if out.Next? {
      ExtendsTransitive(ienv, ienv', ir.env, n, m);
    }
  }

  lemma {:induction false} TrySucceeds(c: Context, fuel: nat, sc: Scope, n: nat, senv: Env, ienv: Env,
      zones: seq<Value>, fs: seq<Frame>, sts: seq<StaticFrame>, wss: seq<set<Watch>>, tr: Trace, x: string, e': Expr,
      cleanup: seq<Stmt>, rest: seq<Stmt>, r: EvalResult)
    requires At(c, sc, n, senv, ienv, zones, fs, sts, wss)
    requires r == Eval(c.o, ienv, tr, e') && r.Val? && r.value.VResult? && r.value.ok
    ensures
      var temp, b := Gen("try", n), Binding(User(x), r.value.payload);
      var env2 := [b] + ([Binding(temp, r.value)] + ienv);
      && ExecStmts(c.o, fuel, ienv, tr, TryStmts(UnitOf(c), x, temp, e', cleanup) + rest) == ExecStmts(c.o, fuel,
        env2, r.trace, rest)
      && At(c, Scope([x] + sc.names, sc.zones), n + 1, [b] + senv, env2, zones, fs, sts, wss)
      && Extends(ienv, env2, n)
  {
    var temp := Gen("try", n);
    var env1 := [Binding(temp, r.value)] + ienv;
    assert env1[1..] == ienv;
    ExtendsPush(ienv, Binding(temp, r.value), n);
    TryRuns(c, fuel, ienv, tr, UnitOf(c), x, temp, e', cleanup);
    ExecAppend(c.o, fuel, ienv, tr, TryStmts(UnitOf(c), x, temp, e', cleanup), rest);
    AtPush(c, sc, n, n + 1, senv, ienv, env1, zones, fs, sts, wss, x, r.value.payload);
  }

  lemma {:induction false} TryFails(c: Context, fuel: nat, sc: Scope, n: nat, senv: Env, ienv: Env, zones: seq<Value>,
      fs: seq<Frame>, sts: seq<StaticFrame>, wss: seq<set<Watch>>, tr: Trace, x: string, e': Expr, cleanup: seq<Stmt>,
      rest: seq<Stmt>, r: EvalResult)
    requires At(c, sc, n, senv, ienv, zones, fs, sts, wss) && c.ret.TResult?
    requires LowerFrames(c.cs, sts) == Some(cleanup) && FramesUncaptured(sc.names, wss)
    requires r == Eval(c.o, ienv, tr, e') && r.Val? && r.value.VResult? && !r.value.ok
    ensures
      var t := RunFrames(c, senv, zones, r.trace, fs);
      ExecStmts(c.o, fuel, ienv, tr, TryStmts(UnitOf(c), x, Gen("try", n), e', cleanup) + rest) ==
        if t.None? then Undefined else Returned(Zero(c.ret), t.value)
  {
    hide Extends, FramesRel, ZonesRel, CoversAll, EvalS;
    var temp := Gen("try", n);
    var env1 := [Binding(temp, r.value)] + ienv;
    assert env1[1..] == ienv;
    ExtendsPush(ienv, Binding(temp, r.value), n);
    TryRuns(c, fuel, ienv, tr, UnitOf(c), x, temp, e', cleanup);
    ExecAppend(c.o, fuel, ienv, tr, TryStmts(UnitOf(c), x, temp, e', cleanup), rest);
    assert SuffixOf(sc.names, sc.names);
    AtLater(c, sc, sc, n, n + 1, senv, senv, ienv, env1, zones, fs, sts, wss);
    FramesPreserved(c, fuel, sc, n + 1, senv, env1, zones, r.trace, fs, sts, wss);
    var last := Return(Some(Err(c.ret)));
    ExecAppend(c.o, fuel, env1, r.trace, cleanup, [last]);
    var t := RunFrames(c, senv, zones, r.trace, fs);
    if t.Some? {
      ExecOne(c.o, fuel, env1, t.value, last);
    }
  }

  lemma {:induction false} ExecCons(o: Oracle, fuel: nat, env: Env, tr: Trace, s: Stmt, rest: seq<Stmt>)
    ensures
      var out := ExecStmt(o, fuel, env, tr, s);
      ExecStmts(o, fuel, env, tr, [s] + rest) ==
        if out.Next? then ExecStmts(o, fuel, out.env, out.trace, rest) else out
  {
    assert ([s] + rest)[1..] == rest;
  }

  /** What the three statements of a lowered `try` do with a result value. */
  lemma {:induction false} TryRuns(c: Context, fuel: nat, ienv: Env, tr: Trace, u: Unit, x: string, temp: Name,
      e': Expr, cleanup: seq<Stmt>)
    requires var r := Eval(c.o, ienv, tr, e'); r.Val? && r.value.VResult?
    ensures
      var r := Eval(c.o, ienv, tr, e');
      var env1 := [Binding(temp, r.value)] + ienv;
      ExecStmts(c.o, fuel, ienv, tr, TryStmts(u, x, temp, e', cleanup)) ==
        if r.value.ok then Next([Binding(User(x), r.value.payload)] + env1, r.trace)
        else
          var out := ExecBlock(c.o, fuel, env1, r.trace, cleanup + [Return(Some(Err(u.ret)))]);
          if out.Next? then ExecStmts(c.o, fuel, out.env, out.trace,
            [Let(User(x), Field(Local(temp), ValueField))]) else out
  {
    var r := Eval(c.o, ienv, tr, e');
    var env1 := [Binding(temp, r.value)] + ienv;
    var three := TryStmts(u, x, temp, e', cleanup);
    TempField(c.o, env1, r.trace, temp, r.value);
    assert three == [three[0]] + ([three[1]] + [three[2]]);
    ExecCons(c.o, fuel, ienv, tr, three[0], [three[1]] + [three[2]]);
    ExecCons(c.o, fuel, env1, r.trace, three[1], [three[2]]);
    if r.value.ok {
      ExecOne(c.o, fuel, env1, r.trace, three[2]);
    }
  }

  lemma {:induction false} TempField(o: Oracle, env: Env, tr: Trace, temp: Name, v: Value)
    requires Lookup(env, temp) == Some(v)
    ensures Eval(o, env, tr, Unary(Not, Field(Local(temp), OkField))) ==
      if v.VResult? then Val(VBool(!v.ok), tr) else Stuck
    ensures Eval(o, env, tr, Field(Local(temp), ValueField)) == if v.VResult? then Val(v.payload, tr) else Stuck
  {
    assert Eval(o, env, tr, Local(temp)) == Val(v, tr);
    assert Eval(o, env, tr, Field(Local(temp), OkField)) == if v.VResult? then Val(VBool(v.ok), tr) else Stuck;
  }

  lemma {:induction false} TryStuck(c: Context, fuel: nat, ienv: Env, tr: Trace, u: Unit, x: string, temp: Name,
      e': Expr, cleanup: seq<Stmt>, rest: seq<Stmt>)
    requires var r := Eval(c.o, ienv, tr, e'); !(r.Val? && r.value.VResult?)
    ensures ExecStmts(c.o, fuel, ienv, tr, TryStmts(u, x, temp, e', cleanup) + rest) == Undefined
  {
    var three := TryStmts(u, x, temp, e', cleanup);
    var r := Eval(c.o, ienv, tr, e');
    var tail := [three[2]] + rest;
    assert three + rest == [three[0]] + ([three[1]] + tail);
    ExecCons(c.o, fuel, ienv, tr, three[0], [three[1]] + tail);
    if r.Val? {
      var env1 := [Binding(temp, r.value)] + ienv;
      TempField(c.o, env1, r.trace, temp, r.value);
      ExecCons(c.o, fuel, env1, r.trace, three[1], tail);
    }
  }

  lemma {:induction false} ExecOne(o: Oracle, fuel: nat, env: Env, tr: Trace, s: Stmt)
    ensures ExecStmts(o, fuel, env, tr, [s]) == ExecStmt(o, fuel, env, tr, s)
  {
    assert [s][1..] == [];
  }

  /** Opening a block adds an empty frame. */
  lemma {:induction false} AtOpen(c: Context, sc: Scope, n: nat, senv: Env, ienv: Env, zones: seq<Value>,
      fs: seq<Frame>, sts: seq<StaticFrame>, wss: seq<set<Watch>>)
    requires At(c, sc, n, senv, ienv, zones, fs, sts, wss)
    ensures At(c, sc, n, senv, ienv, zones, [[]] + fs, [[]] + sts, [{}] + wss)
  {
    var fs1, sts1, wss1 := [[]] + fs, [[]] + sts, [{}] + wss;
    forall i | 0 <= i < |fs1|
      ensures FrameRel(ienv, sc, n, fs1[i], sts1[i]) && Covers(wss1[i], sts1[i])
    {
      if 0 < i {
        assert FrameRel(ienv, sc, n, fs[i - 1], sts[i - 1]) && Covers(wss[i - 1], sts[i - 1]);
      }
    }
  }

  lemma {:induction false} StepPreserved(c: Context, fuel: nat, sc: Scope, n: nat, senv: Env, ienv: Env,
      zones: seq<Value>, fs: seq<Frame>, sts: seq<StaticFrame>, wss: seq<set<Watch>>, tr: Trace, ss: seq<SStmt>)
    requires At(c, sc, n, senv, ienv, zones, fs, sts, wss) && fs != []
    requires ss != [] && !ss[0].SDefer? && !ss[0].STry? && !ss[0].SReturn?
    requires DefersSafe(sc.names, wss, ss)
    requires LowerRest(UnitOf(c), sc, sts, n, ss).Some?
    ensures Matches(ExecRest(c, fuel, senv, zones, fs, tr, ss),
        ExecStmts(c.o, fuel, ienv, tr, LowerRest(UnitOf(c), sc, sts, n, ss).value.stmts), ienv, n)
    decreases fuel, ss, 0
  {
    hide EvalS, Eval, CoversAll, ZonesRel, Extends, Lookup, ExecStmt, LowerStmt, FrameRel;
    var u, s := UnitOf(c), ss[0];
    var low := LowerStmt(u, sc, sts, n, s).value;
    var sc' := After(sc, s);
    var rest := LowerRest(u, sc', sts, low.next, ss[1..]).value.stmts;
    StmtPreserved(c, fuel, sc, n, senv, ienv, zones, fs, sts, wss, tr, s);
    ExecAppend(c.o, fuel, ienv, tr, low.stmts, rest);
    var out := ExecS(c, fuel, senv, zones, fs, tr, s);
    if out.Next? {
      var env1 := ExecStmts(c.o, fuel, ienv, tr, low.stmts).env;
      assert SuffixOf(sc.names, sc'.names);
      AtLater(c, sc, sc', n, low.next, senv, out.env, ienv, env1, zones, fs, sts, wss);
      RestPreserved(c, fuel, sc', low.next, out.env, env1, zones, fs, sts, wss, out.trace, ss[1..]);
      var end := ExecRest(c, fuel, out.env, zones, fs, out.trace, ss[1..]);
      if end.Next? {
        ExtendsTransitive(ienv, env1, ExecStmts(c.o, fuel, env1, out.trace, rest).env, n, low.next);
      }
    }
  }

  lemma {:induction false} BlockPreserved(c: Context, fuel: nat, sc: Scope, n: nat, senv: Env, ienv: Env,
      zones: seq<Value>, fs: seq<Frame>, sts: seq<StaticFrame>, wss: seq<set<Watch>>, tr: Trace, ss: seq<SStmt>)
    requires At(c, sc, n, senv, ienv, zones, fs, sts, wss)
    requires DefersSafe(sc.names, [{}] + wss, ss)
    requires LowerBlock(UnitOf(c), sc, sts, n, ss).Some?
    ensures
      var out := ExecInner(c, fuel, senv, zones, fs, tr, ss);
      var ir := ExecBlock(c.o, fuel, ienv, tr, LowerBlock(UnitOf(c), sc, sts, n, ss).value.stmts);
      Matches(out, ir, ienv, n) && (out.Next? ==> NamesAre(out.env, sc.names) && |ir.env| == |ienv|)
    decreases fuel, ss, 2
  {
    hide FramesRel, CoversAll, ZonesRel, Lookup, ExecStmts, ExecRest, LowerRest;
    AtOpen(c, sc, n, senv, ienv, zones, fs, sts, wss);
    RestPreserved(c, fuel, sc, n, senv, ienv, zones, [[]] + fs, [[]] + sts, [{}] + wss, tr, ss);
    var out := ExecRest(c, fuel, senv, zones, [[]] + fs, tr, ss);
    if out.Next? {
      var env1 := ExecStmts(c.o, fuel, ienv, tr, LowerBlock(UnitOf(c), sc, sts, n, ss).value.stmts).env;
      StripLeave(ienv, env1, n);
    }
  }

  lemma {:induction false} StmtPreserved(c: Context, fuel: nat, sc: Scope, n: nat, senv: Env, ienv: Env,
      zones: seq<Value>, fs: seq<Frame>, sts: seq<StaticFrame>, wss: seq<set<Watch>>, tr: Trace, s: SStmt)
    requires At(c, sc, n, senv, ienv, zones, fs, sts, wss)
    requires DefersSafeIn(sc.names, wss, s)
    requires LowerStmt(UnitOf(c), sc, sts, n, s).Some?
    ensures
      var out := ExecS(c, fuel, senv, zones, fs, tr, s);
      Matches(out, ExecStmts(c.o, fuel, ienv, tr, LowerStmt(UnitOf(c), sc, sts, n, s).value.stmts), ienv, n)
      && (out.Next? ==> NamesAre(out.env, After(sc, s).names))
    decreases fuel, s, 0
  {
    hide Matches, NamesAre, ExecStmts, ExecSWhile, ExecWhile, ExecRest, FramesRel, CoversAll, ZonesRel;
    var low := LowerStmt(UnitOf(c), sc, sts, n, s).value;
    ExecOne(c.o, fuel, ienv, tr, low.stmts[0]);
    assert low.stmts == [low.stmts[0]];
    match s
    case SZone(_) => ZonePreserved(c, fuel, sc, n, senv, ienv, zones, fs, sts, wss, tr, s);
    case SIfThen(_, _) => IfPreserved(c, fuel, sc, n, senv, ienv, zones, fs, sts, wss, tr, s);
    case SIfElse(_, _, _) => IfPreserved(c, fuel, sc, n, senv, ienv, zones, fs, sts, wss, tr, s);
    case SWhile(e, body) => WhilePreserved(c, fuel, sc, n, senv, ienv, zones, fs, sts, wss, tr, e, body);
    case SLoop(body) => WhilePreserved(c, fuel, sc, n, senv, ienv, zones, fs, sts, wss, tr, SBool(true), body);
    case SFor(_, _, _, _) => RangePreserved(c, fuel, sc, n, senv, ienv, zones, fs, sts, wss, tr, s);
    case _ => SimplePreserved(c, fuel, sc, n, senv, ienv, zones, fs, sts, tr, s);
  }

  /** Statements without blocks. */
  lemma {:induction false} SimplePreserved(c: Context, fuel: nat, sc: Scope, n: nat, senv: Env, ienv: Env,
      zones: seq<Value>, fs: seq<Frame>, sts: seq<StaticFrame>, tr: Trace, s: SStmt)
    requires s.SLet? || s.SAssign? || s.SExprStmt? || s.SFree?
    requires Related(senv, ienv, zones, sc, n)
    requires LowerStmt(UnitOf(c), sc, sts, n, s).Some?
    ensures
      var out := ExecS(c, fuel, senv, zones, fs, tr, s);
      Matches(out, ExecStmt(c.o, fuel, ienv, tr, LowerStmt(UnitOf(c), sc, sts, n, s).value.stmts[0]), ienv, n)
      && (out.Next? ==> NamesAre(out.env, After(sc, s).names))
  {
    hide ZonesRel, EvalS, Eval, Lookup, Update, Strip, NamesAre, Extends;
    var e := if s.SLet? then s.init else if s.SAssign? then s.rhs else if s.SExprStmt? then s.expr else s.pointer;
    Expr1Preserved(c, sc, n, senv, ienv, zones, tr, e);
    var r := EvalS(c.o, c.cs, |c.cs|, senv, zones, tr, e);
    if s.SLet? && r.Val? {
      PushMatches(senv, ienv, sc.names, s.id, r.value, n);
    } else if s.SAssign? && r.Val? {
      UpdateMatches(senv, ienv, sc.names, s.id, r.value, n);
    }
    ExtendsSelf(ienv, n);
  }

  lemma ExtendsSelf(env: Env, n: nat)
    ensures Extends(env, env, n)
  {
  }

  lemma {:induction false} PushMatches(senv: Env, ienv: Env, names: seq<string>, x: string, v: Value, n: nat)
    requires Strip(ienv) == senv && NamesAre(senv, names)
    ensures
      var b := Binding(User(x), v);
      Strip([b] + ienv) == [b] + senv && Extends(ienv, [b] + ienv, n) && NamesAre([b] + senv, [x] + names)
  {
    hide Strip, Extends;
    var b := Binding(User(x), v);
    StripPush(ienv, b);
    ExtendsPush(ienv, b, n);
  }

  lemma {:induction false} StripPush(env: Env, b: Binding)
    requires b.name.User?
    ensures Strip([b] + env) == [b] + Strip(env)
  {
    assert ([b] + env)[1..] == env;
  }

  lemma {:induction false} UpdateMatches(senv: Env, ienv: Env, names: seq<string>, x: string, v: Value, n: nat)
    requires Strip(ienv) == senv && NamesAre(senv, names)
    ensures Lookup(senv, User(x)) == Lookup(ienv, User(x))
    ensures Strip(Update(ienv, User(x), v)) == Update(senv, User(x), v)
    ensures Extends(ienv, Update(ienv, User(x), v), n) && NamesAre(Update(senv, User(x), v), names)
  {
    LookupStrip(ienv, x);
    UpdateStrip(ienv, x, v);
    ExtendsUpdate(ienv, x, v, n);
  }

  lemma {:induction false} IfPreserved(c: Context, fuel: nat, sc: Scope, n: nat, senv: Env, ienv: Env,
      zones: seq<Value>, fs: seq<Frame>, sts: seq<StaticFrame>, wss: seq<set<Watch>>, tr: Trace, s: SStmt)
    requires (s.SIfThen? || s.SIfElse?) && At(c, sc, n, senv, ienv, zones, fs, sts, wss)
    requires DefersSafeIn(sc.names, wss, s)
    requires LowerStmt(UnitOf(c), sc, sts, n, s).Some?
    ensures
      var out := ExecS(c, fuel, senv, zones, fs, tr, s);
      Matches(out, ExecStmt(c.o, fuel, ienv, tr, LowerStmt(UnitOf(c), sc, sts, n, s).value.stmts[0]), ienv, n)
      && (out.Next? ==> NamesAre(out.env, sc.names))
    decreases fuel, s, -1
  {
    hide FramesRel, CoversAll, ZonesRel, Lookup, EvalS, Eval, LowerRest, ExecRest, ExecStmts, Extends, Strip,
      NamesAre, ExecBlock, ExecInner, LowerBlock;
    ExtendsSelf(ienv, n);
    Expr1Preserved(c, sc, n, senv, ienv, zones, tr, s.cond);
    var r := EvalS(c.o, c.cs, |c.cs|, senv, zones, tr, s.cond);
    if r.Val? && r.value.VBool? {
      if r.value.b {
        BlockPreserved(c, fuel, sc, n, senv, ienv, zones, fs, sts, wss, r.trace, s.thenBlock);
      } else if s.SIfElse? {
        var m := LowerBlock(UnitOf(c), sc, sts, n, s.thenBlock).value.next;
        assert SuffixOf(sc.names, sc.names);
        AtLater(c, sc, sc, n, m, senv, senv, ienv, ienv, zones, fs, sts, wss);
        BlockPreserved(c, fuel, sc, m, senv, ienv, zones, fs, sts, wss, r.trace, s.elseBlock);
        MatchesLater(ExecInner(c, fuel, senv, zones, fs, r.trace, s.elseBlock),
          ExecBlock(c.o, fuel, ienv, r.trace, LowerBlock(UnitOf(c), sc, sts, m, s.elseBlock).value.stmts), ienv, ienv,
          n, m);
      }
    }
  }

  lemma {:induction false} RangePreserved(c: Context, fuel: nat, sc: Scope, n: nat, senv: Env, ienv: Env,
      zones: seq<Value>, fs: seq<Frame>, sts: seq<StaticFrame>, wss: seq<set<Watch>>, tr: Trace, s: SStmt)
    requires s.SFor? && At(c, sc, n, senv, ienv, zones, fs, sts, wss)
    requires DefersSafeIn(sc.names, wss, s)
    requires LowerStmt(UnitOf(c), sc, sts, n, s).Some?
    ensures
      var out := ExecS(c, fuel, senv, zones, fs, tr, s);
      Matches(out, ExecStmt(c.o, fuel, ienv, tr, LowerStmt(UnitOf(c), sc, sts, n, s).value.stmts[0]), ienv, n)
      && (out.Next? ==> NamesAre(out.env, sc.names))
    decreases fuel, s, -1
  {
    hide FramesRel, CoversAll, ZonesRel, Lookup, EvalS, Eval, LowerRest, ExecFor, ExecSFor, Strip;
    Expr1Preserved(c, sc, n, senv, ienv, zones, tr, s.start);
    var lo := EvalS(c.o, c.cs, |c.cs|, senv, zones, tr, s.start);
    if lo.Val? {
      Expr1Preserved(c, sc, n, senv, ienv, zones, lo.trace, s.end);
      var hi := EvalS(c.o, c.cs, |c.cs|, senv, zones, lo.trace, s.end);
      if hi.Val? && hi.value.VInt? {
        var b := Binding(User(s.id), lo.value);
        var sc1 := Scope([s.id] + sc.names, sc.zones);
        AtPush(c, sc, n, n, senv, ienv, ienv, zones, fs, sts, wss, s.id, lo.value);
        ForPreserved(c, fuel, sc1, n, [b] + senv, [b] + ienv, zones, fs, sts, wss, hi.trace, hi.value.i, s.body);
        LeaveMatches(ExecSFor(c, fuel, [b] + senv, zones, fs, hi.trace, hi.value.i, s.body),
          ExecFor(c.o, fuel, [b] + ienv, hi.trace, hi.value.i,
            LowerBlock(UnitOf(c), sc1, sts, n, s.body).value.stmts), senv, ienv, [b] + ienv, sc.names, n);
      }
    }
  }

  /** Leaving the same scope on both sides. */
  lemma {:induction false} LeaveMatches(out: Outcome, ir: Outcome, senv: Env, ienv: Env, ienv1: Env,
      names: seq<string>, n: nat)
    requires Matches(out, ir, ienv1, n) && Extends(ienv, ienv1, n)
    requires Strip(ienv) == senv && NamesAre(senv, names)
    ensures Matches(Leave(|senv|, out), Leave(|ienv|, ir), ienv, n)
    ensures out.Next? ==> NamesAre(Leave(|senv|, out).env, names) && |Leave(|ienv|, ir).env| == |ienv|
  {
    hide Strip;
    if out.Next? {
      ExtendsTransitive(ienv, ienv1, ir.env, n, n);
      StripLeave(ienv, ir.env, n);
    }
  }

  lemma {:induction false} ZonePreserved(c: Context, fuel: nat, sc: Scope, n: nat, senv: Env, ienv: Env,
      zones: seq<Value>, fs: seq<Frame>, sts: seq<StaticFrame>, wss: seq<set<Watch>>, tr: Trace, s: SStmt)
    requires s.SZone? && At(c, sc, n, senv, ienv, zones, fs, sts, wss)
    requires DefersSafeIn(sc.names, wss, s)
    requires LowerStmt(UnitOf(c), sc, sts, n, s).Some?
    ensures
      var out := ExecS(c, fuel, senv, zones, fs, tr, s);
      Matches(out, ExecStmt(c.o, fuel, ienv, tr, LowerStmt(UnitOf(c), sc, sts, n, s).value.stmts[0]), ienv, n)
      && (out.Next? ==> NamesAre(out.env, sc.names))
    decreases fuel, s.body, 4
  {
    hide FramesRel, CoversAll, ZonesRel, LowerRest, ExecRest, ExecStmts, Extends;
    var h := Act(c.o, tr, AZoneEnter);
    var z := Gen("zone", n);
    var sc1 := Scope(sc.names, [z] + sc.zones);
    var env1 := [Binding(z, h.value)] + ienv;
    var fs1, sts1, wss1 := [[Release(h.value)]] + fs, [[ZoneExit(z)]] + sts, [{}] + wss;
    AtZone(c, sc, n, senv, ienv, zones, fs, sts, wss, h.value);
    AtOpen(c, sc1, n + 1, senv, env1, [h.value] + zones, fs1, sts1, wss1);
    var zones1 := [h.value] + zones;
    RestPreserved(c, fuel, sc1, n + 1, senv, env1, zones1, [[]] + fs1, [[]] + sts1, [{}] + wss1, h.trace, s.body);
    var body := LowerBlock(UnitOf(c), sc1, sts1, n + 1, s.body).value.stmts;
    var out := ExecRest(c, fuel, senv, zones1, [[]] + fs1, h.trace, s.body);
    var e := Event(ACall(ZONE_RELEASE, [h.value]), VUnit);
    ZoneBodyReleases(c.o, fuel, z, n + 1, h.value, env1, h.trace, out, body);
    ZoneBodyLeaves(n, senv, ienv, sc.names, Binding(z, h.value), Appended(out, e),
      ExecStmts(c.o, fuel, env1, h.trace, body + [ReleaseStmt(z)]));
    assert Leave(|senv|, Appended(out, e)) == ExecS(c, fuel, senv, zones, fs, tr, s);
  }

  /** Entering a zone binds its handle and makes its release pending. */
  lemma {:induction false} AtZone(c: Context, sc: Scope, n: nat, senv: Env, ienv: Env, zones: seq<Value>,
      fs: seq<Frame>, sts: seq<StaticFrame>, wss: seq<set<Watch>>, h: Value)
    requires At(c, sc, n, senv, ienv, zones, fs, sts, wss)
    ensures
      var z := Gen("zone", n);
      At(c, Scope(sc.names, [z] + sc.zones), n + 1, senv, [Binding(z, h)] + ienv, [h] + zones, [[Release(h)]] + fs,
        [[ZoneExit(z)]] + sts, [{}] + wss)
  {
    var z := Gen("zone", n);
    var sc1 := Scope(sc.names, [z] + sc.zones);
    var b := Binding(z, h);
    var env1 := [b] + ienv;
    assert env1[1..] == ienv;
    ExtendsPush(ienv, b, n);
    assert Inside(sc, sc1) by { assert sc1.names[|sc1.names| - |sc.names|..] == sc.names; }
    FramesLater(ienv, env1, sc, sc1, n, n + 1, fs, sts);
    ZonesLater(ienv, env1, zones, sc, n, n + 1);
    assert FrameRel(env1, sc1, n + 1, [Release(h)], [ZoneExit(z)]) && Covers({}, [ZoneExit(z)]);
    FramesPush(env1, sc1, n + 1, fs, sts, wss, [Release(h)], [ZoneExit(z)], {});
  }

  lemma {:induction false} FramesPush(ienv: Env, sc: Scope, n: nat, fs: seq<Frame>, sts: seq<StaticFrame>,
      wss: seq<set<Watch>>, f: Frame, st: StaticFrame, ws: set<Watch>)
    requires FramesRel(ienv, sc, n, fs, sts) && CoversAll(wss, sts)
    requires FrameRel(ienv, sc, n, f, st) && Covers(ws, st)
    ensures FramesRel(ienv, sc, n, [f] + fs, [st] + sts) && CoversAll([ws] + wss, [st] + sts)
  {
    hide FrameRel, Covers;
  }

  function Appended(out: Outcome, e: Event): Outcome {
    if out.Next? then Next(out.env, out.trace + [e]) else out
  }

  /** A zone body that falls through is followed by its release. */
  lemma {:induction false} ZoneBodyReleases(o: Oracle, fuel: nat, z: Name, m: nat, h: Value, env1: Env, tr: Trace,
      out: Outcome, body: seq<Stmt>)
    requires z.Gen? && z.index < m && Lookup(env1, z) == Some(h)
    requires Matches(out, ExecStmts(o, fuel, env1, tr, body), env1, m)
    ensures Matches(Appended(out, Event(ACall(ZONE_RELEASE, [h]), VUnit)),
        ExecStmts(o, fuel, env1, tr, body + [ReleaseStmt(z)]), env1, m)
  {
    ExecAppend(o, fuel, env1, tr, body, [ReleaseStmt(z)]);
    if out.Next? {
      var env2 := ExecStmts(o, fuel, env1, tr, body).env;
      LookupExtends(env1, env2, m, z);
      ReleaseRuns(o, fuel, env2, out.trace, z, h);
    }
  }

  lemma {:induction false} LeaveTwice(n: nat, m: nat, out: Outcome)
    requires n <= m && (out.Next? ==> m <= |out.env|)
    ensures Leave(n, Leave(m, out)) == Leave(n, out)
  {
    if out.Next? {
      assert out.env[|out.env| - m..][m - n..] == out.env[|out.env| - n..];
    }
  }

  /** Both the body's scope and the zone's are left. */
  lemma {:induction false} ZoneBodyLeaves(n: nat, senv: Env, ienv: Env, names: seq<string>, b: Binding, out: Outcome,
      ir: Outcome)
    requires Strip(ienv) == senv && NamesAre(senv, names) && b.name.Gen? && b.name.index == n
    requires Matches(out, ir, [b] + ienv, n + 1)
    ensures Matches(Leave(|senv|, out), Leave(|ienv|, Leave(|ienv| + 1, ir)), ienv, n)
    ensures out.Next? ==> NamesAre(Leave(|senv|, out).env, names)
  {
    hide Strip;
    ExtendsPush(ienv, b, n);
    MatchesLater(out, ir, ienv, [b] + ienv, n, n + 1);
    LeaveTwice(|ienv|, |ienv| + 1, ir);
    LeaveMatches(out, ir, senv, ienv, ienv, names, n);
  }

  lemma {:induction false} ReleaseRuns(o: Oracle, fuel: nat, env: Env, tr: Trace, z: Name, h: Value)
    requires Lookup(env, z) == Some(h)
    ensures ExecStmts(o, fuel, env, tr, [ReleaseStmt(z)]) == Next(env, tr + [Event(ACall(ZONE_RELEASE, [h]), VUnit)])
  {
    var args := [Local(z)];
    assert args[1..] == [];
    assert EvalArgs(o, env, tr, args[1..]) == Vals([], tr);
    assert Eval(o, env, tr, args[0]) == Val(h, tr);
    assert EvalArgs(o, env, tr, args) == Vals([h], tr);
    assert Eval(o, env, tr, Call(ZONE_RELEASE, TVoid, args)) == Val(VUnit,
      tr + [Event(ACall(ZONE_RELEASE, [h]), VUnit)]);
    ExecOne(o, fuel, env, tr, ReleaseStmt(z));
  }

  lemma {:induction false} WhilePreserved(c: Context, fuel: nat, sc: Scope, n: nat, senv: Env, ienv: Env,
      zones: seq<Value>, fs: seq<Frame>, sts: seq<StaticFrame>, wss: seq<set<Watch>>, tr: Trace, e: SExpr,
      body: seq<SStmt>)
    requires At(c, sc, n, senv, ienv, zones, fs, sts, wss)
    requires DefersSafe(sc.names, [{}] + wss, body)
    requires Expr1(UnitOf(c), sc, e).Some? && LowerBlock(UnitOf(c), sc, sts, n, body).Some?
    ensures
      var out := ExecSWhile(c, fuel, senv, zones, fs, tr, e, body);
      Matches(out, ExecWhile(c.o, fuel, ienv, tr, Expr1(UnitOf(c), sc, e).value,
        LowerBlock(UnitOf(c), sc, sts, n, body).value.stmts), ienv, n)
      && (out.Next? ==> NamesAre(out.env, sc.names))
    decreases fuel, body, 3
  {
    hide FramesRel, CoversAll, ZonesRel, Lookup, EvalS, Eval, LowerRest, ExecInner, ExecBlock, Extends, Strip;
    ExtendsSelf(ienv, n);
    if fuel != 0 {
      Expr1Preserved(c, sc, n, senv, ienv, zones, tr, e);
      var r := EvalS(c.o, c.cs, |c.cs|, senv, zones, tr, e);
      if r.Val? && r.value.VBool? && r.value.b {
        BlockPreserved(c, fuel, sc, n, senv, ienv, zones, fs, sts, wss, r.trace, body);
        var out := ExecInner(c, fuel, senv, zones, fs, r.trace, body);
        if out.Next? {
          var ir := ExecBlock(c.o, fuel, ienv, r.trace, LowerBlock(UnitOf(c), sc, sts, n, body).value.stmts);
          AtLater(c, sc, sc, n, n, senv, out.env, ienv, ir.env, zones, fs, sts, wss);
          WhilePreserved(c, fuel - 1, sc, n, out.env, ir.env, zones, fs, sts, wss, out.trace, e, body);
          var end := ExecSWhile(c, fuel - 1, out.env, zones, fs, out.trace, e, body);
          if end.Next? {
            ExtendsTransitive(ienv, ir.env,
              ExecWhile(c.o, fuel - 1, ir.env, out.trace, Expr1(UnitOf(c), sc, e).value,
              LowerBlock(UnitOf(c), sc, sts, n, body).value.stmts).env, n, n);
          }
        }
      }
    }
  }

  lemma {:induction false} ForPreserved(c: Context, fuel: nat, sc: Scope, n: nat, senv: Env, ienv: Env,
      zones: seq<Value>, fs: seq<Frame>, sts: seq<StaticFrame>, wss: seq<set<Watch>>, tr: Trace, end: int,
      body: seq<SStmt>)
    requires At(c, sc, n, senv, ienv, zones, fs, sts, wss)
    requires senv != [] && ienv != [] && ienv[0].name.User?
    requires DefersSafe(sc.names, [{}] + wss, body)
    requires LowerBlock(UnitOf(c), sc, sts, n, body).Some?
    ensures
      var out := ExecSFor(c, fuel, senv, zones, fs, tr, end, body);
      Matches(out, ExecFor(c.o, fuel, ienv, tr, end, LowerBlock(UnitOf(c), sc, sts, n, body).value.stmts), ienv, n)
      && (out.Next? ==> NamesAre(out.env, sc.names))
    decreases fuel, body, 3
  {
    hide FramesRel, CoversAll, ZonesRel, Lookup, LowerRest, ExecInner, ExecBlock;
    assert senv[0] == ienv[0];
    if fuel != 0 && ienv[0].value.VInt? && ienv[0].value.i < end {
      var b := LowerBlock(UnitOf(c), sc, sts, n, body).value.stmts;
      BlockPreserved(c, fuel, sc, n, senv, ienv, zones, fs, sts, wss, tr, body);
      var out := ExecInner(c, fuel, senv, zones, fs, tr, body);
      var ir := ExecBlock(c.o, fuel, ienv, tr, b);
      if out.Next? {
        assert SameBut(ienv[0], ir.env[|ir.env| - |ienv| + 0]);
        if ir.env[0].value.VInt? && InInt64(ir.env[0].value.i + 1) {
          var next := Binding(ir.env[0].name, VInt(ir.env[0].value.i + 1));
          AtNext(c, sc, n, senv, out.env, ienv, ir.env, zones, fs, sts, wss, next);
          var senv1, ienv1 := [next] + out.env[1..], [next] + ir.env[1..];
          ForPreserved(c, fuel - 1, sc, n, senv1, ienv1, zones, fs, sts, wss, out.trace, end, body);
          MatchesLater(ExecSFor(c, fuel - 1, senv1, zones, fs, out.trace, end, body),
            ExecFor(c.o, fuel - 1, ienv1, out.trace, end, b), ienv, ienv1, n, n);
        }
      }
    }
  }

  /** Stepping the loop variable, the innermost binding. */
  lemma {:induction false} AtNext(c: Context, sc: Scope, n: nat, senv: Env, senv': Env, ienv: Env, ienv': Env,
      zones: seq<Value>, fs: seq<Frame>, sts: seq<StaticFrame>, wss: seq<set<Watch>>, next: Binding)
    requires At(c, sc, n, senv, ienv, zones, fs, sts, wss)
    requires Extends(ienv, ienv', n) && Strip(ienv') == senv' && NamesAre(senv', sc.names)
    requires ienv' != [] && |ienv| == |ienv'| && ienv'[0].name == next.name && next.name.User?
    ensures senv' != [] && senv'[0] == ienv'[0]
    ensures At(c, sc, n, [next] + senv'[1..], [next] + ienv'[1..], zones, fs, sts, wss)
    ensures Extends(ienv, [next] + ienv'[1..], n)
  {
    var ienv1 := [next] + ienv'[1..];
    assert ienv1[1..] == ienv'[1..];
    assert senv'[1..] == Strip(ienv'[1..]);
    forall i | 0 <= i < |ienv|
      ensures SameBut(ienv[i], ienv1[|ienv1| - |ienv| + i])
    {
      assert SameBut(ienv[i], ienv'[|ienv'| - |ienv| + i]);
    }
    assert SuffixOf(sc.names, sc.names);
    AtLater(c, sc, sc, n, n, senv, [next] + senv'[1..], ienv, ienv1, zones, fs, sts, wss);
  }

  /** Lowering a body preserves its trace, outcome and value, for every fuel. n is the next
      free index for generated names, which the whole project shares. */
  lemma {:induction false} LoweringPreserves(c: Context, fuel: nat, params: Env, names: seq<string>, n: nat,
      tr: Trace, body: seq<SStmt>)
    requires NamesAre(params, names)
    requires DefersSafe(names, [{}], body)
    requires LowerBlock(UnitOf(c), Scope(names, []), [], n, body).Some?
    ensures
      var out := RunBody(c, fuel, params, tr, body);
      var ir := ExecStmts(c.o, fuel, params, tr, LowerBlock(UnitOf(c), Scope(names, []), [], n, body).value.stmts);
      if out.Next? then ir.Next? && ir.trace == out.trace && Strip(ir.env) == out.env else ir == out
  {
    StripUsers(params);
    var sc := Scope(names, []);
    var fs: seq<Frame>, sts: seq<StaticFrame>, wss: seq<set<Watch>> := [[]], [[]], [{}];
    assert [[]] + [] == sts;
    RestPreserved(c, fuel, sc, n, params, params, [], fs, sts, wss, tr, body);
  }

  lemma {:induction false} StripUsers(env: Env)
    requires forall i :: 0 <= i < |env| ==> env[i].name.User?
    ensures Strip(env) == env
  {
    if env != [] {
      StripUsers(env[1..]);
    }
  }
}
