/** When a copied deferred statement means what it meant where it was written. The copies are
    resolved by name at the exit, so a name bound again in an inner block captures them. */
module Capture {
  import opened Ir
  import opened Values
  import opened IrSemantics
  import opened Source
  import opened Lowering
  import opened LoweringRelation
  import opened LoweringProof
  import opened LoweringTheorem

  /** The binding a visible name means, counted from the outermost one. */
  function Resolve(names: seq<string>, x: string): Option<nat> {
    if names == [] then None
    else if names[0] == x then Some(|names| - 1)
    else Resolve(names[1..], x)
  }

  lemma {:induction false} ResolveSkips(names: seq<string>, k: nat, x: string)
    requires k <= |names|
    ensures x !in names[..k] ==> Resolve(names, x) == Resolve(names[k..], x)
    ensures x in names[..k] ==> Resolve(names, x).Some? && |names| - k <= Resolve(names, x).value
    decreases k
  {
    if k == 0 {
      assert names[0..] == names;
    } else {
      assert names[..k] == [names[0]] + names[1..][..k - 1];
      assert names[1..][k - 1..] == names[k..];
      ResolveSkips(names[1..], k - 1, x);
    }
  }

  lemma {:induction false} ResolveBounded(names: seq<string>, x: string)
    ensures Resolve(names, x).Some? ==> Resolve(names, x).value < |names|
  {
    if names != [] {
      ResolveBounded(names[1..], x);
    }
  }

  /** At an exit, every local of a pending deferred statement resolves to the binding it had
      where the statement was written exactly when the statement is uncaptured there. */
  lemma {:induction false} CopyMeansTheSame(names: seq<string>, w: Watch)
    requires SuffixOf(w.names, names)
    ensures Uncaptured(names, w) <==>
      forall x :: x in NamesOf(w.d.e) && x in w.names ==> Resolve(names, x) == Resolve(w.names, x)
  {
    var k := |names| - |w.names|;
    forall x | x in NamesOf(w.d.e) && x in w.names
      ensures x !in names[..k] <==> Resolve(names, x) == Resolve(w.names, x)
    {
      ResolveSkips(names, k, x);
      ResolveBounded(w.names, x);
    }
  }

  /** The names a body binds, with multiplicity. */
  function Binders(ss: seq<SStmt>): multiset<string>
    decreases ss, 0
  {
    if ss == [] then multiset{} else BindersOf(ss[0]) + Binders(ss[1..])
  }

  function BindersOf(s: SStmt): multiset<string>
    decreases s, 1
  {
    match s
    case SLet(x, _, _, _) => multiset{x}
    case STry(x, _, _) => multiset{x}
    case SZone(body) => Binders(body)
    case SIfThen(_, t) => Binders(t)
    case SIfElse(_, t, f) => Binders(t) + Binders(f)
    case SWhile(_, body) => Binders(body)
    case SLoop(body) => Binders(body)
    case SFor(x, _, _, body) => multiset{x} + Binders(body)
    case _ => multiset{}
  }

  ghost predicate AllOnce(m: multiset<string>) { forall x :: m[x] <= 1 }

  /** Every pending deferred statement was written in an enclosing part of the scope. */
  predicate Enclosing(wss: seq<set<Watch>>, names: seq<string>) {
    forall i, w :: 0 <= i < |wss| && w in wss[i] ==> SuffixOf(w.names, names)
  }

  lemma {:induction false} OnceUncaptured(names: seq<string>, w: Watch)
    requires AllOnce(multiset(names)) && SuffixOf(w.names, names)
    ensures Uncaptured(names, w)
  {
    var k := |names| - |w.names|;
    assert names == names[..k] + w.names;
    assert multiset(names) == multiset(names[..k]) + multiset(w.names);
    forall x | x in w.names
      ensures x !in names[..k]
    {
      assert multiset(names)[x] == multiset(names[..k])[x] + multiset(w.names)[x];
    }
  }

  lemma {:induction false} OnceFrames(names: seq<string>, wss: seq<set<Watch>>)
    requires AllOnce(multiset(names)) && Enclosing(wss, names)
    ensures FramesUncaptured(names, wss)
  {
    forall i, w | 0 <= i < |wss| && w in wss[i]
      ensures Uncaptured(names, w)
    {
      OnceUncaptured(names, w);
    }
  }

  lemma {:induction false} EnclosingPush(wss: seq<set<Watch>>, names: seq<string>, x: string)
    requires Enclosing(wss, names)
    ensures Enclosing(wss, [x] + names)
  {
    forall i, w | 0 <= i < |wss| && w in wss[i]
      ensures SuffixOf(w.names, [x] + names)
    {
      SuffixTransitive(w.names, names, [x] + names);
    }
  }

  lemma {:induction false} PushOnce(names: seq<string>, x: string, m: multiset<string>)
    requires AllOnce(multiset(names) + (multiset{x} + m))
    ensures AllOnce(multiset([x] + names) + m)
  {
    assert multiset([x] + names) + m == multiset(names) + (multiset{x} + m);
  }

  lemma FewerOnce(a: multiset<string>, b: multiset<string>)
    requires AllOnce(b) && a <= b
    ensures AllOnce(a)
  {
  }

  /** In a body whose bound names are pairwise distinct, nothing is ever captured. */
  lemma {:induction false} DistinctIsSafe(names: seq<string>, wss: seq<set<Watch>>, ss: seq<SStmt>)
    requires wss != [] && Enclosing(wss, names) && AllOnce(multiset(names) + Binders(ss))
    ensures DefersSafe(names, wss, ss)
    decreases ss, 1
  {
    hide Uncaptured;
    FewerOnce(multiset(names), multiset(names) + Binders(ss));
    OnceFrames(names, wss);
    if ss != [] {
      var s, rest := ss[0], ss[1..];
      FewerOnce(multiset(names) + Binders(rest), multiset(names) + Binders(ss));
      if s.SDefer? {
        var wss1 := [{Watch(s.deferred, names)} + wss[0]] + wss[1..];
        assert forall i :: 0 < i < |wss1| ==> wss1[i] == wss[i];
        assert SuffixOf(names, names);
        DistinctIsSafe(names, wss1, rest);
      } else if s.STry? || s.SLet? {
        EnclosingPush(wss, names, s.id);
        PushOnce(names, s.id, Binders(rest));
        DistinctIsSafe([s.id] + names, wss, rest);
      } else if !s.SReturn? {
        FewerOnce(multiset(names) + BindersOf(s), multiset(names) + Binders(ss));
        DistinctInside(names, wss, s);
        DistinctIsSafe(names, wss, rest);
      }
    }
  }

  lemma {:induction false} DistinctInside(names: seq<string>, wss: seq<set<Watch>>, s: SStmt)
    requires Enclosing(wss, names) && AllOnce(multiset(names) + BindersOf(s))
    ensures DefersSafeIn(names, wss, s)
    decreases s, 0
  {
    var wss1 := [{}] + wss;
    assert forall i :: 0 < i < |wss1| ==> wss1[i] == wss[i - 1];
    match s
    case SZone(body) =>
      var wss2 := [{}] + wss1;
      assert forall i :: 0 < i < |wss2| ==> wss2[i] == wss1[i - 1];
      DistinctIsSafe(names, wss2, body);
    case SIfThen(_, t) => DistinctIsSafe(names, wss1, t);
    case SIfElse(_, t, f) =>
      FewerOnce(multiset(names) + Binders(t), multiset(names) + BindersOf(s));
      FewerOnce(multiset(names) + Binders(f), multiset(names) + BindersOf(s));
      DistinctIsSafe(names, wss1, t);
      DistinctIsSafe(names, wss1, f);
    case SWhile(_, body) => DistinctIsSafe(names, wss1, body);
    case SLoop(body) => DistinctIsSafe(names, wss1, body);
    case SFor(x, _, _, body) =>
      EnclosingPush(wss1, names, x);
      PushOnce(names, x, Binders(body));
      DistinctIsSafe([x] + names, wss1, body);
    case _ =>
  }

  const CAPTURING: seq<SStmt> :=
    [ SLet("x", false, TInt, SInt(1)),
      SDefer(DeferExpr(SCall(Function("m", "f"), TVoid, [SName("x")]))),
      SIfThen(SBool(true), [SLet("x", false, TInt, SInt(2)), SReturn(None)]) ]

  function Called(n: int): Outcome {
    Returned(VUnit, [Event(ACall(Function("m", "f"), [VInt(n)]), VUnit)])
  }

  /** `let x = 1; defer f(x); if true { let x = 2; return; }` defers f(1) and compiles to f(2). */
  lemma {:induction false} CaptureChangesMeaning(o: Oracle, fuel: nat)
    ensures RunBody(Context(o, [], TVoid), fuel, [], [], CAPTURING) == Called(1)
    ensures
      var low := LowerBlock(Unit([], TVoid), NO_SCOPE, [], 0, CAPTURING);
      low.Some? && ExecStmts(o, fuel, [], [], low.value.stmts) == Called(2)
    ensures !DefersSafe([], [{}], CAPTURING)
  {
    CaptureSource(o, fuel);
    CaptureLowered(o, fuel);
    CaptureUnsafe();
  }

  const DEFERRED: SExpr := SCall(Function("m", "f"), TVoid, [SName("x")])
  const INNER: seq<SStmt> := [SLet("x", false, TInt, SInt(2)), SReturn(None)]

  lemma {:induction false} CaptureSource(o: Oracle, fuel: nat)
    ensures RunBody(Context(o, [], TVoid), fuel, [], [], CAPTURING) == Called(1)
  {
    var c, b1 := Context(o, [], TVoid), Binding(User("x"), VInt(1));
    var own: Frame := [Pending(DeferExpr(DEFERRED), 1, 0)];
    assert CAPTURING[1..][0] == CAPTURING[1] && CAPTURING[1..][1..] == [CAPTURING[2]];
    CaptureSourceReturns(o, fuel);
    assert ExecRest(c, fuel, [b1], [], [own], [], [CAPTURING[2]]) == Called(1);
    var empty: seq<Frame> := [[]];
    assert [Pending(DeferExpr(DEFERRED), 1, 0)] + empty[0] == own;
    assert [own] + empty[1..] == [own] && [b1] + [] == [b1];
    assert ExecRest(c, fuel, [b1], [], empty, [], CAPTURING[1..]) == Called(1);
    assert ExecS(c, fuel, [], [], empty, [], CAPTURING[0]) == Next([b1], []);
    assert ExecRest(c, fuel, [], [], empty, [], CAPTURING) == Called(1);
  }

  lemma {:induction false} CaptureSourceReturns(o: Oracle, fuel: nat)
    ensures
      var own: Frame := [Pending(DeferExpr(DEFERRED), 1, 0)];
      ExecS(Context(o, [], TVoid), fuel, [Binding(User("x"), VInt(1))], [], [own], [], CAPTURING[2]) == Called(1)
  {
    var c := Context(o, [], TVoid);
    var b1, b2 := Binding(User("x"), VInt(1)), Binding(User("x"), VInt(2));
    var own: Frame := [Pending(DeferExpr(DEFERRED), 1, 0)];
    var frames: seq<Frame> := [[], own];
    assert INNER[1..] == [SReturn(None)] && CAPTURING[2].thenBlock == INNER;
    CaptureSourceCleanup(o);
    assert ExecRest(c, fuel, [b2, b1], [], frames, [], [SReturn(None)]) == Called(1);
    assert [b2] + [b1] == [b2, b1];
    assert ExecRest(c, fuel, [b1], [], frames, [], INNER) == Called(1);
    assert [[]] + [own] == frames;
  }

  lemma {:induction false} CaptureSourceCleanup(o: Oracle)
    ensures
      var env := [Binding(User("x"), VInt(2)), Binding(User("x"), VInt(1))];
      var frames: seq<Frame> := [[], [Pending(DeferExpr(DEFERRED), 1, 0)]];
      RunFrames(Context(o, [], TVoid), env, [], [], frames) == Some(Called(1).trace)
  {
    var c, b1 := Context(o, [], TVoid), Binding(User("x"), VInt(1));
    var env := [Binding(User("x"), VInt(2)), b1];
    var own: Frame := [Pending(DeferExpr(DEFERRED), 1, 0)];
    var frames: seq<Frame> := [[], own];
    assert Innermost(env, 1) == [b1];
    assert EvalSArgs(o, [], 0, [b1], [], [], [SName("x")][1..]) == Vals([], []);
    assert EvalSArgs(o, [], 0, [b1], [], [], [SName("x")]) == Vals([VInt(1)], []);
    assert EvalS(o, [], 0, [b1], [], [], DEFERRED) == Val(VUnit, Called(1).trace);
    assert RunEntry(c, env, [], [], own[0]) == Some(Called(1).trace);
    assert RunFrame(c, env, [], Called(1).trace, own[1..]) == Some(Called(1).trace);
    assert frames[1..] == [own] && [own][1..] == [];
    assert RunFrames(c, env, [], Called(1).trace, []) == Some(Called(1).trace);
    assert RunFrames(c, env, [], [], [own]) == Some(Called(1).trace);
  }

  const COPY: Stmt := ExprStmt(Call(Function("m", "f"), TVoid, [Local(User("x"))]))

  lemma {:induction false} CaptureCopies()
    ensures
      var own: StaticFrame := [Captured(DeferExpr(DEFERRED), Scope(["x"], []))];
      LowerFrame([], own) == Some([COPY]) && LowerFrames([], [[], own]) == Some([COPY])
  {
    var sc1 := Scope(["x"], []);
    var own: StaticFrame := [Captured(DeferExpr(DEFERRED), sc1)];
    assert LowerArgs([], 0, sc1, [SName("x")][1..]) == Some([]);
    assert LowerArgs([], 0, sc1, [SName("x")]) == Some([Local(User("x"))] + []);
    assert [Local(User("x"))] + [] == [Local(User("x"))];
    assert LowerFrame([], own[1..]) == Some([]);
    assert [COPY] + [] == [COPY] && [] + [COPY] == [COPY];
    var frames: seq<StaticFrame> := [[], own];
    assert frames[1..] == [own] && [own][1..] == [];
    assert LowerFrames([], []) == Some([]);
    assert LowerFrames([], [own]) == Some([COPY]);
    assert LowerFrame([], frames[0]) == Some([]);
  }

  lemma {:induction false} CaptureBlock()
    ensures
      var own: StaticFrame := [Captured(DeferExpr(DEFERRED), Scope(["x"], []))];
      LowerBlock(Unit([], TVoid), Scope(["x"], []), [own], 0,
        INNER) == Some(Lowered([Let(User("x"), Int(2)), COPY, Return(None)], 0))
  {
    var u, sc1, sc2 := Unit([], TVoid), Scope(["x"], []), Scope(["x", "x"], []);
    var own: StaticFrame := [Captured(DeferExpr(DEFERRED), sc1)];
    var frames: seq<StaticFrame> := [[], own];
    CaptureCopies();
    assert INNER[1..] == [SReturn(None)];
    assert [COPY] + [Return(None)] == [COPY, Return(None)];
    assert LowerRest(u, sc2, frames, 0, [SReturn(None)]) == Some(Lowered([COPY, Return(None)], 0));
    assert ["x"] + ["x"] == ["x", "x"];
    assert [Let(User("x"), Int(2))] + [COPY, Return(None)] == [Let(User("x"), Int(2)), COPY, Return(None)];
    assert [[]] + [own] == frames;
  }

  lemma {:induction false} CaptureLowered(o: Oracle, fuel: nat)
    ensures
      var low := LowerBlock(Unit([], TVoid), NO_SCOPE, [], 0, CAPTURING);
      low.Some? && ExecStmts(o, fuel, [], [], low.value.stmts) == Called(2)
  {
    var u, sc1 := Unit([], TVoid), Scope(["x"], []);
    var own: StaticFrame := [Captured(DeferExpr(DEFERRED), sc1)];
    var block := [Let(User("x"), Int(2)), COPY, Return(None)];
    var tail := [IfThen(Bool(true), block), COPY];
    CaptureCopies();
    CaptureBlock();
    assert CAPTURING[1..][0] == CAPTURING[1] && CAPTURING[1..][1..] == [CAPTURING[2]];
    assert CAPTURING[2].thenBlock == INNER;
    assert LowerStmt(u, sc1, [own], 0, CAPTURING[2]) == Some(Lowered([tail[0]], 0));
    assert [CAPTURING[2]][1..] == [];
    assert LowerRest(u, sc1, [own], 0, []) == Some(Lowered([COPY], 0));
    assert [tail[0]] + [COPY] == tail;
    assert LowerRest(u, sc1, [own], 0, [CAPTURING[2]]) == Some(Lowered(tail, 0));
    var empty: seq<StaticFrame> := [[]];
    assert [Captured(DeferExpr(DEFERRED), sc1)] + empty[0] == own;
    assert [own] + empty[1..] == [own] && ["x"] + [] == ["x"];
    assert LowerRest(u, sc1, empty, 0, CAPTURING[1..]) == Some(Lowered(tail, 0));
    assert LowerRest(u, NO_SCOPE, empty, 0, CAPTURING) == Some(Lowered([Let(User("x"), Int(1))] + tail, 0));
    var none: seq<StaticFrame> := [];
    assert [[]] + none == empty;
    CaptureRuns(o, fuel, block, tail);
  }

  lemma {:induction false} CaptureRuns(o: Oracle, fuel: nat, block: seq<Stmt>, tail: seq<Stmt>)
    requires
      var call := Call(Function("m", "f"), TVoid, [Local(User("x"))]);
      && block == [Let(User("x"), Int(2)), ExprStmt(call), Return(None)]
      && tail == [IfThen(Bool(true), block), ExprStmt(call)]
    ensures ExecStmts(o, fuel, [], [], [Let(User("x"), Int(1))] + tail) == Called(2)
  {
    var b1, b2 := Binding(User("x"), VInt(1)), Binding(User("x"), VInt(2));
    var call, env := Call(Function("m", "f"), TVoid, [Local(User("x"))]), [b2, b1];
    assert EvalArgs(o, env, [], [Local(User("x"))][1..]) == Vals([], []);
    assert EvalArgs(o, env, [], [Local(User("x"))]) == Vals([VInt(2)], []);
    assert Eval(o, env, [], call) == Val(VUnit, Called(2).trace);
    ExecCons(o, fuel, env, [], ExprStmt(call), [Return(None)]);
    ExecOne(o, fuel, env, Called(2).trace, Return(None));
    assert block == [block[0]] + ([ExprStmt(call)] + [Return(None)]);
    assert [b2] + [b1] == env && [b1] + [] == [b1];
    ExecCons(o, fuel, [b1], [], block[0], [ExprStmt(call)] + [Return(None)]);
    assert ExecBlock(o, fuel, [b1], [], block) == Called(2);
    assert tail == [tail[0]] + [tail[1]];
    ExecCons(o, fuel, [b1], [], tail[0], [tail[1]]);
    ExecCons(o, fuel, [], [], Let(User("x"), Int(1)), tail);
  }

  lemma {:induction false} CapturedAtReturn()
    ensures
      var w := Watch(DeferExpr(DEFERRED), ["x"]);
      !DefersSafe(["x", "x"], [{}, {w}], [SReturn(None)])
  {
    var w := Watch(DeferExpr(DEFERRED), ["x"]);
    var wss: seq<set<Watch>> := [{}, {w}];
    assert NamesOfAll([SName("x")]) == {"x"} by { assert [SName("x")][1..] == []; }
    assert ["x", "x"][..1] == ["x"];
    assert "x" in NamesOf(w.d.e);
    assert !Uncaptured(["x", "x"], w);
    assert w in wss[1] && !FrameUncaptured(["x", "x"], wss[1]);
  }

  lemma {:induction false} CaptureUnsafe()
    ensures !DefersSafe([], [{}], CAPTURING)
  {
    hide FramesUncaptured, FrameUncaptured;
    var w := Watch(DeferExpr(DEFERRED), ["x"]);
    var wss: seq<set<Watch>> := [{}, {w}];
    assert CAPTURING[1..][0] == CAPTURING[1] && CAPTURING[1..][1..] == [CAPTURING[2]];
    assert INNER[1..] == [SReturn(None)] && CAPTURING[2].thenBlock == INNER;
    CapturedAtReturn();
    assert ["x"] + ["x"] == ["x", "x"];
    assert !DefersSafe(["x"], wss, INNER);
    assert [{}] + [{w}] == wss;
    assert !DefersSafeIn(["x"], [{w}], CAPTURING[2]);
    assert !DefersSafe(["x"], [{w}], [CAPTURING[2]]);
    var empty: seq<set<Watch>> := [{}];
    assert {w} + empty[0] == {w};
    assert [{w} + empty[0]] + empty[1..] == [{w}] && ["x"] + [] == ["x"];
    assert !DefersSafe(["x"], empty, CAPTURING[1..]);
  }
}
