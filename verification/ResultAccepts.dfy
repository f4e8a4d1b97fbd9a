/** Which bodies the flow checker accepts: where no result is assigned, exactly those whose every
    read of `.value` is dominated by a condition that proves it (src/sema/typecheck.c:2651-2940). */
module ResultAccepts {
  import opened Ir
  import opened Source
  import opened GuaranteedReturn
  import opened ResultFlow
  import opened ResultForgets
  import opened ResultGuards

  /** Every read in the expression is of a name among `known`, or proven by an arm around it. */
  predicate GoodExpr(infos: seq<Info>, known: set<nat>, e: SExpr) {
    var rs := Readings(infos, known, e);
    forall i :: 0 <= i < |rs| ==>
      && rs[i].base.SName?
      && var b := Find(infos, rs[i].base.id); b.Some? && b.value in rs[i].marks
  }

  /** The statements of a scope, with the results known to be ok there. */
  predicate Good(infos: seq<Info>, known: set<nat>, ss: seq<SStmt>)
    decreases ss, 0
  {
    ss == [] || (GoodStmt(infos, known, ss[0]) && Good(After(infos, ss[0]), Later(infos, known, ss[0]), ss[1..]))
  }

  function After(infos: seq<Info>, s: SStmt): seq<Info> {
    match s
    case SLet(x, mut, ty, e) =>
      var inner := [Info(x, mut, ty, None)] + infos;
      if !mut && ty == TBool then [Info(x, mut, ty, BuildProof(inner, e, 0))] + infos else inner
    case STry(x, ty, _) => [Info(x, false, ty, None)] + infos
    case _ => infos
  }

  /** What an `if` proves for the code after it when one of its branches returns. */
  function Later(infos: seq<Info>, known: set<nat>, s: SStmt): set<nat> {
    match s
    case SIfThen(c, t) => known + if BlockReturns(t) then Marks(BuildProof(infos, c, 0), false) else {}
    case SIfElse(c, t, f) =>
      var p := BuildProof(infos, c, 0);
      known + (if BlockReturns(f) then Marks(p, true) else {}) + (if BlockReturns(t) then Marks(p, false) else {})
    case _ => known
  }

  predicate GoodStmt(infos: seq<Info>, known: set<nat>, s: SStmt)
    decreases s, 1
  {
    match s
    case SLet(_, _, _, e) => GoodExpr(infos, known, e)
    case STry(_, _, e) => GoodExpr(infos, known, e)
    case SAssign(x, e) =>
      var b := Find(infos, x);
      b.Some? && InfoOf(infos, b.value).mut && GoodExpr(infos, known, e)
    case SReturn(e) => e.None? || GoodExpr(infos, known, e.value)
    case SExprStmt(e) => GoodExpr(infos, known, e)
    case SFree(e) => GoodExpr(infos, known, e)
    case SDefer(d) => GoodExpr(infos, known, d.e)
    case SZone(body) => Good(infos, known, body)
    case SIfThen(c, t) => GoodExpr(infos, known, c) && Good(infos, known + Marks(BuildProof(infos, c, 0), true), t)
    case SIfElse(c, t, f) =>
      var p := BuildProof(infos, c, 0);
      GoodExpr(infos, known, c) && Good(infos, known + Marks(p, true), t) && Good(infos, known + Marks(p, false), f)
    case SWhile(c, body) =>
      GoodExpr(infos, known, c) && Good(infos, known + Marks(BuildProof(infos, c, 0), true), body)
    case SLoop(body) => Good(infos, known, body)
    case SFor(x, a, b, body) =>
      && GoodExpr(infos, known, a) && GoodExpr(infos, known, b)
      && Good([Info(x, false, TInt, None)] + infos, known, body)
  }

  /** The flow proves exactly these results. */
  ghost predicate Knows(flow: Flow, known: set<nat>) { forall b :: ProvenOk(flow, b) <==> b in known }

  lemma {:induction false} KnowsEnter(flow: Flow, known: set<nat>, bs: set<nat>)
    requires Knows(flow, known)
    ensures Knows(Enter(flow, bs), known + bs)
  {
    EnterMore(flow, {}, flow, bs);
  }

  lemma {:induction false} KnowsMark(flow: Flow, known: set<nat>, bs: set<nat>)
    requires Knows(flow, known) && flow.guards != []
    ensures Knows(Mark(flow, bs), known + bs)
  {
    var flow' := Mark(flow, bs);
    forall b
      ensures ProvenOk(flow', b) <==> b in known + bs
    {
      assert b in bs ==> b in flow'.guards[0];
      if ProvenOk(flow, b) {
        var i :| 0 <= i < |flow.guards| && b in flow.guards[i];
        assert b in flow'.guards[i];
      }
      if ProvenOk(flow', b) && b !in bs {
        var i :| 0 <= i < |flow'.guards| && b in flow'.guards[i];
        assert b in flow.guards[i];
      }
    }
  }

  lemma {:induction false} ExprAccepted(flow: Flow, known: set<nat>, e: SExpr)
    requires Knows(flow, known)
    ensures AcceptsExpr(flow, e) <==> GoodExpr(flow.infos, known, e)
  {
    var outside := Flow(flow.infos, []);
    assert Entered(outside, known, flow);
    AcceptsDominated(outside, known, flow, e);
    var rs := Readings(flow.infos, known, e);
    assert forall b: nat :: !ProvenOk(outside, b);
  }

  /** Nothing assigned, nothing forgotten. */
  lemma {:induction false} BlockKeeps(flow: Flow, pending: seq<set<Due>>, marks: set<nat>, ss: seq<SStmt>)
    requires Forgets(flow.infos, ss) == {}
    ensures CheckBlock(flow, pending, marks, ss).flow == flow
  {
    hide CheckBlock;
    BlockForgets(flow, pending, marks, ss);
    ForgotNone(flow, CheckBlock(flow, pending, marks, ss).flow);
  }

  lemma {:induction false} ForgotNone(flow: Flow, flow': Flow)
    requires ForgotAll(flow, flow', {})
    ensures flow' == flow
  {
    forall i | 0 <= i < |flow.infos|
      ensures flow'.infos[i] == flow.infos[i]
    {
      var b := |flow.infos| - 1 - i;
      assert InfoOf(flow'.infos, b) == DroppedAll(InfoOf(flow.infos, b), {});
    }
    assert forall i :: 0 <= i < |flow.guards| ==> flow'.guards[i] == flow.guards[i];
  }

  lemma {:induction false} LoopKeeps(flow: Flow, pending: seq<set<Due>>, c: SExpr, body: seq<SStmt>)
    requires Forgets(flow.infos, body) == {}
    ensures CheckLoop(flow, pending, c, body).flow == flow
  {
    hide CheckBlock, BuildProof, Marks, AcceptsExpr;
    BlockKeeps(flow, pending, Marks(BuildProof(flow.infos, c, 0), true), body);
  }

  /** A body that assigns no result is accepted if and only if its reads are dominated and its
      assignments are to mutable names in scope. */
  lemma {:induction false} AcceptedExactly(flow: Flow, pending: seq<set<Due>>, known: set<nat>, ss: seq<SStmt>)
    requires flow.guards != [] && pending != [] && Knows(flow, known) && Forgets(flow.infos, ss) == {}
    ensures CheckStmts(flow, pending, ss).accepted <==> Good(flow.infos, known, ss)
    decreases ss, 0
  {
    hide AcceptsExpr, GoodExpr, CheckStmt, GoodStmt, Knows, AcceptsDue, BuildProof, Marks, ForgetsBy;
    if ss != [] {
      var s := ss[0];
      if s.SDefer? {
        ExprAccepted(flow, known, s.deferred.e);
        assert BoundInfos(s) + flow.infos == flow.infos;
        AcceptedExactly(flow, [pending[0] + {Due(s.deferred, |flow.infos|)}] + pending[1..], known, ss[1..]);
        DeferGood(flow.infos, known, s);
      } else {
        var next := CheckStmt(flow, pending, s).flow;
        StmtAccepted(flow, pending, known, s);
        StmtForgets(flow, pending, s);
        ForgetsSame(BoundInfos(s) + flow.infos, next.infos, ss[1..]);
        AcceptedExactly(next, pending, Later(flow.infos, known, s), ss[1..]);
      }
    }
  }

  lemma DeferGood(infos: seq<Info>, known: set<nat>, s: SStmt)
    requires s.SDefer?
    ensures GoodStmt(infos, known, s) <==> GoodExpr(infos, known, s.deferred.e)
    ensures After(infos, s) == infos && Later(infos, known, s) == known
  {
  }

  lemma {:induction false} BlockAccepted(flow: Flow, pending: seq<set<Due>>, known: set<nat>, marks: set<nat>,
      ss: seq<SStmt>)
    requires Knows(flow, known) && Forgets(flow.infos, ss) == {}
    ensures CheckBlock(flow, pending, marks, ss).accepted <==> Good(flow.infos, known + marks, ss)
    ensures CheckBlock(flow, pending, marks, ss).flow == flow
    decreases ss, 1
  {
    hide CheckStmts, Good, Forgets, Knows;
    KnowsEnter(flow, known, marks);
    AcceptedExactly(Enter(flow, marks), [{}] + pending, known + marks, ss);
    BlockKeeps(flow, pending, marks, ss);
  }

  lemma {:induction false} StmtAccepted(flow: Flow, pending: seq<set<Due>>, known: set<nat>, s: SStmt)
    requires flow.guards != [] && Knows(flow, known) && ForgetsBy(flow.infos, s) == {} && !s.SDefer?
    ensures CheckStmt(flow, pending, s).accepted <==> GoodStmt(flow.infos, known, s)
    ensures CheckStmt(flow, pending, s).flow.infos == After(flow.infos, s)
    ensures Knows(CheckStmt(flow, pending, s).flow, Later(flow.infos, known, s))
    decreases s, 1
  {
    hide AcceptsExpr, GoodExpr, CheckBlock, Good, Knows, AcceptsAllDue, BuildProof, Marks, Forgets, BlockReturns;
    match s
    case SLet(x, mut, ty, e) =>
      ExprAccepted(flow, known, e);
      KnowsSame(flow, Define(flow, x, mut, ty, Some(e)), known);
    case STry(x, ty, e) =>
      ExprAccepted(flow, known, e);
      KnowsSame(flow, Define(flow, x, false, ty, None), known);
    case SAssign(x, e) => ExprAccepted(flow, known, e);
    case SReturn(e) => if e.Some? { ExprAccepted(flow, known, e.value); }
    case SExprStmt(e) => ExprAccepted(flow, known, e);
    case SFree(e) => ExprAccepted(flow, known, e);
    case SZone(body) =>
      BlockAccepted(flow, [{}] + pending, known, {}, body);
      assert known + {} == known;
    case SIfThen(c, t) =>
      ExprAccepted(flow, known, c);
      BlockAccepted(flow, pending, known, Marks(BuildProof(flow.infos, c, 0), true), t);
      KnowsMark(flow, known, if BlockReturns(t) then Marks(BuildProof(flow.infos, c, 0), false) else {});
    case SIfElse(_, _, _) => IfElseAccepted(flow, pending, known, s);
    case SWhile(c, body) => LoopAccepted(flow, pending, known, c, body);
    case SLoop(body) =>
      LoopAccepted(flow, pending, known, SBool(true), body);
      LiteralProvesNothing(flow, known);
    case SFor(_, _, _, _) => ForAccepted(flow, pending, known, s);
  }

  lemma KnowsSame(flow: Flow, flow': Flow, known: set<nat>)
    requires Knows(flow, known) && flow'.guards == flow.guards
    ensures Knows(flow', known)
  {
    assert forall b :: ProvenOk(flow', b) <==> ProvenOk(flow, b);
  }

  lemma LiteralProvesNothing(flow: Flow, known: set<nat>)
    requires Knows(flow, known)
    ensures Marks(BuildProof(flow.infos, SBool(true), 0), true) == {} && known + {} == known
    ensures AcceptsExpr(flow, SBool(true)) && GoodExpr(flow.infos, known, SBool(true))
  {
  }

  lemma {:induction false} IfElseAccepted(flow: Flow, pending: seq<set<Due>>, known: set<nat>, s: SStmt)
    requires flow.guards != [] && Knows(flow, known) && ForgetsBy(flow.infos, s) == {} && s.SIfElse?
    ensures CheckIfElse(flow, pending, s).accepted <==> GoodStmt(flow.infos, known, s)
    ensures CheckIfElse(flow, pending, s).flow.infos == flow.infos
    ensures Knows(CheckIfElse(flow, pending, s).flow, Later(flow.infos, known, s))
    decreases s, 0
  {
    hide AcceptsExpr, GoodExpr, CheckBlock, Good, Knows, BuildProof, Marks, Forgets, BlockReturns, Assigned;
    var p := BuildProof(flow.infos, s.cond, 0);
    ExprAccepted(flow, known, s.cond);
    assert Forgets(flow.infos, s.thenBlock) == {} && Forgets(flow.infos, s.elseBlock) == {};
    BlockAccepted(flow, pending, known, Marks(p, true), s.thenBlock);
    BlockAccepted(flow, pending, known, Marks(p, false), s.elseBlock);
    var yes := if BlockReturns(s.elseBlock) then Marks(p, true) else {};
    KnowsMark(flow, known, yes);
    KnowsMark(Mark(flow, yes), known + yes, if BlockReturns(s.thenBlock) then Marks(p, false) else {});
  }

  lemma {:induction false} LoopAccepted(flow: Flow, pending: seq<set<Due>>, known: set<nat>, c: SExpr,
      body: seq<SStmt>)
    requires Knows(flow, known) && Forgets(flow.infos, body) == {}
    ensures CheckLoop(flow, pending, c, body).accepted <==>
      GoodExpr(flow.infos, known, c) && Good(flow.infos, known + Marks(BuildProof(flow.infos, c, 0), true), body)
    ensures CheckLoop(flow, pending, c, body).flow == flow
    decreases body, 2
  {
    hide AcceptsExpr, GoodExpr, CheckBlock, Good, Knows, BuildProof, Marks, Forgets;
    ExprAccepted(flow, known, c);
    BlockAccepted(flow, pending, known, Marks(BuildProof(flow.infos, c, 0), true), body);
  }

  lemma {:induction false} ForAccepted(flow: Flow, pending: seq<set<Due>>, known: set<nat>, s: SStmt)
    requires flow.guards != [] && Knows(flow, known) && ForgetsBy(flow.infos, s) == {} && s.SFor?
    ensures CheckStmt(flow, pending, s).accepted <==> GoodStmt(flow.infos, known, s)
    ensures CheckStmt(flow, pending, s).flow == flow
    decreases s, 0
  {
    hide AcceptsExpr, GoodExpr, CheckLoop, Good, Knows, BuildProof, Marks, Forgets;
    var inner := Define(Enter(flow, {}), s.id, false, TInt, None);
    ExprAccepted(flow, known, s.start);
    ExprAccepted(flow, known, s.end);
    KnowsEnter(flow, known, {});
    assert known + {} == known;
    KnowsSame(Enter(flow, {}), inner, known);
    LoopAccepted(inner, pending, known, SBool(true), s.body);
    LiteralProvesNothing(inner, known);
    assert inner.infos[1..] == flow.infos && inner.guards[1..] == flow.guards;
  }
}
