/** Bodies that assign no result: every accepted one is stable, so it reads only ok results. */
module ResultStable {
  import opened Ir
  import opened Values
  import opened IrSemantics
  import opened Source
  import opened GuaranteedReturn
  import opened ResultFlow
  import opened ResultFlowProof
  import opened ResultForgets
  import opened ResultGuards
  import opened ResultAccepts
  import opened ResultFlowFacts
  import opened ResultFlowTheorem

  /** Stored proofs speak of earlier results only. */
  predicate WellFormed(infos: seq<Info>) {
    forall i :: 0 <= i < |infos| ==> LeavesIn(infos[i].proof, infos, |infos| - 1 - i)
  }

  lemma {:induction false} ProofLeaves(infos: seq<Info>, e: SExpr, depth: nat)
    requires WellFormed(infos)
    ensures LeavesIn(BuildProof(infos, e, depth), infos, |infos|)
    decreases e
  {
    match e
    case SUnary(_, a) => ProofLeaves(infos, a, depth + 1);
    case SBinary(_, _, l, r) =>
      ProofLeaves(infos, l, depth + 1);
      ProofLeaves(infos, r, depth + 1);
    case SName(x) =>
      var b := Find(infos, x);
      if b.Some? {
        assert LeavesIn(infos[|infos| - 1 - b.value].proof, infos, b.value);
        LeavesMore(InfoOf(infos, b.value).proof, infos, b.value, |infos|);
      }
    case _ =>
  }

  lemma {:induction false} WellFormedPush(infos: seq<Info>, i: Info)
    requires WellFormed(infos) && LeavesIn(i.proof, [i] + infos, |infos|)
    ensures WellFormed([i] + infos)
  {
    var all := [i] + infos;
    forall k | 0 <= k < |all|
      ensures LeavesIn(all[k].proof, all, |all| - 1 - k)
    {
      if k > 0 {
        assert LeavesIn(infos[k - 1].proof, infos, |infos| - k);
        assert forall b: nat :: b < |infos| ==> InfoOf(all, b) == InfoOf(infos, b);
        LeavesSame(infos[k - 1].proof, infos, all, |infos| - k);
      }
    }
  }

  lemma {:induction false} WellFormedDefine(flow: Flow, x: string, mut: bool, ty: Type, init: Option<SExpr>)
    requires WellFormed(flow.infos)
    ensures WellFormed(Define(flow, x, mut, ty, init).infos)
  {
    hide BuildProof;
    var plain := Info(x, mut, ty, None);
    WellFormedPush(flow.infos, plain);
    if init.Some? && !mut && ty == TBool {
      var infos := [plain] + flow.infos;
      var p := BuildProof(infos, init.value, 0);
      var infos' := [Info(x, mut, ty, p)] + flow.infos;
      ProofLeaves(infos, init.value, 0);
      LeavesBefore(p, infos);
      LeavesSame(p, infos, infos', |flow.infos|);
      WellFormedPush(flow.infos, infos'[0]);
    }
  }

  // More facts accept more

  /** At least what flow knows, with perhaps more bindings. */
  ghost predicate Grows(flow: Flow, flow': Flow) {
    && |flow.infos| <= |flow'.infos| && flow'.infos[|flow'.infos| - |flow.infos|..] == flow.infos
    && forall b: nat :: b < |flow.infos| && ProvenOk(flow, b) ==> ProvenOk(flow', b)
  }

  lemma {:induction false} AcceptsMore(flow: Flow, flow': Flow, e: SExpr)
    requires AcceptsExpr(flow, e) && flow.infos == flow'.infos
    requires forall b: nat :: b < |flow.infos| && ProvenOk(flow, b) ==> ProvenOk(flow', b)
    ensures AcceptsExpr(flow', e)
  {
    hide AcceptsExpr, Readings;
    AcceptsExactly(flow, e);
    AcceptsExactly(flow', e);
    var rs := Readings(flow.infos, {}, e);
    forall i | 0 <= i < |rs|
      ensures Dominated(flow', rs[i])
    {
      assert Dominated(flow, rs[i]);
    }
  }

  lemma {:induction false} TrimProves(flow: Flow, n: nat, b: nat)
    ensures ProvenOk(Trim(flow, n), b) <==> b < n && ProvenOk(flow, b)
  {
    var flow' := Trim(flow, n);
    if b < n && ProvenOk(flow, b) {
      var i :| 0 <= i < |flow.guards| && b in flow.guards[i];
      assert b in flow'.guards[i];
    }
  }

  /** The pending deferred statements would be accepted here. */
  ghost predicate Settled(flow: Flow, pending: seq<set<Due>>) {
    forall i, x: Due :: 0 <= i < |pending| && x in pending[i] ==>
      x.depth <= |flow.infos| && AcceptsExpr(Trim(flow, x.depth), x.d.e)
  }

  lemma {:induction false} SettledMore(flow: Flow, flow': Flow, pending: seq<set<Due>>)
    requires Settled(flow, pending) && Grows(flow, flow')
    ensures Settled(flow', pending)
  {
    hide AcceptsExpr;
    forall i, x: Due | 0 <= i < |pending| && x in pending[i]
      ensures x.depth <= |flow'.infos| && AcceptsExpr(Trim(flow', x.depth), x.d.e)
    {
      forall b: nat
        ensures ProvenOk(Trim(flow, x.depth), b) <==> b < x.depth && ProvenOk(flow, b)
        ensures ProvenOk(Trim(flow', x.depth), b) <==> b < x.depth && ProvenOk(flow', b)
      {
        TrimProves(flow, x.depth, b);
        TrimProves(flow', x.depth, b);
      }
      assert Trim(flow', x.depth).infos == Trim(flow, x.depth).infos;
      AcceptsMore(Trim(flow, x.depth), Trim(flow', x.depth), x.d.e);
    }
  }

  lemma SettledAccepts(flow: Flow, pending: seq<set<Due>>)
    requires Settled(flow, pending)
    ensures AcceptsAllDue(flow, pending) && (pending != [] ==> AcceptsDue(flow, pending[0]))
  {
  }

  lemma SettledInner(flow: Flow, pending: seq<set<Due>>)
    requires Settled(flow, pending)
    ensures Settled(flow, [{}] + pending)
  {
    hide AcceptsExpr;
    var more := [{}] + pending;
    forall i, x: Due | 0 <= i < |more| && x in more[i]
      ensures x.depth <= |flow.infos| && AcceptsExpr(Trim(flow, x.depth), x.d.e)
    {
      assert x in pending[i - 1];
    }
  }

  lemma {:induction false} SettledDefer(flow: Flow, pending: seq<set<Due>>, d: Deferred)
    requires Settled(flow, pending) && pending != [] && AcceptsExpr(flow, d.e)
    ensures Settled(flow, [pending[0] + {Due(d, |flow.infos|)}] + pending[1..])
  {
    hide AcceptsExpr;
    var n := |flow.infos|;
    forall b: nat
      ensures ProvenOk(Trim(flow, n), b) <==> b < n && ProvenOk(flow, b)
    {
      TrimProves(flow, n, b);
    }
    assert Trim(flow, n).infos == flow.infos;
    AcceptsMore(flow, Trim(flow, n), d.e);
    var more := [pending[0] + {Due(d, n)}] + pending[1..];
    forall i, x: Due | 0 <= i < |more| && x in more[i]
      ensures x.depth <= n && AcceptsExpr(Trim(flow, x.depth), x.d.e)
    {
      if x != Due(d, n) {
        assert x in pending[i];
      }
    }
  }

  lemma GrowsEnter(flow: Flow, bs: set<nat>)
    ensures Grows(flow, Enter(flow, bs))
  {
    var flow' := Enter(flow, bs);
    forall b: nat | ProvenOk(flow, b)
      ensures ProvenOk(flow', b)
    {
      var i :| 0 <= i < |flow.guards| && b in flow.guards[i];
      assert b in flow'.guards[i + 1];
    }
  }

  lemma GrowsMark(flow: Flow, bs: set<nat>)
    requires flow.guards != []
    ensures Grows(flow, Mark(flow, bs))
  {
    var flow' := Mark(flow, bs);
    forall b: nat | ProvenOk(flow, b)
      ensures ProvenOk(flow', b)
    {
      var i :| 0 <= i < |flow.guards| && b in flow.guards[i];
      assert b in flow'.guards[i];
    }
  }

  lemma GrowsDefine(flow: Flow, x: string, mut: bool, ty: Type, init: Option<SExpr>)
    ensures Grows(flow, Define(flow, x, mut, ty, init))
  {
    assert forall b: nat :: ProvenOk(flow, b) == ProvenOk(Define(flow, x, mut, ty, init), b);
  }

  // What a branch assigns is no result

  lemma {:induction false} SpoilsNoResult(infos: seq<Info>, ss: seq<SStmt>, b: nat)
    requires Forgets(infos, ss) == {} && b < |infos| && InfoOf(infos, b).ty.TResult?
    ensures b !in Assigned(NamesIn(infos), ss).spoiled
    decreases ss, 0
  {
    hide AssignedBy, ForgetsBy;
    if ss != [] {
      var s := ss[0];
      SpoilsNone(infos, s, b);
      var infos' := BoundInfos(s) + infos;
      assert NamesIn(infos') == Bound(s) + NamesIn(infos) by { NamesPush(infos, s); }
      assert InfoOf(infos', b) == InfoOf(infos, b);
      SpoilsNoResult(infos', ss[1..], b);
    }
  }

  lemma NamesPush(infos: seq<Info>, s: SStmt)
    ensures NamesIn(BoundInfos(s) + infos) == Bound(s) + NamesIn(infos)
  {
    if BoundInfos(s) == [] {
      assert BoundInfos(s) + infos == infos;
    } else {
      assert (BoundInfos(s) + infos)[1..] == infos;
    }
  }

  lemma {:induction false} SpoilsNone(infos: seq<Info>, s: SStmt, b: nat)
    requires ForgetsBy(infos, s) == {} && b < |infos| && InfoOf(infos, b).ty.TResult?
    ensures b !in AssignedBy(NamesIn(infos), s).spoiled
    decreases s, 1
  {
    hide Assigned, Forgets;
    match s
    case SAssign(x, _) => NumberIsFind(infos, x);
    case SZone(body) => SpoilsNoResult(infos, body, b);
    case SIfThen(_, t) => SpoilsNoResult(infos, t, b);
    case SIfElse(_, t, f) =>
      assert Forgets(infos, t) == {} && Forgets(infos, f) == {};
      SpoilsNoResult(infos, t, b);
      SpoilsNoResult(infos, f, b);
    case SWhile(_, body) => SpoilsNoResult(infos, body, b);
    case SLoop(body) => SpoilsNoResult(infos, body, b);
    case SFor(x, _, _, body) =>
      var infos' := [Info(x, false, TInt, None)] + infos;
      assert infos'[1..] == infos && InfoOf(infos', b) == InfoOf(infos, b);
      SpoilsNoResult(infos', body, b);
    case _ =>
  }

  // Stability

  /** The place of a check: no result assigned, pending statements fine. */
  ghost predicate Calm(flow: Flow, pending: seq<set<Due>>) { WellFormed(flow.infos) && Settled(flow, pending) }

  lemma {:induction false} AcceptedIsStable(flow: Flow, pending: seq<set<Due>>, ss: seq<SStmt>)
    requires flow.guards != [] && pending != [] && Calm(flow, pending) && Forgets(flow.infos, ss) == {}
    requires CheckStmts(flow, pending, ss).accepted
    ensures CheckStmts(flow, pending, ss).stable
    decreases ss, 0
  {
    hide AcceptsExpr, CheckStmt, AcceptsDue, ForgetsBy, Settled, WellFormed;
    if ss == [] {
      SettledAccepts(flow, pending);
    } else if ss[0].SDefer? {
      assert BoundInfos(ss[0]) + flow.infos == flow.infos;
      SettledDefer(flow, pending, ss[0].deferred);
      AcceptedIsStable(flow, [pending[0] + {Due(ss[0].deferred, |flow.infos|)}] + pending[1..], ss[1..]);
    } else {
      var next := CheckStmt(flow, pending, ss[0]).flow;
      StmtIsStable(flow, pending, ss[0]);
      StmtForgets(flow, pending, ss[0]);
      ForgetsSame(BoundInfos(ss[0]) + flow.infos, next.infos, ss[1..]);
      AcceptedIsStable(next, pending, ss[1..]);
    }
  }

  lemma {:induction false} BlockIsStable(flow: Flow, pending: seq<set<Due>>, marks: set<nat>, ss: seq<SStmt>)
    requires Calm(flow, pending) && Forgets(flow.infos, ss) == {} && CheckBlock(flow, pending, marks, ss).accepted
    ensures CheckBlock(flow, pending, marks, ss).stable && CheckBlock(flow, pending, marks, ss).flow == flow
    decreases ss, 1
  {
    hide CheckStmts, Forgets, Settled, WellFormed;
    GrowsEnter(flow, marks);
    SettledMore(flow, Enter(flow, marks), pending);
    SettledInner(Enter(flow, marks), pending);
    AcceptedIsStable(Enter(flow, marks), [{}] + pending, ss);
    BlockKeeps(flow, pending, marks, ss);
  }

  lemma {:induction false} StmtIsStable(flow: Flow, pending: seq<set<Due>>, s: SStmt)
    requires flow.guards != [] && Calm(flow, pending) && ForgetsBy(flow.infos, s) == {} && !s.SDefer?
    requires CheckStmt(flow, pending, s).accepted
    ensures CheckStmt(flow, pending, s).stable && Calm(CheckStmt(flow, pending, s).flow, pending)
    decreases s, 1
  {
    hide AcceptsExpr, CheckBlock, AcceptsAllDue, BuildProof, Marks, Forgets, BlockReturns, Settled, WellFormed, Grows,
      CheckIfElse, CheckLoop;
    match s
    case SLet(x, mut, ty, e) => DefineCalm(flow, pending, x, mut, ty, Some(e));
    case STry(x, ty, _) =>
      SettledAccepts(flow, pending);
      DefineCalm(flow, pending, x, false, ty, None);
    case SReturn(_) => SettledAccepts(flow, pending);
    case SZone(body) =>
      SettledInner(flow, pending);
      BlockIsStable(flow, [{}] + pending, {}, body);
    case SIfThen(c, t) =>
      BlockIsStable(flow, pending, Marks(BuildProof(flow.infos, c, 0), true), t);
      MarkCalm(flow, pending, if BlockReturns(t) then Marks(BuildProof(flow.infos, c, 0), false) else {});
    case SIfElse(_, _, _) => IfElseIsStable(flow, pending, s);
    case SWhile(c, body) => LoopIsStable(flow, pending, c, body);
    case SLoop(body) => LoopIsStable(flow, pending, SBool(true), body);
    case SFor(x, _, _, body) =>
      var inner := Define(Enter(flow, {}), x, false, TInt, None);
      GrowsEnter(flow, {});
      SettledMore(flow, Enter(flow, {}), pending);
      DefineCalm(Enter(flow, {}), pending, x, false, TInt, None);
      LoopIsStable(inner, pending, SBool(true), body);
      assert inner.infos[1..] == flow.infos && inner.guards[1..] == flow.guards;
    case _ =>
  }

  lemma DefineCalm(flow: Flow, pending: seq<set<Due>>, x: string, mut: bool, ty: Type, init: Option<SExpr>)
    requires Calm(flow, pending)
    ensures Calm(Define(flow, x, mut, ty, init), pending)
  {
    hide Settled, WellFormed, Grows;
    WellFormedDefine(flow, x, mut, ty, init);
    GrowsDefine(flow, x, mut, ty, init);
    SettledMore(flow, Define(flow, x, mut, ty, init), pending);
  }

  lemma MarkCalm(flow: Flow, pending: seq<set<Due>>, bs: set<nat>)
    requires Calm(flow, pending) && flow.guards != []
    ensures Calm(Mark(flow, bs), pending)
  {
    hide Settled, WellFormed, Grows;
    GrowsMark(flow, bs);
    SettledMore(flow, Mark(flow, bs), pending);
  }

  lemma {:induction false} LoopIsStable(flow: Flow, pending: seq<set<Due>>, c: SExpr, body: seq<SStmt>)
    requires Calm(flow, pending) && Forgets(flow.infos, body) == {} && CheckLoop(flow, pending, c, body).accepted
    ensures CheckLoop(flow, pending, c, body).stable && CheckLoop(flow, pending, c, body).flow == flow
    decreases body, 2
  {
    hide AcceptsExpr, CheckBlock, BuildProof, Marks, Forgets, Calm;
    BlockIsStable(flow, pending, Marks(BuildProof(flow.infos, c, 0), true), body);
  }

  lemma {:induction false} IfElseIsStable(flow: Flow, pending: seq<set<Due>>, s: SStmt)
    requires flow.guards != [] && Calm(flow, pending) && ForgetsBy(flow.infos, s) == {} && s.SIfElse?
    requires CheckIfElse(flow, pending, s).accepted
    ensures CheckIfElse(flow, pending, s).stable && Calm(CheckIfElse(flow, pending, s).flow, pending)
    decreases s, 0
  {
    hide AcceptsExpr, CheckBlock, BuildProof, Marks, Forgets, BlockReturns, Assigned, Calm;
    var p := BuildProof(flow.infos, s.cond, 0);
    assert Forgets(flow.infos, s.thenBlock) == {} && Forgets(flow.infos, s.elseBlock) == {};
    BlockIsStable(flow, pending, Marks(p, true), s.thenBlock);
    BlockIsStable(flow, pending, Marks(p, false), s.elseBlock);
    MarksSpareAssigned(flow, pending, s.cond, true, s.thenBlock);
    MarksSpareAssigned(flow, pending, s.cond, false, s.elseBlock);
    var yes := if BlockReturns(s.elseBlock) then Marks(p, true) else {};
    MarkCalm(flow, pending, yes);
    MarkCalm(Mark(flow, yes), pending, if BlockReturns(s.thenBlock) then Marks(p, false) else {});
  }

  lemma {:induction false} MarksSpareAssigned(flow: Flow, pending: seq<set<Due>>, e: SExpr, truth: bool,
      ss: seq<SStmt>)
    requires Calm(flow, pending) && Forgets(flow.infos, ss) == {}
    ensures Marks(BuildProof(flow.infos, e, 0), truth) !! Assigned(NamesIn(flow.infos), ss).spoiled
  {
    hide BuildProof, Marks, Forgets, Assigned, LeavesIn;
    ProofLeaves(flow.infos, e, 0);
    MarksAreLeaves(BuildProof(flow.infos, e, 0), truth, flow.infos);
    forall b | b in Marks(BuildProof(flow.infos, e, 0), truth)
      ensures b !in Assigned(NamesIn(flow.infos), ss).spoiled
    {
      SpoilsNoResult(flow.infos, ss, b);
    }
  }

  /** A body that assigns no result is accepted if and only if each of its reads is dominated by a
      condition that proves it, and then every run reads ok results only. */
  lemma {:induction false} UnassignedReadsOk(c: Context, fuel: nat, params: seq<Info>, args: Env, tr: Trace,
      body: seq<SStmt>)
    requires Named(params, args) && forall i :: 0 <= i < |params| ==> params[i].proof.None?
    requires ConstsAccepted(c.cs) && Forgets(params, body) == {}
    ensures CheckStmts(Flow(params, [{}]), [{}], body).accepted <==> Good(params, {}, body)
    ensures Good(params, {}, body) ==> SafeRest(c, fuel, args, [], [[]], tr, body)
  {
    hide CheckStmts, Good, SafeRest, ConstsAccepted, Forgets;
    var flow, pending: seq<set<Due>> := Flow(params, [{}]), [{}];
    AcceptedExactly(flow, pending, {}, body);
    if Good(params, {}, body) {
      AcceptedIsStable(flow, pending, body);
      BodyReadsOk(c, fuel, params, args, tr, body);
    }
  }
}
