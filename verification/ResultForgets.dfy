/** What a checked piece makes the flow facts of the code around it forget: exactly what was
    known of the results it assigns (src/sema/typecheck.c:614-634, 2702-2721). */
module ResultForgets {
  import opened Ir
  import opened Source
  import opened GuaranteedReturn
  import opened ResultFlow

  /** The results a piece assigns, in whatever branch. */
  function Forgets(infos: seq<Info>, ss: seq<SStmt>): set<nat>
    decreases ss, 0
  {
    if ss == [] then {} else ForgetsBy(infos, ss[0]) + Forgets(BoundInfos(ss[0]) + infos, ss[1..])
  }

  function BoundInfos(s: SStmt): seq<Info> {
    match s
    case SLet(x, mut, ty, _) => [Info(x, mut, ty, None)]
    case STry(x, ty, _) => [Info(x, false, ty, None)]
    case _ => []
  }

  function ForgetsBy(infos: seq<Info>, s: SStmt): set<nat>
    decreases s, 0
  {
    match s
    case SAssign(x, _) =>
      var b := Find(infos, x);
      if b.Some? && InfoOf(infos, b.value).ty.TResult? then {b.value} else {}
    case SZone(body) => Forgets(infos, body)
    case SIfThen(_, t) => Forgets(infos, t)
    case SIfElse(_, t, f) => Forgets(infos, t) + Forgets(infos, f)
    case SWhile(_, body) => Forgets(infos, body)
    case SLoop(body) => Forgets(infos, body)
    case SFor(x, _, _, body) => Forgets([Info(x, false, TInt, None)] + infos, body)
    case _ => {}
  }

  ghost predicate DependsOnAny(p: Option<Proof>, bs: set<nat>) { exists b :: b in bs && DependsOn(p, b) }

  ghost function DroppedAll(i: Info, bs: set<nat>): Info {
    if DependsOnAny(i.proof, bs) then i.(proof := None) else i
  }

  /** The facts of the visible bindings and of the outer scopes, without those about bs. */
  ghost predicate Forgot(flow: Flow, flow': Flow, bs: set<nat>) {
    && |flow.infos| <= |flow'.infos| && |flow.guards| == |flow'.guards|
    && (forall b: nat :: b < |flow.infos| ==> InfoOf(flow'.infos, b) == DroppedAll(InfoOf(flow.infos, b), bs))
    && (forall i :: 1 <= i < |flow.guards| ==> flow'.guards[i] == flow.guards[i] - bs)
  }

  /** The same in every scope. */
  ghost predicate ForgotAll(flow: Flow, flow': Flow, bs: set<nat>) {
    && |flow.infos| == |flow'.infos| && Forgot(flow, flow', bs)
    && (flow.guards != [] ==> flow'.guards[0] == flow.guards[0] - bs)
  }

  lemma DroppedTwice(i: Info, bs: set<nat>, cs: set<nat>)
    ensures DroppedAll(DroppedAll(i, bs), cs) == DroppedAll(i, bs + cs)
  {
    if DependsOnAny(i.proof, bs) {
      var b :| b in bs && DependsOn(i.proof, b);
      assert b in bs + cs;
    } else if DependsOnAny(i.proof, cs) {
      var b :| b in cs && DependsOn(i.proof, b);
      assert b in bs + cs;
    }
  }

  lemma {:induction false} ForgotThen(a: Flow, b: Flow, c: Flow, bs: set<nat>, cs: set<nat>)
    requires Forgot(a, b, bs) && Forgot(b, c, cs)
    ensures Forgot(a, c, bs + cs)
  {
    hide DroppedAll;
    forall n: nat | n < |a.infos|
      ensures InfoOf(c.infos, n) == DroppedAll(InfoOf(a.infos, n), bs + cs)
    {
      assert InfoOf(b.infos, n) == DroppedAll(InfoOf(a.infos, n), bs);
      assert InfoOf(c.infos, n) == DroppedAll(InfoOf(b.infos, n), cs);
      DroppedTwice(InfoOf(a.infos, n), bs, cs);
    }
  }

  lemma {:induction false} ForgotAllThen(a: Flow, b: Flow, c: Flow, bs: set<nat>, cs: set<nat>)
    requires ForgotAll(a, b, bs) && ForgotAll(b, c, cs)
    ensures ForgotAll(a, c, bs + cs)
  {
    hide DroppedAll;
    ForgotThen(a, b, c, bs, cs);
  }

  lemma ForgotMark(flow: Flow, flow': Flow, bs: set<nat>, marks: set<nat>)
    requires Forgot(flow, flow', bs) && flow'.guards != []
    ensures Forgot(flow, Mark(flow', marks), bs)
  {
  }

  // What is assigned depends on names and types only

  predicate SameVars(infos: seq<Info>, infos': seq<Info>) {
    && |infos| == |infos'|
    && forall i :: 0 <= i < |infos| ==> infos[i].name == infos'[i].name && infos[i].ty == infos'[i].ty
  }

  lemma {:induction false} FindSame(infos: seq<Info>, infos': seq<Info>, x: string)
    requires SameVars(infos, infos')
    ensures Find(infos, x) == Find(infos', x)
    decreases infos
  {
    if infos != [] {
      FindSame(infos[1..], infos'[1..], x);
    }
  }

  lemma {:induction false} ForgetsSame(infos: seq<Info>, infos': seq<Info>, ss: seq<SStmt>)
    requires SameVars(infos, infos')
    ensures Forgets(infos, ss) == Forgets(infos', ss)
    decreases ss, 0
  {
    if ss != [] {
      ForgetsBySame(infos, infos', ss[0]);
      ForgetsSame(BoundInfos(ss[0]) + infos, BoundInfos(ss[0]) + infos', ss[1..]);
    }
  }

  lemma {:induction false} ForgetsBySame(infos: seq<Info>, infos': seq<Info>, s: SStmt)
    requires SameVars(infos, infos')
    ensures ForgetsBy(infos, s) == ForgetsBy(infos', s)
    decreases s, 0
  {
    match s
    case SAssign(x, _) => FindSame(infos, infos', x);
    case SZone(body) => ForgetsSame(infos, infos', body);
    case SIfThen(_, t) => ForgetsSame(infos, infos', t);
    case SIfElse(_, t, f) =>
      ForgetsSame(infos, infos', t);
      ForgetsSame(infos, infos', f);
    case SWhile(_, body) => ForgetsSame(infos, infos', body);
    case SLoop(body) => ForgetsSame(infos, infos', body);
    case SFor(x, _, _, body) =>
      ForgetsSame([Info(x, false, TInt, None)] + infos, [Info(x, false, TInt, None)] + infos', body);
    case _ =>
  }

  lemma {:induction false} ForgotVars(flow: Flow, flow': Flow, bs: set<nat>)
    requires Forgot(flow, flow', bs) && |flow.infos| == |flow'.infos|
    ensures SameVars(flow.infos, flow'.infos)
  {
    forall i | 0 <= i < |flow.infos|
      ensures flow.infos[i].name == flow'.infos[i].name && flow.infos[i].ty == flow'.infos[i].ty
    {
      var b := |flow.infos| - 1 - i;
      assert InfoOf(flow'.infos, b) == DroppedAll(InfoOf(flow.infos, b), bs);
    }
  }

  // Checking a piece forgets exactly that

  lemma {:induction false} CheckForgets(flow: Flow, pending: seq<set<Due>>, ss: seq<SStmt>)
    requires flow.guards != [] && pending != []
    ensures Forgot(flow, CheckStmts(flow, pending, ss).flow, Forgets(flow.infos, ss))
    decreases ss, 0
  {
    hide Forgot, CheckStmt, SameVars, AcceptsExpr, AcceptsDue;
    ForgotNothing(flow);
    if ss != [] {
      var s := ss[0];
      if s.SDefer? {
        CheckForgets(flow, [pending[0] + {Due(s.deferred, |flow.infos|)}] + pending[1..], ss[1..]);
        assert BoundInfos(s) + flow.infos == flow.infos;
        assert Forgets(flow.infos, ss) == Forgets(flow.infos, ss[1..]);
      } else {
        var next := CheckStmt(flow, pending, s).flow;
        StmtForgets(flow, pending, s);
        CheckForgets(next, pending, ss[1..]);
        ForgetsSame(BoundInfos(s) + flow.infos, next.infos, ss[1..]);
        ForgotThen(flow, next, CheckStmts(next, pending, ss[1..]).flow, ForgetsBy(flow.infos, s),
          Forgets(next.infos, ss[1..]));
      }
    }
  }

  lemma ForgotNothing(flow: Flow)
    ensures ForgotAll(flow, flow, {}) && Forgot(flow, flow, {})
  {
  }

  lemma {:induction false} BlockForgets(flow: Flow, pending: seq<set<Due>>, marks: set<nat>, ss: seq<SStmt>)
    ensures ForgotAll(flow, CheckBlock(flow, pending, marks, ss).flow, Forgets(flow.infos, ss))
    decreases ss, 1
  {
    hide CheckStmts, DroppedAll, Forgets;
    CheckForgets(Enter(flow, marks), [{}] + pending, ss);
    ExitForgets(flow, marks, CheckStmts(Enter(flow, marks), [{}] + pending, ss).flow, Forgets(flow.infos, ss));
  }

  lemma {:induction false} ExitForgets(flow: Flow, marks: set<nat>, end: Flow, bs: set<nat>)
    requires Forgot(Enter(flow, marks), end, bs)
    ensures ForgotAll(flow, Exit(end, |flow.infos|), bs)
  {
    hide DroppedAll;
    var inner, flow' := Enter(flow, marks), Exit(end, |flow.infos|);
    forall b: nat | b < |flow.infos|
      ensures InfoOf(flow'.infos, b) == DroppedAll(InfoOf(flow.infos, b), bs)
    {
      assert InfoOf(flow'.infos, b) == InfoOf(end.infos, b) && InfoOf(inner.infos, b) == InfoOf(flow.infos, b);
    }
    forall i | 0 <= i < |flow.guards|
      ensures flow'.guards[i] == flow.guards[i] - bs
    {
      assert end.guards[i + 1] == inner.guards[i + 1] - bs;
    }
  }

  lemma {:induction false} DefineForgets(flow: Flow, x: string, mut: bool, ty: Type, init: Option<SExpr>)
    ensures Forgot(flow, Define(flow, x, mut, ty, init), {})
    ensures SameVars([Info(x, mut, ty, None)] + flow.infos, Define(flow, x, mut, ty, init).infos)
  {
    hide BuildProof;
    var flow' := Define(flow, x, mut, ty, init);
    assert forall b: nat :: b < |flow.infos| ==> InfoOf(flow'.infos, b) == InfoOf(flow.infos, b);
  }

  lemma {:induction false} InvalidateForgets(flow: Flow, b: nat)
    ensures ForgotAll(flow, Invalidate(flow, b), {b})
  {
    var flow' := Invalidate(flow, b);
    forall n: nat | n < |flow.infos|
      ensures InfoOf(flow'.infos, n) == DroppedAll(InfoOf(flow.infos, n), {b})
    {
      assert InfoOf(flow'.infos, n) == Dropped(InfoOf(flow.infos, n), b);
      assert b in {b};
    }
  }

  lemma {:induction false} StmtForgets(flow: Flow, pending: seq<set<Due>>, s: SStmt)
    requires flow.guards != []
    ensures Forgot(flow, CheckStmt(flow, pending, s).flow, ForgetsBy(flow.infos, s))
    ensures SameVars(BoundInfos(s) + flow.infos, CheckStmt(flow, pending, s).flow.infos)
    decreases s, 1
  {
    hide DroppedAll, BuildProof, Marks, AcceptsExpr, AcceptsAllDue, CheckBlock, Forgets;
    var flow' := CheckStmt(flow, pending, s).flow;
    match s
    case SLet(x, mut, ty, e) => DefineForgets(flow, x, mut, ty, Some(e));
    case STry(x, ty, _) => DefineForgets(flow, x, false, ty, None);
    case _ =>
      OtherForgets(flow, pending, s);
      assert BoundInfos(s) + flow.infos == flow.infos;
      ForgotVars(flow, flow', ForgetsBy(flow.infos, s));
  }

  /** Statements that bind nothing. */
  lemma {:induction false} OtherForgets(flow: Flow, pending: seq<set<Due>>, s: SStmt)
    requires flow.guards != [] && !s.SLet? && !s.STry?
    ensures Forgot(flow, CheckStmt(flow, pending, s).flow, ForgetsBy(flow.infos, s))
    decreases s, 0
  {
    hide DroppedAll, BuildProof, Marks, AcceptsExpr, AcceptsAllDue, CheckBlock, Forgets, Forgot, CheckIfElse;
    ForgotNothing(flow);
    match s
    case SAssign(x, e) =>
      var b := Find(flow.infos, x);
      if b.Some? {
        InvalidateForgets(flow, b.value);
        ForgotMark(flow, Invalidate(flow, b.value), {b.value}, {b.value});
      }
    case SZone(body) => BlockForgets(flow, [{}] + pending, {}, body);
    case SIfThen(c, t) =>
      var t' := CheckBlock(flow, pending, Marks(BuildProof(flow.infos, c, 0), true), t);
      BlockForgets(flow, pending, Marks(BuildProof(flow.infos, c, 0), true), t);
      ForgotMark(flow, t'.flow, Forgets(flow.infos, t),
        if BlockReturns(t) then Marks(BuildProof(t'.flow.infos, c, 0), false) else {});
    case SIfElse(_, _, _) => IfElseForgets(flow, pending, s);
    case SWhile(c, body) => LoopForgets(flow, pending, c, body);
    case SLoop(body) => LoopForgets(flow, pending, SBool(true), body);
    case SFor(x, _, _, body) =>
      var inner := Define(Enter(flow, {}), x, false, TInt, None);
      DefineForgets(Enter(flow, {}), x, false, TInt, None);
      LoopForgets(inner, pending, SBool(true), body);
      ForgotThen(Enter(flow, {}), inner, CheckLoop(inner, pending, SBool(true), body).flow, {},
        Forgets(inner.infos, body));
      ExitForgets(flow, {}, CheckLoop(inner, pending, SBool(true), body).flow, {} + Forgets(inner.infos, body));
      assert {} + Forgets(inner.infos, body) == Forgets(inner.infos, body);
    case _ =>
  }

  lemma {:induction false} IfElseForgets(flow: Flow, pending: seq<set<Due>>, s: SStmt)
    requires flow.guards != [] && s.SIfElse?
    ensures Forgot(flow, CheckIfElse(flow, pending, s).flow, ForgetsBy(flow.infos, s))
    decreases s, 0, 0
  {
    hide BuildProof, Marks, CheckBlock, Forgets, Assigned, DroppedAll, AcceptsExpr;
    var c, t, f := s.cond, s.thenBlock, s.elseBlock;
    var t' := CheckBlock(flow, pending, Marks(BuildProof(flow.infos, c, 0), true), t);
    BlockForgets(flow, pending, Marks(BuildProof(flow.infos, c, 0), true), t);
    var f' := CheckBlock(t'.flow, pending, Marks(BuildProof(t'.flow.infos, c, 0), false), f);
    BlockForgets(t'.flow, pending, Marks(BuildProof(t'.flow.infos, c, 0), false), f);
    ForgotVars(flow, t'.flow, Forgets(flow.infos, t));
    ForgetsSame(flow.infos, t'.flow.infos, f);
    ForgotThen(flow, t'.flow, f'.flow, Forgets(flow.infos, t), Forgets(flow.infos, f));
    var p := BuildProof(f'.flow.infos, c, 0);
    var yes := if BlockReturns(f) then Marks(p, true) else {};
    ForgotMark(flow, f'.flow, ForgetsBy(flow.infos, s), yes);
    ForgotMark(flow, Mark(f'.flow, yes), ForgetsBy(flow.infos, s), if BlockReturns(t) then Marks(p, false) else {});
  }

  lemma {:induction false} LoopForgets(flow: Flow, pending: seq<set<Due>>, c: SExpr, body: seq<SStmt>)
    ensures ForgotAll(flow, CheckLoop(flow, pending, c, body).flow, Forgets(flow.infos, body))
    ensures Forgot(flow, CheckLoop(flow, pending, c, body).flow, Forgets(flow.infos, body))
    decreases body, 2
  {
    hide BuildProof, Marks, CheckBlock, Forgets, DroppedAll, AcceptsExpr;
    BlockForgets(flow, pending, Marks(BuildProof(flow.infos, c, 0), true), body);
  }

  /** A second pass over a loop body leaves the facts as the first one did. */
  lemma {:induction false} LoopSettles(flow: Flow, pending: seq<set<Due>>, marks: set<nat>, marks': set<nat>,
      body: seq<SStmt>)
    ensures
      var first := CheckBlock(flow, pending, marks, body);
      CheckBlock(first.flow, pending, marks', body).flow == first.flow
  {
    hide CheckBlock, Forgets, DroppedAll;
    var bs := Forgets(flow.infos, body);
    var flow1 := CheckBlock(flow, pending, marks, body).flow;
    var flow2 := CheckBlock(flow1, pending, marks', body).flow;
    BlockForgets(flow, pending, marks, body);
    BlockForgets(flow1, pending, marks', body);
    ForgotVars(flow, flow1, bs);
    ForgetsSame(flow.infos, flow1.infos, body);
    forall i | 0 <= i < |flow.infos|
      ensures flow2.infos[i] == flow1.infos[i]
    {
      var b := |flow.infos| - 1 - i;
      DroppedTwice(InfoOf(flow.infos, b), bs, bs);
      assert bs + bs == bs;
      assert InfoOf(flow2.infos, b) == DroppedAll(InfoOf(flow1.infos, b), bs);
      assert InfoOf(flow1.infos, b) == DroppedAll(InfoOf(flow.infos, b), bs);
    }
    assert forall i :: 0 <= i < |flow.guards| ==> flow2.guards[i] == flow1.guards[i];
  }

  // What a branch does to results, by their last assignments

  function LastAssigned(ss: seq<SStmt>, x: string): Option<SExpr> {
    if ss == [] then None
    else
      var later := LastAssigned(ss[1..], x);
      if later.Some? then later else if ss[0].SAssign? && ss[0].id == x then Some(ss[0].rhs) else None
  }

  lemma {:induction false} NumberNames(names: seq<string>, x: string, y: string)
    requires Number(names, x).Some? && Number(names, x) == Number(names, y)
    ensures x == y
    decreases names
  {
    if names[0] != x && names[0] != y {
      NumberNames(names[1..], x, y);
    } else {
      NumberBelow(names[1..], x);
      NumberBelow(names[1..], y);
    }
  }

  lemma {:induction false} NumberBelow(names: seq<string>, x: string)
    ensures Number(names, x).Some? ==> Number(names, x).value < |names|
  {
    if names != [] {
      NumberBelow(names[1..], x);
    }
  }

  /** A branch of assignments spoils, makes ok or ruins a result by its last assignment to it. */
  lemma {:induction false} ChangedByLast(names: seq<string>, ss: seq<SStmt>, x: string)
    requires Number(names, x).Some? && forall i :: 0 <= i < |ss| ==> ss[i].SAssign?
    ensures
      var b, last, ch := Number(names, x).value, LastAssigned(ss, x), Assigned(names, ss);
      && (b in ch.touched <==> last.Some?)
      && (b in ch.spoiled <==> last.Some? && !last.value.SOk?)
      && (b in ch.made <==> last.Some? && last.value.SOk?)
      && (b in ch.ruined <==> last.Some? && last.value.SErr?)
    decreases ss
  {
    if ss != [] {
      ChangedByLast(names, ss[1..], x);
      assert Bound(ss[0]) + names == names;
      if Number(names, ss[0].id) == Number(names, x) {
        NumberNames(names, x, ss[0].id);
      }
    }
  }
}
