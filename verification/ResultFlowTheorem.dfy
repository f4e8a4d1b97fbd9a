/** The flow facts stay true along every run, so every accepted read is of an ok result. */
module ResultFlowTheorem {
  import opened Ir
  import opened Values
  import opened IrSemantics
  import opened Source
  import opened GuaranteedReturn
  import opened ResultFlow
  import opened ResultFlowProof
  import opened ResultForgets
  import opened ResultFlowFacts

  // Runs that read `.value` of ok results only

  predicate SafeEntry(c: Context, env: Env, zones: seq<Value>, tr: Trace, entry: Entry) {
    entry.Pending? ==>
      SafeExpr(c, |c.cs|, Innermost(env, entry.depth), Innermost(zones, entry.zoneDepth), tr, entry.d.e)
  }

  predicate SafeFrame(c: Context, env: Env, zones: seq<Value>, tr: Trace, frame: Frame)
    decreases frame
  {
    frame != [] ==>
      && SafeEntry(c, env, zones, tr, frame[0])
      && var t := RunEntry(c, env, zones, tr, frame[0]);
         t.Some? ==> SafeFrame(c, env, zones, t.value, frame[1..])
  }

  predicate SafeFrames(c: Context, env: Env, zones: seq<Value>, tr: Trace, frames: seq<Frame>)
    decreases frames
  {
    frames != [] ==>
      && SafeFrame(c, env, zones, tr, frames[0])
      && var t := RunFrame(c, env, zones, tr, frames[0]);
         t.Some? ==> SafeFrames(c, env, zones, t.value, frames[1..])
  }

  /** The rest of a block, with the deferred statements its exits run. */
  predicate SafeRest(c: Context, fuel: nat, env: Env, zones: seq<Value>, frames: seq<Frame>, tr: Trace, ss: seq<SStmt>)
    requires frames != []
    decreases fuel, ss, 0
  {
    if ss == [] then SafeFrame(c, env, zones, tr, frames[0])
    else
      match ss[0]
      case SDefer(d) =>
        var own := [Pending(d, |env|, |zones|)] + frames[0];
        SafeRest(c, fuel, env, zones, [own] + frames[1..], tr, ss[1..])
      case SReturn(e) => SafeReturn(c, env, zones, frames, tr, e)
      case STry(x, _, e) =>
        && SafeExpr(c, |c.cs|, env, zones, tr, e)
        && var r := EvalS(c.o, c.cs, |c.cs|, env, zones, tr, e);
           r.Val? && r.value.VResult? ==>
             if r.value.ok then
               SafeRest(c, fuel, [Binding(User(x), r.value.payload)] + env, zones, frames, r.trace, ss[1..])
             else SafeFrames(c, env, zones, r.trace, frames)
      case _ =>
        && SafeStmt(c, fuel, env, zones, frames, tr, ss[0])
        && var out := ExecS(c, fuel, env, zones, frames, tr, ss[0]);
           out.Next? ==> SafeRest(c, fuel, out.env, zones, frames, out.trace, ss[1..])
  }

  predicate SafeReturn(c: Context, env: Env, zones: seq<Value>, frames: seq<Frame>, tr: Trace, e: Option<SExpr>) {
    && SafeFrames(c, env, zones, tr, frames)
    && var t := RunFrames(c, env, zones, tr, frames);
       e.Some? && t.Some? ==> SafeExpr(c, |c.cs|, env, zones, t.value, e.value)
  }

  predicate SafeInner(c: Context, fuel: nat, env: Env, zones: seq<Value>, frames: seq<Frame>, tr: Trace, ss: seq<SStmt>)
    decreases fuel, ss, 1
  {
    SafeRest(c, fuel, env, zones, [[]] + frames, tr, ss)
  }

  predicate SafeStmt(c: Context, fuel: nat, env: Env, zones: seq<Value>, frames: seq<Frame>, tr: Trace, s: SStmt)
    decreases fuel, s, 0
  {
    match s
    case SLet(_, _, _, e) => SafeExpr(c, |c.cs|, env, zones, tr, e)
    case SAssign(_, e) => SafeExpr(c, |c.cs|, env, zones, tr, e)
    case SExprStmt(e) => SafeExpr(c, |c.cs|, env, zones, tr, e)
    case SFree(e) => SafeExpr(c, |c.cs|, env, zones, tr, e)
    case SZone(body) =>
      var h := Act(c.o, tr, AZoneEnter);
      SafeInner(c, fuel, env, [h.value] + zones, [[Release(h.value)]] + frames, h.trace, body)
    case SIfThen(e, t) =>
      && SafeExpr(c, |c.cs|, env, zones, tr, e)
      && var r := EvalS(c.o, c.cs, |c.cs|, env, zones, tr, e);
         r.Val? && r.value == VBool(true) ==> SafeInner(c, fuel, env, zones, frames, r.trace, t)
    case SIfElse(e, t, f) =>
      && SafeExpr(c, |c.cs|, env, zones, tr, e)
      && var r := EvalS(c.o, c.cs, |c.cs|, env, zones, tr, e);
         r.Val? && r.value.VBool? ==> SafeInner(c, fuel, env, zones, frames, r.trace, if r.value.b then t else f)
    case SWhile(e, body) => SafeWhile(c, fuel, env, zones, frames, tr, e, body)
    case SLoop(body) => SafeWhile(c, fuel, env, zones, frames, tr, SBool(true), body)
    case SFor(x, a, b, body) =>
      && SafeExpr(c, |c.cs|, env, zones, tr, a)
      && var lo := EvalS(c.o, c.cs, |c.cs|, env, zones, tr, a);
         lo.Val? ==>
           && SafeExpr(c, |c.cs|, env, zones, lo.trace, b)
           && var hi := EvalS(c.o, c.cs, |c.cs|, env, zones, lo.trace, b);
              hi.Val? && hi.value.VInt? ==>
                SafeFor(c, fuel, [Binding(User(x), lo.value)] + env, zones, frames, hi.trace, hi.value.i, body)
    case _ => true
  }

  /** Turn by turn. */
  predicate SafeWhile(c: Context, fuel: nat, env: Env, zones: seq<Value>, frames: seq<Frame>, tr: Trace, e: SExpr,
      body: seq<SStmt>)
    decreases fuel, body, 2
  {
    fuel != 0 ==>
      && SafeExpr(c, |c.cs|, env, zones, tr, e)
      && var r := EvalS(c.o, c.cs, |c.cs|, env, zones, tr, e);
         r.Val? && r.value == VBool(true) ==>
           && SafeInner(c, fuel, env, zones, frames, r.trace, body)
           && var out := ExecInner(c, fuel, env, zones, frames, r.trace, body);
              out.Next? ==> SafeWhile(c, fuel - 1, out.env, zones, frames, out.trace, e, body)
  }

  predicate SafeFor(c: Context, fuel: nat, env: Env, zones: seq<Value>, frames: seq<Frame>, tr: Trace, end: int,
      body: seq<SStmt>)
    decreases fuel, body, 2
  {
    fuel != 0 && env != [] && env[0].value.VInt? && env[0].value.i < end ==>
      && SafeInner(c, fuel, env, zones, frames, tr, body)
      && var out := ExecInner(c, fuel, env, zones, frames, tr, body);
         out.Next? && out.env != [] && out.env[0].value.VInt? && InInt64(out.env[0].value.i + 1) ==>
           var next := Binding(out.env[0].name, VInt(out.env[0].value.i + 1));
           SafeFor(c, fuel - 1, [next] + out.env[1..], zones, frames, out.trace, end, body)
  }

  // Pending deferred statements

  predicate CoversFrame(due: set<Due>, frame: Frame) {
    forall e :: e in frame && e.Pending? ==> Due(e.d, e.depth) in due
  }

  /** The checker knows of every deferred statement that is pending. */
  predicate Covers(pending: seq<set<Due>>, frames: seq<Frame>) {
    |pending| == |frames| && forall i :: 0 <= i < |frames| ==> CoversFrame(pending[i], frames[i])
  }

  lemma {:induction false} FrameIsSafe(c: Context, flow: Flow, due: set<Due>, env: Env, zones: seq<Value>, tr: Trace,
      frame: Frame)
    requires True(flow, env) && ConstsAccepted(c.cs) && AcceptsDue(flow, due) && CoversFrame(due, frame)
    ensures SafeFrame(c, env, zones, tr, frame)
    decreases frame
  {
    hide True, SafeExpr, AcceptsExpr, ConstsAccepted, RunEntry, Trim;
    if frame != [] {
      var entry := frame[0];
      if entry.Pending? {
        assert Due(entry.d, entry.depth) in due;
        TrueTrim(flow, env, entry.depth);
        AcceptedIsSafe(c, |c.cs|, Trim(flow, entry.depth), Innermost(env, entry.depth),
          Innermost(zones, entry.zoneDepth), tr, entry.d.e);
      }
      var t := RunEntry(c, env, zones, tr, entry);
      if t.Some? {
        FrameIsSafe(c, flow, due, env, zones, t.value, frame[1..]);
      }
    }
  }

  lemma {:induction false} FramesAreSafe(c: Context, flow: Flow, pending: seq<set<Due>>, env: Env, zones: seq<Value>,
      tr: Trace, frames: seq<Frame>)
    requires True(flow, env) && ConstsAccepted(c.cs) && AcceptsAllDue(flow, pending) && Covers(pending, frames)
    ensures SafeFrames(c, env, zones, tr, frames)
    decreases frames
  {
    hide True, ConstsAccepted, RunFrame, SafeFrame, AcceptsDue, CoversFrame;
    if frames != [] {
      assert CoversFrame(pending[0], frames[0]) && AcceptsDue(flow, pending[0]);
      FrameIsSafe(c, flow, pending[0], env, zones, tr, frames[0]);
      var t := RunFrame(c, env, zones, tr, frames[0]);
      if t.Some? {
        FramesAreSafe(c, flow, pending[1..], env, zones, t.value, frames[1..]);
      }
    }
  }

  lemma CoversLength(pending: seq<set<Due>>, frames: seq<Frame>)
    requires Covers(pending, frames)
    ensures |pending| == |frames|
  {
  }

  lemma CoversDefer(pending: seq<set<Due>>, frames: seq<Frame>, d: Deferred, n: nat, zoneDepth: nat)
    requires Covers(pending, frames) && frames != []
    ensures Covers([pending[0] + {Due(d, n)}] + pending[1..], [[Pending(d, n, zoneDepth)] + frames[0]] + frames[1..])
  {
    assert CoversFrame(pending[0], frames[0]);
  }

  lemma CoversInner(pending: seq<set<Due>>, frames: seq<Frame>, frame: Frame)
    requires Covers(pending, frames) && forall e :: e in frame ==> e.Release?
    ensures Covers([{}] + pending, [frame] + frames)
  {
  }

  // The facts along a run

  lemma {:induction false} StmtNames(flow: Flow, pending: seq<set<Due>>, s: SStmt)
    requires flow.guards != []
    ensures NamesIn(CheckStmt(flow, pending, s).flow.infos) == Bound(s) + NamesIn(flow.infos)
  {
    hide CheckStmt;
    StmtForgets(flow, pending, s);
    NamesSame(BoundInfos(s) + flow.infos, CheckStmt(flow, pending, s).flow.infos);
    assert (BoundInfos(s) + flow.infos)[|BoundInfos(s)|..] == flow.infos;
    if BoundInfos(s) == [] {
      assert BoundInfos(s) + flow.infos == flow.infos;
    }
  }

  /** After a piece that fell through: the facts hold and results changed as announced. */
  ghost predicate Kept(flow: Flow, env: Env, out: Outcome, ch: Change) {
    out.Next? ==> True(flow, out.env) && Unchanged(env, out.env, ch)
  }

  /** Every read of `.value` that the checker accepts is of an ok result, and what it knows
      after the block is true, if its facts are stable. */
  lemma {:induction false} RestFlow(c: Context, fuel: nat, flow: Flow, pending: seq<set<Due>>, env: Env,
      zones: seq<Value>, frames: seq<Frame>, tr: Trace, ss: seq<SStmt>)
    requires frames != [] && flow.guards != [] && True(flow, env) && ConstsAccepted(c.cs) && Covers(pending, frames)
    requires CheckStmts(flow, pending, ss).accepted && CheckStmts(flow, pending, ss).stable
    ensures SafeRest(c, fuel, env, zones, frames, tr, ss)
    ensures Kept(CheckStmts(flow, pending, ss).flow, env, ExecRest(c, fuel, env, zones, frames, tr, ss),
        Assigned(NamesIn(flow.infos), ss))
    decreases fuel, ss, 1
  {
    hide True, EvalS, SafeExpr, ConstsAccepted, RunFrames, RunFrame, SafeFrame, AcceptsExpr, AssignedBy, CheckStmt,
      ExecS, SafeStmt, Unchanged, AcceptsDue, CoversFrame, SafeReturn, ExecReturn;
    if ss == [] {
      UnchangedSelf(env, Assigned(NamesIn(flow.infos), ss));
      FrameIsSafe(c, flow, pending[0], env, zones, tr, frames[0]);
    } else {
      var s := ss[0];
      if s.SDefer? {
        DeferFlow(c, fuel, flow, pending, env, zones, frames, tr, ss);
      } else {
        StepFlow(c, fuel, flow, pending, env, zones, frames, tr, ss);
      }
    }
  }

  lemma {:induction false} DeferFlow(c: Context, fuel: nat, flow: Flow, pending: seq<set<Due>>, env: Env,
      zones: seq<Value>, frames: seq<Frame>, tr: Trace, ss: seq<SStmt>)
    requires frames != [] && flow.guards != [] && True(flow, env) && ConstsAccepted(c.cs) && Covers(pending, frames)
    requires ss != [] && ss[0].SDefer?
    requires CheckStmts(flow, pending, ss).accepted && CheckStmts(flow, pending, ss).stable
    ensures SafeRest(c, fuel, env, zones, frames, tr, ss)
    ensures Kept(CheckStmts(flow, pending, ss).flow, env, ExecRest(c, fuel, env, zones, frames, tr, ss),
        Assigned(NamesIn(flow.infos), ss))
    decreases fuel, ss, 0
  {
    hide True, Unchanged, AcceptsExpr, Covers, EvalS, SafeExpr, ConstsAccepted, RunFrame, RunFrames, SafeFrame,
      SafeFrames, CheckStmt, ExecS, SafeStmt, SafeReturn, ExecReturn, AcceptsDue, NamesIn;
    var d := ss[0].deferred;
    TrueLength(flow, env);
    CoversLength(pending, frames);
    CoversDefer(pending, frames, d, |env|, |zones|);
    var pending' := [pending[0] + {Due(d, |env|)}] + pending[1..];
    var frames' := [[Pending(d, |env|, |zones|)] + frames[0]] + frames[1..];
    RestFlow(c, fuel, flow, pending', env, zones, frames', tr, ss[1..]);
    var names := NamesIn(flow.infos);
    assert Bound(ss[0]) + names == names;
    assert Then(NO_CHANGE, Assigned(names, ss[1..])) == Assigned(names, ss[1..]);
  }

  /** Any other statement and what follows it. */
  lemma {:induction false} StepFlow(c: Context, fuel: nat, flow: Flow, pending: seq<set<Due>>, env: Env,
      zones: seq<Value>, frames: seq<Frame>, tr: Trace, ss: seq<SStmt>)
    requires frames != [] && flow.guards != [] && True(flow, env) && ConstsAccepted(c.cs) && Covers(pending, frames)
    requires ss != [] && !ss[0].SDefer?
    requires CheckStmts(flow, pending, ss).accepted && CheckStmts(flow, pending, ss).stable
    ensures SafeRest(c, fuel, env, zones, frames, tr, ss)
    ensures Kept(CheckStmts(flow, pending, ss).flow, env, ExecRest(c, fuel, env, zones, frames, tr, ss),
        Assigned(NamesIn(flow.infos), ss))
    decreases fuel, ss, 0
  {
    hide True, EvalS, SafeExpr, ConstsAccepted, RunFrames, RunFrame, SafeFrames, AcceptsExpr, AssignedBy, CheckStmt,
      ExecS, SafeStmt, Unchanged, AcceptsDue, Covers, SafeReturn;
    var s, next := ss[0], CheckStmt(flow, pending, ss[0]);
    StmtNames(flow, pending, s);
    CoversLength(pending, frames);
    if s.SReturn? {
      ReturnFlow(c, flow, pending, env, zones, frames, tr, s);
    } else if s.STry? {
      TryFlow(c, flow, pending, env, zones, frames, tr, s);
      var r := EvalS(c.o, c.cs, |c.cs|, env, zones, tr, s.init);
      if r.Val? && r.value.VResult? && r.value.ok {
        var env1 := [Binding(User(s.id), r.value.payload)] + env;
        RestFlow(c, fuel, next.flow, pending, env1, zones, frames, r.trace, ss[1..]);
        KeptThen(next.flow, env, env1, ExecRest(c, fuel, env1, zones, frames, r.trace, ss[1..]),
          CheckStmts(next.flow, pending, ss[1..]).flow, AssignedBy(NamesIn(flow.infos), s),
          Assigned(NamesIn(next.flow.infos), ss[1..]));
      }
    } else {
      StmtFlow(c, fuel, flow, pending, env, zones, frames, tr, s);
      var out := ExecS(c, fuel, env, zones, frames, tr, s);
      if out.Next? {
        RestFlow(c, fuel, next.flow, pending, out.env, zones, frames, out.trace, ss[1..]);
        KeptThen(next.flow, env, out.env, ExecRest(c, fuel, out.env, zones, frames, out.trace, ss[1..]),
          CheckStmts(next.flow, pending, ss[1..]).flow, AssignedBy(NamesIn(flow.infos), s),
          Assigned(NamesIn(next.flow.infos), ss[1..]));
      }
    }
  }

  lemma {:induction false} KeptThen(flow: Flow, env: Env, env1: Env, out: Outcome, flow': Flow, ch: Change, ch': Change)
    requires Unchanged(env, env1, ch) && Kept(flow', env1, out, ch')
    ensures Kept(flow', env, out, Then(ch, ch'))
  {
    hide True, Unchanged;
    if out.Next? {
      UnchangedThen(env, env1, out.env, ch, ch');
    }
  }

  lemma {:induction false} ReturnFlow(c: Context, flow: Flow, pending: seq<set<Due>>, env: Env, zones: seq<Value>,
      frames: seq<Frame>, tr: Trace, s: SStmt)
    requires s.SReturn? && flow.guards != [] && True(flow, env) && ConstsAccepted(c.cs) && Covers(pending, frames)
    requires CheckStmt(flow, pending, s).accepted && CheckStmt(flow, pending, s).stable
    ensures SafeReturn(c, env, zones, frames, tr, s.result)
  {
    hide True, SafeExpr, ConstsAccepted, AcceptsExpr, RunFrames, SafeFrames, Covers, AcceptsDue;
    FramesAreSafe(c, flow, pending, env, zones, tr, frames);
    var t := RunFrames(c, env, zones, tr, frames);
    if s.result.Some? && t.Some? {
      AcceptedIsSafe(c, |c.cs|, flow, env, zones, t.value, s.result.value);
    }
  }

  lemma {:induction false} TryFlow(c: Context, flow: Flow, pending: seq<set<Due>>, env: Env, zones: seq<Value>,
      frames: seq<Frame>, tr: Trace, s: SStmt)
    requires s.STry? && flow.guards != [] && True(flow, env) && ConstsAccepted(c.cs) && Covers(pending, frames)
    requires CheckStmt(flow, pending, s).accepted && CheckStmt(flow, pending, s).stable
    ensures SafeExpr(c, |c.cs|, env, zones, tr, s.init)
    ensures
      var r := EvalS(c.o, c.cs, |c.cs|, env, zones, tr, s.init);
      r.Val? && r.value.VResult? ==>
        var env1 := [Binding(User(s.id), r.value.payload)] + env;
        && True(CheckStmt(flow, pending, s).flow, env1) && Unchanged(env, env1, AssignedBy(NamesIn(flow.infos), s))
        && SafeFrames(c, env, zones, r.trace, frames)
  {
    hide True, SafeExpr, ConstsAccepted, AcceptsExpr, EvalS, Unchanged, SafeFrames, Covers, AcceptsDue;
    AcceptedIsSafe(c, |c.cs|, flow, env, zones, tr, s.init);
    var r := EvalS(c.o, c.cs, |c.cs|, env, zones, tr, s.init);
    if r.Val? && r.value.VResult? {
      TruePush(flow, env, Info(s.id, false, s.ty, None), r.value.payload);
      UnchangedPush(env, Binding(User(s.id), r.value.payload), AssignedBy(NamesIn(flow.infos), s));
      FramesAreSafe(c, flow, pending, env, zones, r.trace, frames);
    }
  }

  lemma {:induction false} BlockFlow(c: Context, fuel: nat, flow: Flow, pending: seq<set<Due>>, marks: set<nat>,
      env: Env, zones: seq<Value>, frames: seq<Frame>, tr: Trace, ss: seq<SStmt>)
    requires True(flow, env) && GuardHolds(flow.infos, env, marks) && ConstsAccepted(c.cs) && Covers(pending, frames)
    requires CheckBlock(flow, pending, marks, ss).accepted && CheckBlock(flow, pending, marks, ss).stable
    ensures SafeInner(c, fuel, env, zones, frames, tr, ss)
    ensures Kept(CheckBlock(flow, pending, marks, ss).flow, env, ExecInner(c, fuel, env, zones, frames, tr, ss),
        Assigned(NamesIn(flow.infos), ss))
    decreases fuel, ss, 2
  {
    hide True, ConstsAccepted, Assigned, CheckStmts, SafeRest, ExecRest, Unchanged, GuardHolds, Covers, Forgot,
      Forgets, Shrinks;
    TrueEnter(flow, env, marks);
    CoversInner(pending, frames, []);
    RestFlow(c, fuel, Enter(flow, marks), [{}] + pending, env, zones, [[]] + frames, tr, ss);
    var out := ExecRest(c, fuel, env, zones, [[]] + frames, tr, ss);
    if out.Next? {
      var flow1 := CheckStmts(Enter(flow, marks), [{}] + pending, ss).flow;
      CheckForgets(Enter(flow, marks), [{}] + pending, ss);
      ForgotShrinks(Enter(flow, marks), flow1, Forgets(flow.infos, ss));
      TrueLength(flow, env);
      UnchangedLength(env, out.env, Assigned(NamesIn(flow.infos), ss));
      TrueExit(flow, marks, flow1, env, out.env);
      UnchangedLeave(env, out.env, Assigned(NamesIn(flow.infos), ss));
    }
  }

  lemma TrueLength(flow: Flow, env: Env)
    requires True(flow, env)
    ensures |flow.infos| == |env|
  {
  }

  lemma UnchangedLength(env: Env, env': Env, ch: Change)
    requires Unchanged(env, env', ch)
    ensures |env| <= |env'|
  {
  }

  lemma {:induction false} StmtFlow(c: Context, fuel: nat, flow: Flow, pending: seq<set<Due>>, env: Env,
      zones: seq<Value>, frames: seq<Frame>, tr: Trace, s: SStmt)
    requires flow.guards != [] && True(flow, env) && ConstsAccepted(c.cs) && Covers(pending, frames)
    requires !s.SReturn? && !s.STry? && !s.SDefer?
    requires CheckStmt(flow, pending, s).accepted && CheckStmt(flow, pending, s).stable
    ensures SafeStmt(c, fuel, env, zones, frames, tr, s)
    ensures Kept(CheckStmt(flow, pending, s).flow, env, ExecS(c, fuel, env, zones, frames, tr, s),
        AssignedBy(NamesIn(flow.infos), s))
    decreases fuel, s, 1
  {
    hide Covers, True, EvalS, SafeExpr, ConstsAccepted, AcceptsExpr, Unchanged, CheckBlock, ExecInner, SafeInner;
    match s
    case SIfThen(_, _) => IfThenFlow(c, fuel, flow, pending, env, zones, frames, tr, s);
    case SIfElse(_, _, _) => IfElseFlow(c, fuel, flow, pending, env, zones, frames, tr, s);
    case SZone(body) =>
      var h := Act(c.o, tr, AZoneEnter);
      NoGuards(flow.infos, env);
      CoversInner(pending, frames, [Release(h.value)]);
      BlockFlow(c, fuel, flow, [{}] + pending, {}, env, [h.value] + zones, [[Release(h.value)]] + frames, h.trace,
        body);
    case SWhile(e, body) => LoopFlow(c, fuel, flow, pending, env, zones, frames, tr, e, body);
    case SLoop(body) => LoopFlow(c, fuel, flow, pending, env, zones, frames, tr, SBool(true), body);
    case SFor(_, _, _, _) => ForStmtFlow(c, fuel, flow, pending, env, zones, frames, tr, s);
    case SAssign(x, e) => AssignFlow(c, fuel, flow, pending, env, zones, frames, tr, s);
    case SLet(x, mut, ty, e) =>
      AcceptedIsSafe(c, |c.cs|, flow, env, zones, tr, e);
      var r := EvalS(c.o, c.cs, |c.cs|, env, zones, tr, e);
      if r.Val? {
        TrueLet(c, flow, env, zones, tr, x, mut, ty, e);
        UnchangedPush(env, Binding(User(x), r.value), NO_CHANGE);
      }
    case SExprStmt(e) =>
      AcceptedIsSafe(c, |c.cs|, flow, env, zones, tr, e);
      UnchangedSelf(env, NO_CHANGE);
    case SFree(e) =>
      AcceptedIsSafe(c, |c.cs|, flow, env, zones, tr, e);
      UnchangedSelf(env, NO_CHANGE);
  }

  /** A loop whose body keeps the facts its head has. */
  lemma {:induction false} WhileFlow(c: Context, fuel: nat, flow: Flow, pending: seq<set<Due>>, env: Env,
      zones: seq<Value>, frames: seq<Frame>, tr: Trace, e: SExpr, body: seq<SStmt>)
    requires True(flow, env) && ConstsAccepted(c.cs) && Covers(pending, frames) && AcceptsExpr(flow, e)
    requires
      var again := CheckBlock(flow, pending, Marks(BuildProof(flow.infos, e, 0), true), body);
      again.accepted && again.stable && again.flow == flow
    ensures SafeWhile(c, fuel, env, zones, frames, tr, e, body)
    ensures Kept(flow, env, ExecSWhile(c, fuel, env, zones, frames, tr, e, body),
        Either(Assigned(NamesIn(flow.infos), body), NO_CHANGE))
    decreases fuel, body, 3
  {
    hide True, EvalS, SafeExpr, ConstsAccepted, AcceptsExpr, Unchanged, CheckBlock, ExecInner, SafeInner, Covers,
      BuildProof, Marks, GuardHolds, Assigned;
    if fuel != 0 {
      AcceptedIsSafe(c, |c.cs|, flow, env, zones, tr, e);
      var r := EvalS(c.o, c.cs, |c.cs|, env, zones, tr, e);
      var ch := Either(Assigned(NamesIn(flow.infos), body), NO_CHANGE);
      UnchangedSelf(env, ch);
      if r.Val? && r.value == VBool(true) {
        var marks := Marks(BuildProof(flow.infos, e, 0), true);
        TrueAliases(flow, env);
        BranchMarksHold(c, |c.cs|, flow.infos, env, zones, tr, e);
        BlockFlow(c, fuel, flow, pending, marks, env, zones, frames, r.trace, body);
        var out := ExecInner(c, fuel, env, zones, frames, r.trace, body);
        if out.Next? {
          UnchangedMore(env, out.env, Assigned(NamesIn(flow.infos), body), ch);
          WhileFlow(c, fuel - 1, flow, pending, out.env, zones, frames, out.trace, e, body);
          KeptThen(flow, env, out.env, ExecSWhile(c, fuel - 1, out.env, zones, frames, out.trace, e, body), flow, ch,
            ch);
          assert Then(ch, ch) == ch;
        }
      }
    }
  }

  lemma TrueAliases(flow: Flow, env: Env)
    requires True(flow, env)
    ensures AliasesHold(flow.infos, env)
  {
  }

  /** The facts at the head of every turn but the first are those the first pass ends with. */
  lemma {:induction false} LoopFlow(c: Context, fuel: nat, flow: Flow, pending: seq<set<Due>>, env: Env,
      zones: seq<Value>, frames: seq<Frame>, tr: Trace, e: SExpr, body: seq<SStmt>)
    requires True(flow, env) && ConstsAccepted(c.cs) && Covers(pending, frames)
    requires CheckLoop(flow, pending, e, body).stable
    ensures SafeWhile(c, fuel, env, zones, frames, tr, e, body)
    ensures Kept(CheckLoop(flow, pending, e, body).flow, env, ExecSWhile(c, fuel, env, zones, frames, tr, e, body),
        Either(Assigned(NamesIn(flow.infos), body), NO_CHANGE))
    decreases fuel, body, 4
  {
    hide True, ConstsAccepted, AcceptsExpr, CheckBlock, Covers, BuildProof, Marks, Assigned, SafeWhile, ExecSWhile,
      Unchanged, Weaker;
    LoopHead(flow, pending, env, e, body);
    WhileFlow(c, fuel, CheckLoop(flow, pending, e, body).flow, pending, env, zones, frames, tr, e, body);
  }

  lemma {:induction false} LoopHead(flow: Flow, pending: seq<set<Due>>, env: Env, e: SExpr, body: seq<SStmt>)
    requires True(flow, env)
    ensures
      var head := CheckLoop(flow, pending, e, body).flow;
      && True(head, env) && NamesIn(head.infos) == NamesIn(flow.infos) && Weaker(flow, head)
      && CheckBlock(head, pending, Marks(BuildProof(head.infos, e, 0), true), body).flow == head
  {
    hide True, AcceptsExpr, CheckBlock, BuildProof, Marks, Weaker;
    var marks := Marks(BuildProof(flow.infos, e, 0), true);
    var head := CheckLoop(flow, pending, e, body).flow;
    BlockWeakens(flow, pending, marks, body);
    TrueWeaker(flow, head, env);
    WeakerNames(flow, head);
    LoopSettles(flow, pending, marks, Marks(BuildProof(head.infos, e, 0), true), body);
  }

  /** The turns of a `for`, whose loop variable is the innermost binding. */
  lemma {:induction false} ForFlow(c: Context, fuel: nat, flow: Flow, pending: seq<set<Due>>, env: Env,
      zones: seq<Value>, frames: seq<Frame>, tr: Trace, end: int, body: seq<SStmt>)
    requires True(flow, env) && ConstsAccepted(c.cs) && Covers(pending, frames)
    requires flow.infos != [] && flow.infos[0].proof.None? && !flow.infos[0].ty.TResult?
    requires
      var again := CheckBlock(flow, pending, {}, body);
      again.accepted && again.stable && again.flow == flow
    ensures SafeFor(c, fuel, env, zones, frames, tr, end, body)
    ensures Kept(flow, env, ExecSFor(c, fuel, env, zones, frames, tr, end, body),
        Either(Assigned(NamesIn(flow.infos), body), NO_CHANGE))
    decreases fuel, body, 3
  {
    hide True, ConstsAccepted, Unchanged, CheckBlock, ExecInner, SafeInner, Covers, GuardHolds, Assigned;
    var ch := Either(Assigned(NamesIn(flow.infos), body), NO_CHANGE);
    UnchangedSelf(env, ch);
    TrueLength(flow, env);
    if fuel != 0 && env[0].value.VInt? && env[0].value.i < end {
      NoGuards(flow.infos, env);
      BlockFlow(c, fuel, flow, pending, {}, env, zones, frames, tr, body);
      var out := ExecInner(c, fuel, env, zones, frames, tr, body);
      if out.Next? {
        TrueLength(flow, out.env);
        UnchangedMore(env, out.env, Assigned(NamesIn(flow.infos), body), ch);
        if out.env[0].value.VInt? && InInt64(out.env[0].value.i + 1) {
          var v := out.env[0].value.i + 1;
          var env1 := [Binding(out.env[0].name, VInt(v))] + out.env[1..];
          TrueCount(flow, out.env, VInt(v));
          UnchangedCount(env, out.env, v, ch);
          ForFlow(c, fuel - 1, flow, pending, env1, zones, frames, out.trace, end, body);
          KeptThen(flow, env, env1, ExecSFor(c, fuel - 1, env1, zones, frames, out.trace, end, body), flow, ch, ch);
          assert Then(ch, ch) == ch;
        }
      }
    }
  }

  lemma {:induction false} ForStmtFlow(c: Context, fuel: nat, flow: Flow, pending: seq<set<Due>>, env: Env,
      zones: seq<Value>, frames: seq<Frame>, tr: Trace, s: SStmt)
    requires s.SFor? && flow.guards != [] && True(flow, env) && ConstsAccepted(c.cs) && Covers(pending, frames)
    requires CheckStmt(flow, pending, s).accepted && CheckStmt(flow, pending, s).stable
    ensures SafeStmt(c, fuel, env, zones, frames, tr, s)
    ensures Kept(CheckStmt(flow, pending, s).flow, env, ExecS(c, fuel, env, zones, frames, tr, s),
        AssignedBy(NamesIn(flow.infos), s))
    decreases fuel, s, 0
  {
    hide True, EvalS, SafeExpr, ConstsAccepted, AcceptsExpr, Unchanged, CheckBlock, Covers, GuardHolds, Assigned,
      SafeFor, ExecSFor, Weaker, CheckLoop;
    AcceptedIsSafe(c, |c.cs|, flow, env, zones, tr, s.start);
    var lo := EvalS(c.o, c.cs, |c.cs|, env, zones, tr, s.start);
    if lo.Val? {
      AcceptedIsSafe(c, |c.cs|, flow, env, zones, lo.trace, s.end);
      var hi := EvalS(c.o, c.cs, |c.cs|, env, zones, lo.trace, s.end);
      if hi.Val? && hi.value.VInt? {
        TurnsFlow(c, fuel, flow, pending, env, zones, frames, hi.trace, s, lo.value, hi.value.i);
      }
    }
  }

  lemma {:induction false} TurnsFlow(c: Context, fuel: nat, flow: Flow, pending: seq<set<Due>>, env: Env,
      zones: seq<Value>, frames: seq<Frame>, tr: Trace, s: SStmt, lo: Value, hi: int)
    requires s.SFor? && flow.guards != [] && True(flow, env) && ConstsAccepted(c.cs) && Covers(pending, frames)
    requires CheckStmt(flow, pending, s).stable
    ensures SafeFor(c, fuel, [Binding(User(s.id), lo)] + env, zones, frames, tr, hi, s.body)
    ensures
      var out := ExecSFor(c, fuel, [Binding(User(s.id), lo)] + env, zones, frames, tr, hi, s.body);
      Kept(CheckStmt(flow, pending, s).flow, env, Leave(|env|, out), AssignedBy(NamesIn(flow.infos), s))
    decreases fuel, s.body, 5
  {
    hide True, ConstsAccepted, AcceptsExpr, Unchanged, CheckBlock, Covers, GuardHolds, Assigned, SafeFor, ExecSFor,
      Weaker, Shrinks, Forgot;
    var inner := Define(Enter(flow, {}), s.id, false, TInt, None);
    var env1 := [Binding(User(s.id), lo)] + env;
    var head := CheckLoop(inner, pending, SBool(true), s.body).flow;
    NoGuards(flow.infos, env);
    TrueEnter(flow, env, {});
    TruePush(Enter(flow, {}), env, Info(s.id, false, TInt, None), lo);
    LoopHead(inner, pending, env1, SBool(true), s.body);
    HeadVariable(inner, head);
    ForFlow(c, fuel, head, pending, env1, zones, frames, tr, hi, s.body);
    var out := ExecSFor(c, fuel, env1, zones, frames, tr, hi, s.body);
    assert NamesIn(inner.infos) == [s.id] + NamesIn(flow.infos) by { assert inner.infos[1..] == flow.infos; }
    var ch := AssignedBy(NamesIn(flow.infos), s);
    if out.Next? {
      UnchangedPush(env, Binding(User(s.id), lo), NO_CHANGE);
      UnchangedThen(env, env1, out.env, NO_CHANGE, ch);
      assert Then(NO_CHANGE, ch) == ch;
      DefineForgets(Enter(flow, {}), s.id, false, TInt, None);
      ForgotShrinks(Enter(flow, {}), inner, {});
      WeakerShrinks(inner, head);
      ShrinksThen(Enter(flow, {}), inner, head);
      TrueLength(flow, env);
      UnchangedLength(env, out.env, ch);
      TrueExit(flow, {}, head, env, out.env);
      UnchangedLeave(env, out.env, ch);
    }
  }

  lemma WeakerShrinks(flow: Flow, flow': Flow)
    requires Weaker(flow, flow')
    ensures Shrinks(flow, flow')
  {
  }

  lemma HeadVariable(flow: Flow, flow': Flow)
    requires Weaker(flow, flow') && flow.infos != [] && flow.infos[0].proof.None?
    ensures flow'.infos != [] && flow'.infos[0] == flow.infos[0]
  {
    assert LessKnown(InfoOf(flow.infos, |flow.infos| - 1), InfoOf(flow'.infos, |flow.infos| - 1));
  }

  lemma NoGuards(infos: seq<Info>, env: Env)
    ensures GuardHolds(infos, env, {})
  {
  }

  lemma {:induction false} AssignFlow(c: Context, fuel: nat, flow: Flow, pending: seq<set<Due>>, env: Env,
      zones: seq<Value>, frames: seq<Frame>, tr: Trace, s: SStmt)
    requires s.SAssign? && flow.guards != [] && True(flow, env) && ConstsAccepted(c.cs) && Covers(pending, frames)
    requires CheckStmt(flow, pending, s).accepted
    ensures SafeStmt(c, fuel, env, zones, frames, tr, s)
    ensures Kept(CheckStmt(flow, pending, s).flow, env, ExecS(c, fuel, env, zones, frames, tr, s),
        AssignedBy(NamesIn(flow.infos), s))
  {
    hide Covers, True, SafeExpr, ConstsAccepted, AcceptsExpr, Unchanged, Update;
    AcceptedIsSafe(c, |c.cs|, flow, env, zones, tr, s.rhs);
    var r := EvalS(c.o, c.cs, |c.cs|, env, zones, tr, s.rhs);
    NumberIsFind(flow.infos, s.id);
    var b := Find(flow.infos, s.id).value;
    if r.Val? {
      var env' := Update(env, User(s.id), r.value);
      TrueAssign(flow, env, s.id, r.value);
      TrueParts(flow, env);
      UpdateNumber(flow.infos, env, s.id, r.value);
      AssignedOnly(env, b, Binding(User(s.id), r.value), s.rhs);
      if InfoOf(flow.infos, b).ty.TResult? && s.rhs.SOk? {
        AssignedOk(flow, env, b, Binding(User(s.id), r.value));
        TrueMark(Invalidate(flow, b), env', {b});
      }
    }
  }

  lemma TrueParts(flow: Flow, env: Env)
    requires True(flow, env)
    ensures Named(flow.infos, env)
  {
  }

  lemma AssignedOnly(env: Env, b: nat, x: Binding, e: SExpr)
    requires b < |env| && (e.SOk? ==> x.value.VResult? && x.value.ok) && (e.SErr? ==> x.value.VResult? && !x.value.ok)
    ensures Unchanged(env, env[|env| - 1 - b := x], Assignment(b, e))
  {
    var env' := env[|env| - 1 - b := x];
    assert forall n: nat :: n < |env| && n != b ==> Of(env', n) == Of(env, n);
  }

  lemma {:induction false} AssignedOk(flow: Flow, env: Env, b: nat, x: Binding)
    requires b < |flow.infos| == |env| && InfoOf(flow.infos, b).ty.TResult? && x.value.VResult? && x.value.ok
    ensures GuardHolds(Invalidate(flow, b).infos, env[|env| - 1 - b := x], {b})
  {
    assert InfoOf(Invalidate(flow, b).infos, b) == Dropped(InfoOf(flow.infos, b), b);
  }

  lemma {:induction false} IfThenFlow(c: Context, fuel: nat, flow: Flow, pending: seq<set<Due>>, env: Env,
      zones: seq<Value>, frames: seq<Frame>, tr: Trace, s: SStmt)
    requires s.SIfThen? && flow.guards != [] && True(flow, env) && ConstsAccepted(c.cs) && Covers(pending, frames)
    requires CheckStmt(flow, pending, s).accepted && CheckStmt(flow, pending, s).stable
    ensures SafeStmt(c, fuel, env, zones, frames, tr, s)
    ensures Kept(CheckStmt(flow, pending, s).flow, env, ExecS(c, fuel, env, zones, frames, tr, s),
        AssignedBy(NamesIn(flow.infos), s))
    decreases fuel, s, 0
  {
    hide Covers, EvalS, SafeExpr, ConstsAccepted, AcceptsExpr, Unchanged, CheckBlock, ExecInner, SafeInner,
      BuildProof, Marks, BlockReturns, AliasesHold, GuardHolds;
    AcceptedIsSafe(c, |c.cs|, flow, env, zones, tr, s.cond);
    var r := EvalS(c.o, c.cs, |c.cs|, env, zones, tr, s.cond);
    var marks := Marks(BuildProof(flow.infos, s.cond, 0), true);
    var t' := CheckBlock(flow, pending, marks, s.thenBlock);
    BlockWeakens(flow, pending, marks, s.thenBlock);
    TrueWeaker(flow, t'.flow, env);
    NoGuards(t'.flow.infos, env);
    if r.Val? && r.value.VBool? {
      if r.value.b {
        BranchMarksHold(c, |c.cs|, flow.infos, env, zones, tr, s.cond);
        BlockFlow(c, fuel, flow, pending, marks, env, zones, frames, r.trace, s.thenBlock);
        var out := ExecInner(c, fuel, env, zones, frames, r.trace, s.thenBlock);
        if BlockReturns(s.thenBlock) {
          InnerReturns(c, fuel, env, zones, frames, r.trace, s.thenBlock);
        } else if out.Next? {
          NoGuards(t'.flow.infos, out.env);
          TrueMark(t'.flow, out.env, {});
          UnchangedMore(env, out.env, Assigned(NamesIn(flow.infos), s.thenBlock), AssignedBy(NamesIn(flow.infos), s));
        }
      } else {
        UnchangedSelf(env, AssignedBy(NamesIn(flow.infos), s));
        BranchMarksHold(c, |c.cs|, t'.flow.infos, env, zones, tr, s.cond);
        TrueMark(t'.flow, env,
          if BlockReturns(s.thenBlock) then Marks(BuildProof(t'.flow.infos, s.cond, 0), false) else {});
      }
    }
  }

  lemma {:induction false} InnerReturns(c: Context, fuel: nat, env: Env, zones: seq<Value>, frames: seq<Frame>,
      tr: Trace, ss: seq<SStmt>)
    requires BlockReturns(ss)
    ensures !ExecInner(c, fuel, env, zones, frames, tr, ss).Next?
  {
    NeverFallsThrough(c, fuel, env, zones, [[]] + frames, tr, ss);
  }

  /** What an `if` proves for the code after it, if the branch that gets there keeps it. */
  lemma {:induction false} MarksSurvive(c: Context, flow: Flow, flow': Flow, env: Env, env': Env, zones: seq<Value>,
      tr: Trace, e: SExpr, truth: bool, ch: Change)
    requires True(flow, env) && Weaker(flow, flow') && True(flow', env') && Unchanged(env, env', ch) && |env| == |env'|
    requires EvalS(c.o, c.cs, |c.cs|, env, zones, tr, e).Val?
    requires EvalS(c.o, c.cs, |c.cs|, env, zones, tr, e).value == VBool(truth)
    requires Marks(BuildProof(flow'.infos, e, 0), truth) !! ch.spoiled
    ensures GuardHolds(flow'.infos, env', Marks(BuildProof(flow'.infos, e, 0), truth))
  {
    hide EvalS, BuildProof, Marks, AliasHolds;
    TrueWeaker(flow, flow', env);
    BranchMarksHold(c, |c.cs|, flow'.infos, env, zones, tr, e);
    var marks := Marks(BuildProof(flow'.infos, e, 0), truth);
    forall b | b in marks
      ensures OkAt(env', b)
    {
      assert OkAt(env, b);
    }
  }

  lemma {:induction false} WeakerThen(a: Flow, b: Flow, c: Flow)
    requires Weaker(a, b) && Weaker(b, c)
    ensures Weaker(a, c)
  {
    ShrinksThen(a, b, c);
  }

  lemma {:induction false} IfElseFlow(c: Context, fuel: nat, flow: Flow, pending: seq<set<Due>>, env: Env,
      zones: seq<Value>, frames: seq<Frame>, tr: Trace, s: SStmt)
    requires s.SIfElse? && flow.guards != [] && True(flow, env) && ConstsAccepted(c.cs) && Covers(pending, frames)
    requires CheckIfElse(flow, pending, s).accepted && CheckIfElse(flow, pending, s).stable
    ensures SafeStmt(c, fuel, env, zones, frames, tr, s)
    ensures Kept(CheckIfElse(flow, pending, s).flow, env, ExecS(c, fuel, env, zones, frames, tr, s),
        AssignedBy(NamesIn(flow.infos), s))
    decreases fuel, s, 0
  {
    hide Covers, EvalS, SafeExpr, ConstsAccepted, AcceptsExpr, Unchanged, CheckBlock, ExecInner, SafeInner,
      BuildProof, Marks, BlockReturns, AliasesHold, GuardHolds, Assigned, Weaker, True;
    var e, t, f, names := s.cond, s.thenBlock, s.elseBlock, NamesIn(flow.infos);
    AcceptedIsSafe(c, |c.cs|, flow, env, zones, tr, e);
    var r := EvalS(c.o, c.cs, |c.cs|, env, zones, tr, e);
    var yes, t' := Marks(BuildProof(flow.infos, e, 0), true),
      CheckBlock(flow, pending, Marks(BuildProof(flow.infos, e, 0), true), t);
    BlockWeakens(flow, pending, yes, t);
    TrueWeaker(flow, t'.flow, env);
    var no := Marks(BuildProof(t'.flow.infos, e, 0), false);
    var f' := CheckBlock(t'.flow, pending, no, f);
    BlockWeakens(t'.flow, pending, no, f);
    WeakerThen(flow, t'.flow, f'.flow);
    if r.Val? && r.value.VBool? {
      var out := ExecInner(c, fuel, env, zones, frames, r.trace, if r.value.b then t else f);
      BranchMarks(c, flow, t'.flow, env, zones, tr, e);
      if r.value.b {
        BlockFlow(c, fuel, flow, pending, yes, env, zones, frames, r.trace, t);
        if out.Next? {
          TrueWeaker(t'.flow, f'.flow, out.env);
        }
      } else {
        WeakerNames(flow, t'.flow);
        BlockFlow(c, fuel, t'.flow, pending, no, env, zones, frames, r.trace, f);
      }
      if BlockReturns(if r.value.b then t else f) {
        InnerReturns(c, fuel, env, zones, frames, r.trace, if r.value.b then t else f);
      } else if out.Next? {
        JoinFlow(c, fuel, flow, f'.flow, env, zones, tr, s, out.env);
        UnchangedMore(env, out.env, if r.value.b then Assigned(names, t) else Assigned(names, f), AssignedBy(names, s));
      }
    }
  }

  lemma {:induction false} BranchMarks(c: Context, flow: Flow, flow': Flow, env: Env, zones: seq<Value>, tr: Trace,
      e: SExpr)
    requires True(flow, env) && True(flow', env)
    requires var r := EvalS(c.o, c.cs, |c.cs|, env, zones, tr, e); r.Val? && r.value.VBool?
    ensures
      var truth := EvalS(c.o, c.cs, |c.cs|, env, zones, tr, e).value.b;
      && GuardHolds(flow.infos, env, Marks(BuildProof(flow.infos, e, 0), truth))
      && GuardHolds(flow'.infos, env, Marks(BuildProof(flow'.infos, e, 0), truth))
  {
    hide EvalS, BuildProof, Marks, AliasesHold, GuardHolds;
    BranchMarksHold(c, |c.cs|, flow.infos, env, zones, tr, e);
    BranchMarksHold(c, |c.cs|, flow'.infos, env, zones, tr, e);
  }

  lemma {:induction false} WeakerNames(flow: Flow, flow': Flow)
    requires Weaker(flow, flow')
    ensures NamesIn(flow'.infos) == NamesIn(flow.infos)
  {
    forall i | 0 <= i < |flow.infos|
      ensures flow'.infos[i].name == flow.infos[i].name
    {
      var b := |flow.infos| - 1 - i;
      assert LessKnown(InfoOf(flow.infos, b), InfoOf(flow'.infos, b));
    }
    NamesSame(flow.infos, flow'.infos);
  }

  /** The marks an `if` leaves behind are true where its branch that falls through ends. */
  lemma {:induction false} JoinFlow(c: Context, fuel: nat, flow: Flow, flow': Flow, env: Env, zones: seq<Value>,
      tr: Trace, s: SStmt, env': Env)
    requires s.SIfElse? && flow'.guards != [] && True(flow, env) && Weaker(flow, flow') && True(flow', env')
    requires var r := EvalS(c.o, c.cs, |c.cs|, env, zones, tr, s.cond); r.Val? && r.value.VBool?
    requires
      var truth := EvalS(c.o, c.cs, |c.cs|, env, zones, tr, s.cond).value.b;
      && !BlockReturns(if truth then s.thenBlock else s.elseBlock)
      && Unchanged(env, env',
        if truth then Assigned(NamesIn(flow.infos), s.thenBlock) else Assigned(NamesIn(flow.infos), s.elseBlock))
    requires BlockReturns(s.elseBlock) ==>
      Marks(BuildProof(flow'.infos, s.cond, 0), true) !! Assigned(NamesIn(flow.infos), s.thenBlock).spoiled
    requires BlockReturns(s.thenBlock) ==>
      Marks(BuildProof(flow'.infos, s.cond, 0), false) !! Assigned(NamesIn(flow.infos), s.elseBlock).spoiled
    ensures
      var p := BuildProof(flow'.infos, s.cond, 0);
      var yes := if BlockReturns(s.elseBlock) then Marks(p, true) else {};
      var no := if BlockReturns(s.thenBlock) then Marks(p, false) else {};
      True(Mark(Mark(flow', yes), no), env')
  {
    hide EvalS, BuildProof, Marks, AliasesHold, GuardHolds, Assigned, BlockReturns, True, Unchanged, Weaker;
    var p := BuildProof(flow'.infos, s.cond, 0);
    var yes := if BlockReturns(s.elseBlock) then Marks(p, true) else {};
    var no := if BlockReturns(s.thenBlock) then Marks(p, false) else {};
    SameLengths(flow, flow', env, env');
    NoGuards(flow'.infos, env');
    var truth := EvalS(c.o, c.cs, |c.cs|, env, zones, tr, s.cond).value.b;
    if truth {
      if BlockReturns(s.elseBlock) {
        MarksSurvive(c, flow, flow', env, env', zones, tr, s.cond, true, Assigned(NamesIn(flow.infos), s.thenBlock));
      }
    } else if BlockReturns(s.thenBlock) {
      MarksSurvive(c, flow, flow', env, env', zones, tr, s.cond, false, Assigned(NamesIn(flow.infos), s.elseBlock));
    }
    TrueMark(flow', env', yes);
    TrueMark(Mark(flow', yes), env', no);
  }

  /** And they are false where that branch surely ends with an err in one of them. */
  lemma {:induction false} RuinedMarkIsFalse(c: Context, fuel: nat, flow: Flow, pending: seq<set<Due>>, env: Env,
      zones: seq<Value>, frames: seq<Frame>, tr: Trace, s: SStmt, b: nat)
    requires s.SIfElse? && flow.guards != [] && True(flow, env) && ConstsAccepted(c.cs) && Covers(pending, frames)
    requires !BlockReturns(s.thenBlock)
    requires BlockReturns(s.elseBlock)
    requires CheckIfElse(flow, pending, s).accepted
    requires
      var t' := CheckBlock(flow, pending, Marks(BuildProof(flow.infos, s.cond, 0), true), s.thenBlock);
      var f' := CheckBlock(t'.flow, pending, Marks(BuildProof(t'.flow.infos, s.cond, 0), false), s.elseBlock);
      && t'.stable && b < |flow.infos| && b in Assigned(NamesIn(flow.infos), s.thenBlock).ruined
      && b in Marks(BuildProof(f'.flow.infos, s.cond, 0), true)
    ensures
      var out := ExecS(c, fuel, env, zones, frames, tr, s);
      out.Next? ==> !True(CheckIfElse(flow, pending, s).flow, out.env)
  {
    hide Covers, EvalS, ConstsAccepted, AcceptsExpr, CheckBlock, ExecInner, SafeInner, BuildProof, Marks, BlockReturns,
      AliasesHold, Assigned;
    var r := EvalS(c.o, c.cs, |c.cs|, env, zones, tr, s.cond);
    var yes := Marks(BuildProof(flow.infos, s.cond, 0), true);
    var out := ExecS(c, fuel, env, zones, frames, tr, s);
    if out.Next? {
      if r.value.b {
        BranchMarksHold(c, |c.cs|, flow.infos, env, zones, tr, s.cond);
        BlockFlow(c, fuel, flow, pending, yes, env, zones, frames, r.trace, s.thenBlock);
        TrueLength(flow, env);
        assert !OkAt(out.env, b);
        assert b in CheckIfElse(flow, pending, s).flow.guards[0];
      } else {
        InnerReturns(c, fuel, env, zones, frames, r.trace, s.elseBlock);
      }
    }
  }

  /** Where each result the branch spoils is surely left an err, what the checker knows after
      the `if` is true exactly if the branch spoils none that the condition proved. */
  lemma {:induction false} MarksTrueExactly(c: Context, fuel: nat, flow: Flow, pending: seq<set<Due>>, env: Env,
      zones: seq<Value>, frames: seq<Frame>, tr: Trace, s: SStmt)
    requires s.SIfElse? && flow.guards != [] && True(flow, env) && ConstsAccepted(c.cs) && Covers(pending, frames)
    requires !BlockReturns(s.thenBlock) && BlockReturns(s.elseBlock) && CheckIfElse(flow, pending, s).accepted
    requires
      var t' := CheckBlock(flow, pending, Marks(BuildProof(flow.infos, s.cond, 0), true), s.thenBlock);
      var f' := CheckBlock(t'.flow, pending, Marks(BuildProof(t'.flow.infos, s.cond, 0), false), s.elseBlock);
      t'.stable && f'.stable
    requires var ch := Assigned(NamesIn(flow.infos), s.thenBlock); ch.spoiled <= ch.ruined
    requires ExecS(c, fuel, env, zones, frames, tr, s).Next?
    ensures True(CheckIfElse(flow, pending, s).flow, ExecS(c, fuel, env, zones, frames, tr, s).env) <==>
      CheckIfElse(flow, pending, s).stable
  {
    hide EvalS, ConstsAccepted, AcceptsExpr, CheckBlock, ExecInner, ExecS, SafeStmt, BuildProof, Marks, BlockReturns,
      True, Assigned, Covers, Unchanged, Weaker;
    if CheckIfElse(flow, pending, s).stable {
      IfElseFlow(c, fuel, flow, pending, env, zones, frames, tr, s);
    } else {
      var t' := CheckBlock(flow, pending, Marks(BuildProof(flow.infos, s.cond, 0), true), s.thenBlock);
      var f' := CheckBlock(t'.flow, pending, Marks(BuildProof(t'.flow.infos, s.cond, 0), false), s.elseBlock);
      var yes := Marks(BuildProof(f'.flow.infos, s.cond, 0), true);
      var b :| b in yes && b in Assigned(NamesIn(flow.infos), s.thenBlock).spoiled;
      MarkIsBinding(flow, t'.flow, f'.flow, pending, env, s, b);
      RuinedMarkIsFalse(c, fuel, flow, pending, env, zones, frames, tr, s, b);
    }
  }

  lemma {:induction false} MarkIsBinding(flow: Flow, flow1: Flow, flow2: Flow, pending: seq<set<Due>>, env: Env,
      s: SStmt, b: nat)
    requires True(flow, env) && s.SIfElse?
    requires flow1 == CheckBlock(flow, pending, Marks(BuildProof(flow.infos, s.cond, 0), true), s.thenBlock).flow
    requires flow2 == CheckBlock(flow1, pending, Marks(BuildProof(flow1.infos, s.cond, 0), false), s.elseBlock).flow
    requires b in Marks(BuildProof(flow2.infos, s.cond, 0), true)
    ensures b < |flow.infos|
  {
    hide CheckBlock, BuildProof, Marks, LeavesIn, GuardHolds, AliasHolds, Weaker;
    BlockWeakens(flow, pending, Marks(BuildProof(flow.infos, s.cond, 0), true), s.thenBlock);
    BlockWeakens(flow1, pending, Marks(BuildProof(flow1.infos, s.cond, 0), false), s.elseBlock);
    TrueWeaker(flow, flow1, env);
    TrueWeaker(flow1, flow2, env);
    BuildLeaves(flow2.infos, env, s.cond, 0);
    MarksAreLeaves(BuildProof(flow2.infos, s.cond, 0), true, flow2.infos);
  }

  lemma SameLengths(flow: Flow, flow': Flow, env: Env, env': Env)
    requires True(flow, env) && True(flow', env') && Weaker(flow, flow')
    ensures |env| == |env'|
  {
  }

  /** A whole body: parameters are immutable, and nothing is known of them. */
  lemma {:induction false} BodyReadsOk(c: Context, fuel: nat, params: seq<Info>, args: Env, tr: Trace, body: seq<SStmt>)
    requires Named(params, args) && forall i :: 0 <= i < |params| ==> params[i].proof.None?
    requires ConstsAccepted(c.cs)
    requires CheckStmts(Flow(params, [{}]), [{}], body).accepted && CheckStmts(Flow(params, [{}]), [{}], body).stable
    ensures SafeRest(c, fuel, args, [], [[]], tr, body)
  {
    RestFlow(c, fuel, Flow(params, [{}]), [{}], args, [], [[]], tr, body);
  }
}
