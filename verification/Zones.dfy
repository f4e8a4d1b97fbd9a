/** Zones are properly nested on every path: each zone entered is released exactly once, in
    reverse order, after the deferred statements of its body, and `zalloc` allocates in the
    innermost zone that is still open. The one exception is a `zalloc` in the expression of a
    `return` inside a zone, which runs after the releases (src/ir/lower.c:1570-1577). */
module Zones {
  import opened Ir
  import opened Values
  import opened IrSemantics
  import opened Source
  import opened GuaranteedReturn

  /** The handles open after one more event; None: a release or an allocation that is not
      for the innermost open zone. */
  function Advance(open: seq<Value>, e: Event): Option<seq<Value>> {
    match e.action
    case AZoneEnter => Some([e.result] + open)
    case AZoneAlloc(h, _) => if open != [] && open[0] == h then Some(open) else None
    case AFree(_) => Some(open)
    case ACall(target, args) =>
      if target != ZONE_RELEASE then Some(open)
      else if open != [] && args == [open[0]] then Some(open[1..])
      else None
  }

  /** The handles open after a trace, innermost first. */
  function OpenAfter(tr: Trace): Option<seq<Value>> {
    if tr == [] then Some([])
    else
      var open :- OpenAfter(tr[..|tr| - 1]);
      Advance(open, tr[|tr| - 1])
  }

  lemma {:induction false} OpenAppend(tr: Trace, e: Event)
    ensures OpenAfter(tr + [e]) == if OpenAfter(tr).None? then None else Advance(OpenAfter(tr).value, e)
  {
    assert (tr + [e])[..|tr|] == tr;
  }

  /** The program does not call the release primitive, which no source name resolves to. */
  predicate PlainExpr(e: SExpr)
    decreases e, 1
  {
    match e
    case SUnary(_, a) => PlainExpr(a)
    case SBinary(_, _, l, r) => PlainExpr(l) && PlainExpr(r)
    case SIfExpr(c, t, f) => PlainExpr(c) && PlainExpr(t) && PlainExpr(f)
    case SCall(target, _, args) => target != ZONE_RELEASE && PlainArgs(args)
    case SField(a, _) => PlainExpr(a)
    case SOk(a) => PlainExpr(a)
    case _ => true
  }

  predicate PlainArgs(args: seq<SExpr>)
    decreases args, 0
  {
    args == [] || (PlainExpr(args[0]) && PlainArgs(args[1..]))
  }

  /** No `zalloc` in the expression. */
  predicate AllocFree(e: SExpr)
    decreases e, 1
  {
    match e
    case SUnary(_, a) => AllocFree(a)
    case SBinary(_, _, l, r) => AllocFree(l) && AllocFree(r)
    case SIfExpr(c, t, f) => AllocFree(c) && AllocFree(t) && AllocFree(f)
    case SCall(_, _, args) => AllocFreeArgs(args)
    case SField(a, _) => AllocFree(a)
    case SOk(a) => AllocFree(a)
    case SZAlloc(_) => false
    case _ => true
  }

  predicate AllocFreeArgs(args: seq<SExpr>)
    decreases args, 0
  {
    args == [] || (AllocFree(args[0]) && AllocFreeArgs(args[1..]))
  }

  /** Statements without release calls whose returns inside a zone do not allocate. */
  predicate PlainStmts(ss: seq<SStmt>, inZone: bool)
    decreases ss, 0
  {
    ss == [] || (PlainStmt(ss[0], inZone) && PlainStmts(ss[1..], inZone))
  }

  predicate PlainStmt(s: SStmt, inZone: bool)
    decreases s, 1
  {
    match s
    case SLet(_, _, _, e) => PlainExpr(e)
    case SAssign(_, e) => PlainExpr(e)
    case SReturn(e) => e.None? || (PlainExpr(e.value) && (inZone ==> AllocFree(e.value)))
    case SExprStmt(e) => PlainExpr(e)
    case SFree(e) => PlainExpr(e)
    case SDefer(d) => PlainExpr(d.e)
    case STry(_, _, e) => PlainExpr(e)
    case SZone(body) => PlainStmts(body, true)
    case SIfThen(c, t) => PlainExpr(c) && PlainStmts(t, inZone)
    case SIfElse(c, t, f) => PlainExpr(c) && PlainStmts(t, inZone) && PlainStmts(f, inZone)
    case SWhile(c, body) => PlainExpr(c) && PlainStmts(body, inZone)
    case SLoop(body) => PlainStmts(body, inZone)
    case SFor(_, a, b, body) => PlainExpr(a) && PlainExpr(b) && PlainStmts(body, inZone)
  }

  predicate PlainConsts(cs: seq<Const>) { forall i :: 0 <= i < |cs| ==> PlainExpr(cs[i].init) }

  /** Evaluating an expression opens and closes nothing. A constant is evaluated outside every
      zone, where `zalloc` is undefined. */
  lemma {:induction false} EvalKeepsZones(c: Context, limit: nat, env: Env, zones: seq<Value>, open: seq<Value>,
      tr: Trace, e: SExpr)
    requires limit <= |c.cs| && PlainConsts(c.cs) && PlainExpr(e)
    requires OpenAfter(tr) == Some(open) && (zones == [] || zones == open || AllocFree(e))
    ensures
      var r := EvalS(c.o, c.cs, limit, env, zones, tr, e);
      r.Val? ==> OpenAfter(r.trace) == Some(open)
    decreases limit, e, 1
  {
    hide OpenAfter;
    match e
    case SName(x) =>
      var k := FindConst(c.cs, limit, x);
      if k.Some? {
        EvalKeepsZones(c, k.value, [], [], open, tr, c.cs[k.value].init);
      }
    case SUnary(_, a) => EvalKeepsZones(c, limit, env, zones, open, tr, a);
    case SField(a, _) => EvalKeepsZones(c, limit, env, zones, open, tr, a);
    case SOk(a) => EvalKeepsZones(c, limit, env, zones, open, tr, a);
    case SBinary(_, _, l, r) =>
      EvalKeepsZones(c, limit, env, zones, open, tr, l);
      var a := EvalS(c.o, c.cs, limit, env, zones, tr, l);
      if a.Val? {
        EvalKeepsZones(c, limit, env, zones, open, a.trace, r);
      }
    case SIfExpr(b, t, f) =>
      EvalKeepsZones(c, limit, env, zones, open, tr, b);
      var a := EvalS(c.o, c.cs, limit, env, zones, tr, b);
      if a.Val? {
        EvalKeepsZones(c, limit, env, zones, open, a.trace, t);
        EvalKeepsZones(c, limit, env, zones, open, a.trace, f);
      }
    case SCall(target, ret, args) =>
      ArgsKeepZones(c, limit, env, zones, open, tr, args);
      var a := EvalSArgs(c.o, c.cs, limit, env, zones, tr, args);
      if a.Vals? {
        var r := ActCall(c.o, a.trace, target, ret, a.values);
        OpenAppend(a.trace, Event(ACall(target, a.values), r.value));
      }
    case SZAlloc(t) =>
      if zones != [] {
        var act := AZoneAlloc(zones[0], VSize(t));
        OpenAppend(tr, Event(act, c.o(tr, act)));
      }
    case _ =>
  }

  lemma {:induction false} ArgsKeepZones(c: Context, limit: nat, env: Env, zones: seq<Value>, open: seq<Value>,
      tr: Trace, args: seq<SExpr>)
    requires limit <= |c.cs| && PlainConsts(c.cs) && PlainArgs(args)
    requires OpenAfter(tr) == Some(open) && (zones == [] || zones == open || AllocFreeArgs(args))
    ensures
      var r := EvalSArgs(c.o, c.cs, limit, env, zones, tr, args);
      r.Vals? ==> OpenAfter(r.trace) == Some(open)
    decreases limit, args, 0
  {
    hide OpenAfter;
    if args != [] {
      EvalKeepsZones(c, limit, env, zones, open, tr, args[0]);
      var a := EvalS(c.o, c.cs, limit, env, zones, tr, args[0]);
      if a.Val? {
        ArgsKeepZones(c, limit, env, zones, open, a.trace, args[1..]);
      }
    }
  }

  /** The own frame of a block holds deferred statements written with these zones open. */
  predicate OwnFrame(frame: Frame, zones: seq<Value>) {
    forall i :: 0 <= i < |frame| ==> frame[i].Pending? && frame[i].zoneDepth == |zones| && PlainExpr(frame[i].d.e)
  }

  /** The pending frames release exactly the open zones, innermost first. */
  predicate FramesNest(frames: seq<Frame>, zones: seq<Value>)
    decreases frames
  {
    if frames == [] then zones == []
    else if frames[0] != [] && frames[0][0].Release? then
      zones != [] && frames[0] == [Release(zones[0])] && FramesNest(frames[1..], zones[1..])
    else OwnFrame(frames[0], zones) && FramesNest(frames[1..], zones)
  }

  /** zs are the zones still open while the cleanups of an exit run. */
  predicate StillOpen(zs: seq<Value>, zones: seq<Value>) {
    |zs| <= |zones| && zs == Innermost(zones, |zs|)
  }

  lemma {:induction false} OwnFrameRuns(c: Context, env: Env, zones: seq<Value>, zs: seq<Value>, tr: Trace,
      frame: Frame)
    requires PlainConsts(c.cs) && OwnFrame(frame, zs) && OpenAfter(tr) == Some(zs) && StillOpen(zs, zones)
    ensures
      var t := RunFrame(c, env, zones, tr, frame);
      t.Some? ==> OpenAfter(t.value) == Some(zs)
    decreases frame
  {
    hide OpenAfter, EvalS;
    if frame != [] {
      var d := frame[0].d;
      EvalKeepsZones(c, |c.cs|, Innermost(env, frame[0].depth), zs, zs, tr, d.e);
      var r := EvalS(c.o, c.cs, |c.cs|, Innermost(env, frame[0].depth), zs, tr, d.e);
      if r.Val? && d.DeferFree? {
        OpenAppend(r.trace, Event(AFree(r.value), VUnit));
      }
      var t := RunEntry(c, env, zones, tr, frame[0]);
      if t.Some? {
        OwnFrameRuns(c, env, zones, zs, t.value, frame[1..]);
      }
    }
  }

  lemma {:induction false} ReleaseCloses(c: Context, env: Env, zones: seq<Value>, zs: seq<Value>, tr: Trace,
      frame: Frame)
    requires OpenAfter(tr) == Some(zs) && zs != [] && frame == [Release(zs[0])]
    ensures
      var t := RunFrame(c, env, zones, tr, frame);
      t.Some? && OpenAfter(t.value) == Some(zs[1..])
  {
    var e := Event(ACall(ZONE_RELEASE, [zs[0]]), VUnit);
    OpenAppend(tr, e);
    assert RunEntry(c, env, zones, tr, frame[0]) == Some(tr + [e]);
    assert RunFrame(c, env, zones, tr + [e], frame[1..]) == Some(tr + [e]);
  }

  /** Running every frame closes every zone. */
  lemma {:induction false} FramesClose(c: Context, env: Env, zones: seq<Value>, zs: seq<Value>, tr: Trace,
      frames: seq<Frame>)
    requires PlainConsts(c.cs) && FramesNest(frames, zs) && OpenAfter(tr) == Some(zs) && StillOpen(zs, zones)
    ensures
      var t := RunFrames(c, env, zones, tr, frames);
      t.Some? ==> OpenAfter(t.value) == Some([])
    decreases frames
  {
    hide OpenAfter, RunFrame;
    if frames != [] {
      var t := RunFrame(c, env, zones, tr, frames[0]);
      if frames[0] != [] && frames[0][0].Release? {
        ReleaseCloses(c, env, zones, zs, tr, frames[0]);
        FramesClose(c, env, zones, zs[1..], t.value, frames[1..]);
      } else {
        OwnFrameRuns(c, env, zones, zs, tr, frames[0]);
        if t.Some? {
          FramesClose(c, env, zones, zs, t.value, frames[1..]);
        }
      }
    }
  }

  /** Falling through leaves the open zones as they were; a return leaves none open; running
      out of fuel leaves a properly nested prefix. */
  predicate Nests(out: Outcome, zones: seq<Value>) {
    match out
    case Next(_, tr) => OpenAfter(tr) == Some(zones)
    case Returned(_, tr) => OpenAfter(tr) == Some([])
    case OutOfFuel(tr) => OpenAfter(tr).Some?
    case Undefined => true
  }

  lemma {:induction false} RestNests(c: Context, fuel: nat, env: Env, zones: seq<Value>, frames: seq<Frame>,
      tr: Trace, ss: seq<SStmt>)
    requires frames != [] && OwnFrame(frames[0], zones) && FramesNest(frames[1..], zones)
    requires PlainConsts(c.cs) && PlainStmts(ss, zones != []) && OpenAfter(tr) == Some(zones)
    ensures Nests(ExecRest(c, fuel, env, zones, frames, tr, ss), zones)
    decreases fuel, ss, 1
  {
    hide OpenAfter, EvalS, RunFrame, RunFrames;
    assert FramesNest(frames, zones);
    if ss == [] {
      OwnFrameRuns(c, env, zones, zones, tr, frames[0]);
    } else {
      match ss[0]
      case SDefer(d) =>
        var own := [Pending(d, |env|, |zones|)] + frames[0];
        RestNests(c, fuel, env, zones, [own] + frames[1..], tr, ss[1..]);
      case SReturn(e) =>
        FramesClose(c, env, zones, zones, tr, frames);
        var t := RunFrames(c, env, zones, tr, frames);
        if t.Some? && e.Some? {
          EvalKeepsZones(c, |c.cs|, env, zones, [], t.value, e.value);
        }
      case STry(x, _, e) =>
        EvalKeepsZones(c, |c.cs|, env, zones, zones, tr, e);
        var r := EvalS(c.o, c.cs, |c.cs|, env, zones, tr, e);
        if r.Val? && r.value.VResult? {
          if r.value.ok {
            RestNests(c, fuel, [Binding(User(x), r.value.payload)] + env, zones, frames, r.trace, ss[1..]);
          } else {
            FramesClose(c, env, zones, zones, r.trace, frames);
          }
        }
      case _ =>
        StmtNests(c, fuel, env, zones, frames, tr, ss[0]);
        var out := ExecS(c, fuel, env, zones, frames, tr, ss[0]);
        if out.Next? {
          RestNests(c, fuel, out.env, zones, frames, out.trace, ss[1..]);
        }
    }
  }

  lemma {:induction false} InnerNests(c: Context, fuel: nat, env: Env, zones: seq<Value>, frames: seq<Frame>,
      tr: Trace, ss: seq<SStmt>)
    requires FramesNest(frames, zones)
    requires PlainConsts(c.cs) && PlainStmts(ss, zones != []) && OpenAfter(tr) == Some(zones)
    ensures Nests(ExecInner(c, fuel, env, zones, frames, tr, ss), zones)
    decreases fuel, ss, 2
  {
    hide OpenAfter, FramesNest;
    assert ([[]] + frames)[1..] == frames;
    RestNests(c, fuel, env, zones, [[]] + frames, tr, ss);
  }

  lemma {:induction false} StmtNests(c: Context, fuel: nat, env: Env, zones: seq<Value>, frames: seq<Frame>,
      tr: Trace, s: SStmt)
    requires FramesNest(frames, zones)
    requires PlainConsts(c.cs) && PlainStmt(s, zones != []) && OpenAfter(tr) == Some(zones)
    ensures Nests(ExecS(c, fuel, env, zones, frames, tr, s), zones)
    decreases fuel, s, 0
  {
    hide OpenAfter, EvalS, FramesNest, ExecInner, ExecSWhile, ExecSFor;
    match s
    case SLet(_, _, _, e) => EvalKeepsZones(c, |c.cs|, env, zones, zones, tr, e);
    case SAssign(_, e) => EvalKeepsZones(c, |c.cs|, env, zones, zones, tr, e);
    case SExprStmt(e) => EvalKeepsZones(c, |c.cs|, env, zones, zones, tr, e);
    case SFree(e) =>
      EvalKeepsZones(c, |c.cs|, env, zones, zones, tr, e);
      var r := EvalS(c.o, c.cs, |c.cs|, env, zones, tr, e);
      if r.Val? {
        OpenAppend(r.trace, Event(AFree(r.value), VUnit));
      }
    case SZone(body) => ZoneNests(c, fuel, env, zones, frames, tr, body);
    case SIfThen(e, t) =>
      EvalKeepsZones(c, |c.cs|, env, zones, zones, tr, e);
      var r := EvalS(c.o, c.cs, |c.cs|, env, zones, tr, e);
      if r.Val? {
        InnerNests(c, fuel, env, zones, frames, r.trace, t);
      }
    case SIfElse(e, t, f) =>
      EvalKeepsZones(c, |c.cs|, env, zones, zones, tr, e);
      var r := EvalS(c.o, c.cs, |c.cs|, env, zones, tr, e);
      if r.Val? {
        InnerNests(c, fuel, env, zones, frames, r.trace, t);
        InnerNests(c, fuel, env, zones, frames, r.trace, f);
      }
    case SWhile(e, body) => WhileNests(c, fuel, env, zones, frames, tr, e, body);
    case SLoop(body) => WhileNests(c, fuel, env, zones, frames, tr, SBool(true), body);
    case SFor(x, a, b, body) =>
      EvalKeepsZones(c, |c.cs|, env, zones, zones, tr, a);
      var lo := EvalS(c.o, c.cs, |c.cs|, env, zones, tr, a);
      if lo.Val? {
        EvalKeepsZones(c, |c.cs|, env, zones, zones, lo.trace, b);
        var hi := EvalS(c.o, c.cs, |c.cs|, env, zones, lo.trace, b);
        if hi.Val? && hi.value.VInt? {
          ForNests(c, fuel, [Binding(User(x), lo.value)] + env, zones, frames, hi.trace, hi.value.i, body);
        }
      }
    case _ =>
  }

  lemma {:induction false} ZoneNests(c: Context, fuel: nat, env: Env, zones: seq<Value>, frames: seq<Frame>,
      tr: Trace, body: seq<SStmt>)
    requires FramesNest(frames, zones)
    requires PlainConsts(c.cs) && PlainStmts(body, true) && OpenAfter(tr) == Some(zones)
    ensures Nests(ExecS(c, fuel, env, zones, frames, tr, SZone(body)), zones)
    decreases fuel, body, 3
  {
    hide OpenAfter, ExecInner;
    var h := Act(c.o, tr, AZoneEnter);
    OpenAppend(tr, Event(AZoneEnter, h.value));
    var zones1, frames1 := [h.value] + zones, [[Release(h.value)]] + frames;
    assert zones1[1..] == zones && frames1[1..] == frames;
    InnerNests(c, fuel, env, zones1, frames1, h.trace, body);
    var out := ExecInner(c, fuel, env, zones1, frames1, h.trace, body);
    if out.Next? {
      OpenAppend(out.trace, Event(ACall(ZONE_RELEASE, [h.value]), VUnit));
    }
  }

  lemma {:induction false} WhileNests(c: Context, fuel: nat, env: Env, zones: seq<Value>, frames: seq<Frame>,
      tr: Trace, e: SExpr, body: seq<SStmt>)
    requires FramesNest(frames, zones)
    requires PlainConsts(c.cs) && PlainExpr(e) && PlainStmts(body, zones != []) && OpenAfter(tr) == Some(zones)
    ensures Nests(ExecSWhile(c, fuel, env, zones, frames, tr, e, body), zones)
    decreases fuel, body, 3
  {
    hide OpenAfter, EvalS, FramesNest, ExecInner;
    if fuel != 0 {
      EvalKeepsZones(c, |c.cs|, env, zones, zones, tr, e);
      var r := EvalS(c.o, c.cs, |c.cs|, env, zones, tr, e);
      if r.Val? {
        InnerNests(c, fuel, env, zones, frames, r.trace, body);
        var out := ExecInner(c, fuel, env, zones, frames, r.trace, body);
        if out.Next? {
          WhileNests(c, fuel - 1, out.env, zones, frames, out.trace, e, body);
        }
      }
    }
  }

  lemma {:induction false} ForNests(c: Context, fuel: nat, env: Env, zones: seq<Value>, frames: seq<Frame>, tr: Trace,
      end: int, body: seq<SStmt>)
    requires FramesNest(frames, zones)
    requires PlainConsts(c.cs) && PlainStmts(body, zones != []) && OpenAfter(tr) == Some(zones)
    ensures Nests(ExecSFor(c, fuel, env, zones, frames, tr, end, body), zones)
    decreases fuel, body, 3
  {
    hide OpenAfter, FramesNest, ExecInner;
    if fuel != 0 {
      InnerNests(c, fuel, env, zones, frames, tr, body);
      var out := ExecInner(c, fuel, env, zones, frames, tr, body);
      if out.Next? && out.env != [] && out.env[0].value.VInt? {
        var next := Binding(out.env[0].name, VInt(out.env[0].value.i + 1));
        ForNests(c, fuel - 1, [next] + out.env[1..], zones, frames, out.trace, end, body);
      }
    }
  }

  /** Every run of a whole body: properly nested, and nothing left open at the end. */
  lemma {:induction false} BodyNests(c: Context, fuel: nat, params: Env, body: seq<SStmt>)
    requires PlainConsts(c.cs) && PlainStmts(body, false)
    ensures Nests(RunBody(c, fuel, params, [], body), [])
  {
    RestNests(c, fuel, params, [], [[]], [], body);
  }

  /** The events an expression can cause: calls, and allocations in a zone. */
  predicate Quiet(more: Trace) {
    forall i :: 0 <= i < |more| ==>
      more[i].action.AZoneAlloc? || (more[i].action.ACall? && more[i].action.target != ZONE_RELEASE)
  }

  lemma QuietThen(tr: Trace, a: Trace, b: Trace, more: Trace, more': Trace)
    requires Quiet(more) && Quiet(more') && a == tr + more && b == a + more'
    ensures Quiet(more + more') && b == tr + (more + more')
  {
  }

  lemma {:induction false} EvalIsQuiet(c: Context, limit: nat, env: Env, zones: seq<Value>, tr: Trace, e: SExpr)
    returns (more: Trace)
    requires limit <= |c.cs| && PlainConsts(c.cs) && PlainExpr(e) && EvalS(c.o, c.cs, limit, env, zones, tr, e).Val?
    ensures Quiet(more) && EvalS(c.o, c.cs, limit, env, zones, tr, e).trace == tr + more
    decreases limit, e, 1
  {
    var r := EvalS(c.o, c.cs, limit, env, zones, tr, e);
    more := [];
    match e
    case SName(x) =>
      if Lookup(env, User(x)).None? {
        var k := FindConst(c.cs, limit, x).value;
        more := EvalIsQuiet(c, k, [], [], tr, c.cs[k].init);
      }
    case SUnary(_, a) => more := EvalIsQuiet(c, limit, env, zones, tr, a);
    case SField(a, _) => more := EvalIsQuiet(c, limit, env, zones, tr, a);
    case SOk(a) => more := EvalIsQuiet(c, limit, env, zones, tr, a);
    case SBinary(op, _, l, _) =>
      var a := EvalS(c.o, c.cs, limit, env, zones, tr, l);
      more := EvalIsQuiet(c, limit, env, zones, tr, l);
      if !((op.And? || op.Or?) && a.value.b == op.Or?) {
        var more' := EvalIsQuiet(c, limit, env, zones, a.trace, e.right);
        QuietThen(tr, a.trace, r.trace, more, more');
        more := more + more';
      }
    case SIfExpr(b, t, f) =>
      var a := EvalS(c.o, c.cs, limit, env, zones, tr, b);
      more := EvalIsQuiet(c, limit, env, zones, tr, b);
      var more' := EvalIsQuiet(c, limit, env, zones, a.trace, if a.value.b then t else f);
      QuietThen(tr, a.trace, r.trace, more, more');
      more := more + more';
    case SCall(target, _, args) =>
      var a := EvalSArgs(c.o, c.cs, limit, env, zones, tr, args);
      more := ArgsAreQuiet(c, limit, env, zones, tr, args);
      var last := [Event(ACall(target, a.values), r.value)];
      QuietThen(tr, a.trace, r.trace, more, last);
      more := more + last;
    case SZAlloc(t) => more := [Event(AZoneAlloc(zones[0], VSize(t)), r.value)];
    case _ => assert r.trace == tr + more;
  }

  lemma {:induction false} ArgsAreQuiet(c: Context, limit: nat, env: Env, zones: seq<Value>, tr: Trace,
      args: seq<SExpr>)
    returns (more: Trace)
    requires limit <= |c.cs| && PlainConsts(c.cs) && PlainArgs(args)
    requires EvalSArgs(c.o, c.cs, limit, env, zones, tr, args).Vals?
    ensures Quiet(more) && EvalSArgs(c.o, c.cs, limit, env, zones, tr, args).trace == tr + more
    decreases limit, args, 0
  {
    more := [];
    if args != [] {
      var a := EvalS(c.o, c.cs, limit, env, zones, tr, args[0]);
      more := EvalIsQuiet(c, limit, env, zones, tr, args[0]);
      var more' := ArgsAreQuiet(c, limit, env, zones, a.trace, args[1..]);
      QuietThen(tr, a.trace, EvalSArgs(c.o, c.cs, limit, env, zones, a.trace, args[1..]).trace, more, more');
      more := more + more';
    }
  }

  lemma {:induction false} QuietNests(tr: Trace, more: Trace)
    requires OpenAfter(tr) == Some([]) && Quiet(more)
    ensures OpenAfter(tr + more) == Some([]) <==> forall i :: 0 <= i < |more| ==> !more[i].action.AZoneAlloc?
    decreases more
  {
    hide OpenAfter;
    if more == [] {
      assert tr + more == tr;
    } else {
      var rest := more[1..];
      OpenAppend(tr, more[0]);
      assert tr + more == (tr + [more[0]]) + rest;
      if more[0].action.AZoneAlloc? {
        NeverRecovers(tr + [more[0]], rest);
      } else {
        QuietNests(tr + [more[0]], rest);
        assert forall i :: 0 < i < |more| ==> more[i] == rest[i - 1];
      }
    }
  }

  /** A `return` leaves a properly nested trace exactly when evaluating its expression, which
      happens after the cleanups, adds no allocation to it. */
  lemma {:induction false} ReturnTrace(c: Context, env: Env, zones: seq<Value>, frames: seq<Frame>, tr: Trace, e: SExpr)
    requires PlainConsts(c.cs) && PlainExpr(e) && FramesNest(frames, zones) && OpenAfter(tr) == Some(zones)
    requires ExecReturn(c, env, zones, frames, tr, Some(e)).Returned?
    ensures
      var cleaned := RunFrames(c, env, zones, tr, frames).value;
      var end := ExecReturn(c, env, zones, frames, tr, Some(e)).trace;
      && cleaned <= end
      && (OpenAfter(end) == Some([]) <==> forall i :: |cleaned| <= i < |end| ==> !end[i].action.AZoneAlloc?)
  {
    hide OpenAfter, EvalS, RunFrames;
    var cleaned := RunFrames(c, env, zones, tr, frames).value;
    FramesClose(c, env, zones, zones, tr, frames);
    var more := EvalIsQuiet(c, |c.cs|, env, zones, cleaned, e);
    QuietNests(cleaned, more);
    var end := cleaned + more;
    assert forall i :: 0 <= i < |more| ==> end[|cleaned| + i] == more[i];
    assert forall i :: |cleaned| <= i < |end| ==> end[i] == more[i - |cleaned|];
  }

  /** A `zalloc` in a place that is always evaluated. */
  predicate MustAlloc(e: SExpr)
    decreases e, 1
  {
    match e
    case SUnary(_, a) => MustAlloc(a)
    case SBinary(op, _, l, r) => MustAlloc(l) || (!op.And? && !op.Or? && MustAlloc(r))
    case SIfExpr(c, t, f) => MustAlloc(c) || (MustAlloc(t) && MustAlloc(f))
    case SCall(_, _, args) => MustAllocArgs(args)
    case SField(a, _) => MustAlloc(a)
    case SOk(a) => MustAlloc(a)
    case SZAlloc(_) => true
    case _ => false
  }

  predicate MustAllocArgs(args: seq<SExpr>)
    decreases args, 0
  {
    args != [] && (MustAlloc(args[0]) || MustAllocArgs(args[1..]))
  }

  /** No `&&`, `||` or if-expression: every part is evaluated. */
  predicate Straight(e: SExpr)
    decreases e, 1
  {
    match e
    case SUnary(_, a) => Straight(a)
    case SBinary(op, _, l, r) => !op.And? && !op.Or? && Straight(l) && Straight(r)
    case SIfExpr(_, _, _) => false
    case SCall(_, _, args) => StraightArgs(args)
    case SField(a, _) => Straight(a)
    case SOk(a) => Straight(a)
    case _ => true
  }

  predicate StraightArgs(args: seq<SExpr>)
    decreases args, 0
  {
    args == [] || (Straight(args[0]) && StraightArgs(args[1..]))
  }

  /** Without branches, what may allocate must. */
  lemma {:induction false} StraightMust(e: SExpr)
    requires Straight(e)
    ensures MustAlloc(e) <==> !AllocFree(e)
    decreases e, 1
  {
    match e
    case SUnary(_, a) => StraightMust(a);
    case SBinary(_, _, l, r) => StraightMust(l); StraightMust(r);
    case SCall(_, _, args) => StraightMustArgs(args);
    case SField(a, _) => StraightMust(a);
    case SOk(a) => StraightMust(a);
    case _ =>
  }

  lemma {:induction false} StraightMustArgs(args: seq<SExpr>)
    requires StraightArgs(args)
    ensures MustAllocArgs(args) <==> !AllocFreeArgs(args)
    decreases args, 0
  {
    if args != [] {
      StraightMust(args[0]);
      StraightMustArgs(args[1..]);
    }
  }

  /** An event of this kind between two points of a trace. */
  ghost predicate AllocatesBetween(tr: Trace, end: Trace) {
    tr <= end && exists i :: |tr| <= i < |end| && end[i].action.AZoneAlloc?
  }

  lemma AllocatesLater(a: Trace, b: Trace, c: Trace)
    requires AllocatesBetween(a, b) && b <= c
    ensures AllocatesBetween(a, c)
  {
    var i :| |a| <= i < |b| && b[i].action.AZoneAlloc?;
    assert c[i] == b[i];
  }

  lemma AllocatesEarlier(a: Trace, b: Trace, c: Trace)
    requires a <= b && AllocatesBetween(b, c)
    ensures AllocatesBetween(a, c)
  {
  }

  lemma {:induction false} EvalExtends(c: Context, limit: nat, env: Env, zones: seq<Value>, tr: Trace, e: SExpr)
    requires limit <= |c.cs| && PlainConsts(c.cs) && PlainExpr(e) && EvalS(c.o, c.cs, limit, env, zones, tr, e).Val?
    ensures tr <= EvalS(c.o, c.cs, limit, env, zones, tr, e).trace
  {
    hide EvalS;
    var more := EvalIsQuiet(c, limit, env, zones, tr, e);
  }

  lemma {:induction false} MustAllocates(c: Context, limit: nat, env: Env, zones: seq<Value>, tr: Trace, e: SExpr)
    requires limit <= |c.cs| && PlainConsts(c.cs) && PlainExpr(e) && MustAlloc(e)
    requires EvalS(c.o, c.cs, limit, env, zones, tr, e).Val?
    ensures AllocatesBetween(tr, EvalS(c.o, c.cs, limit, env, zones, tr, e).trace)
    decreases limit, e, 1
  {
    hide AllocatesBetween;
    var end := EvalS(c.o, c.cs, limit, env, zones, tr, e).trace;
    match e
    case SUnary(_, a) => MustAllocates(c, limit, env, zones, tr, a);
    case SField(a, _) => MustAllocates(c, limit, env, zones, tr, a);
    case SOk(a) => MustAllocates(c, limit, env, zones, tr, a);
    case SBinary(op, _, l, r) =>
      var a := EvalS(c.o, c.cs, limit, env, zones, tr, l);
      EvalExtends(c, limit, env, zones, tr, l);
      if MustAlloc(l) {
        MustAllocates(c, limit, env, zones, tr, l);
        if a.trace != end {
          EvalExtends(c, limit, env, zones, a.trace, r);
          AllocatesLater(tr, a.trace, end);
        }
      } else {
        MustAllocates(c, limit, env, zones, a.trace, r);
        AllocatesEarlier(tr, a.trace, end);
      }
    case SIfExpr(b, t, f) =>
      var a := EvalS(c.o, c.cs, limit, env, zones, tr, b);
      var branch := if a.value.b then t else f;
      EvalExtends(c, limit, env, zones, tr, b);
      EvalExtends(c, limit, env, zones, a.trace, branch);
      if MustAlloc(b) {
        MustAllocates(c, limit, env, zones, tr, b);
        AllocatesLater(tr, a.trace, end);
      } else {
        MustAllocates(c, limit, env, zones, a.trace, branch);
        AllocatesEarlier(tr, a.trace, end);
      }
    case SCall(_, _, args) =>
      MustAllocatesArgs(c, limit, env, zones, tr, args);
      AllocatesLater(tr, EvalSArgs(c.o, c.cs, limit, env, zones, tr, args).trace, end);
    case SZAlloc(t) => OneAllocation(tr,
      Event(AZoneAlloc(zones[0], VSize(t)), EvalS(c.o, c.cs, limit, env, zones, tr, e).value));
  }

  lemma OneAllocation(tr: Trace, e: Event)
    requires e.action.AZoneAlloc?
    ensures AllocatesBetween(tr, tr + [e])
  {
    assert (tr + [e])[|tr|] == e;
  }

  lemma {:induction false} MustAllocatesArgs(c: Context, limit: nat, env: Env, zones: seq<Value>, tr: Trace,
      args: seq<SExpr>)
    requires limit <= |c.cs| && PlainConsts(c.cs) && PlainArgs(args) && MustAllocArgs(args)
    requires EvalSArgs(c.o, c.cs, limit, env, zones, tr, args).Vals?
    ensures AllocatesBetween(tr, EvalSArgs(c.o, c.cs, limit, env, zones, tr, args).trace)
    decreases limit, args, 0
  {
    hide AllocatesBetween;
    var end := EvalSArgs(c.o, c.cs, limit, env, zones, tr, args).trace;
    var a := EvalS(c.o, c.cs, limit, env, zones, tr, args[0]);
    EvalExtends(c, limit, env, zones, tr, args[0]);
    if MustAlloc(args[0]) {
      MustAllocates(c, limit, env, zones, tr, args[0]);
      var more := ArgsAreQuiet(c, limit, env, zones, a.trace, args[1..]);
      AllocatesLater(tr, a.trace, end);
    } else {
      MustAllocatesArgs(c, limit, env, zones, a.trace, args[1..]);
      AllocatesEarlier(tr, a.trace, end);
    }
  }

  /** A `return` nests if its expression holds no `zalloc`, and never if a `zalloc` in it is
      always evaluated; for an expression without branches that is an if and only if. */
  lemma {:induction false} ReturnNestsExactly(c: Context, env: Env, zones: seq<Value>, frames: seq<Frame>, tr: Trace,
      e: SExpr)
    requires PlainConsts(c.cs) && PlainExpr(e) && FramesNest(frames, zones) && OpenAfter(tr) == Some(zones)
    requires ExecReturn(c, env, zones, frames, tr, Some(e)).Returned?
    ensures
      var end := ExecReturn(c, env, zones, frames, tr, Some(e)).trace;
      && (AllocFree(e) ==> OpenAfter(end) == Some([]))
      && (MustAlloc(e) ==> OpenAfter(end) != Some([]))
      && (Straight(e) ==> (OpenAfter(end) == Some([]) <==> AllocFree(e)))
  {
    hide OpenAfter, EvalS, RunFrames, PlainExpr, MustAlloc, AllocFree;
    var cleaned := RunFrames(c, env, zones, tr, frames).value;
    FramesClose(c, env, zones, zones, tr, frames);
    EvalKeepsZones(c, |c.cs|, env, if AllocFree(e) then zones else [], [], cleaned, e);
    ReturnTrace(c, env, zones, frames, tr, e);
    if MustAlloc(e) {
      MustAllocates(c, |c.cs|, env, zones, cleaned, e);
    }
    if Straight(e) {
      StraightMust(e);
    }
  }

  /** One allocation in a zone that is no longer open spoils the rest of the trace. */
  lemma {:induction false} NeverRecovers(tr: Trace, more: Trace)
    requires OpenAfter(tr).None?
    ensures OpenAfter(tr + more).None?
    decreases more
  {
    if more == [] {
      assert tr + more == tr;
    } else {
      var init := more[..|more| - 1];
      NeverRecovers(tr, init);
      assert tr + more == (tr + init) + [more[|more| - 1]];
      OpenAppend(tr + init, more[|more| - 1]);
    }
  }

  /** An allocator whose answers are pointers. */
  ghost predicate AnswersPointers(o: Oracle) {
    forall tr: Trace, a: Action :: a.AZoneAlloc? ==> o(tr, a).VPtr?
  }

  const LATE: SExpr := SBinary(Equal, TPtr, SZAlloc(TInt), SZAlloc(TInt))

  /** `zone { return zalloc int == zalloc int; } return false;` */
  const LATE_BODY: seq<SStmt> := [SZone([SReturn(Some(LATE))]), SReturn(Some(SBool(false)))]

  /** This bool function satisfies the guaranteed-return analysis. Wherever the allocator
      answers with pointers, it returns after allocating in the zone it has just released. */
  lemma {:induction false} ReturnAllocatesTooLate(c: Context, fuel: nat, params: Env)
    requires AnswersPointers(c.o)
    ensures BlockReturns(LATE_BODY)
    ensures
      var out := RunBody(c, fuel, params, [], LATE_BODY);
      out.Returned? && out.value.VBool? && OpenAfter(out.trace).None?
  {
    hide OpenAfter, EvalS, RunFrames;
    assert LATE_BODY[1..] == [SReturn(Some(SBool(false)))];
    assert StmtReturns(LATE_BODY[1..][0]) && BlockReturns(LATE_BODY[1..]);
    var h := c.o([], AZoneEnter);
    var tr1 := [] + [Event(AZoneEnter, h)];
    var tr2 := tr1 + [Event(ACall(ZONE_RELEASE, [h]), VUnit)];
    var act := AZoneAlloc(h, VSize(TInt));
    var first := Event(act, c.o(tr2, act));
    var second := Event(act, c.o(tr2 + [first], act));
    OpenNothing();
    OpenAppend([], Event(AZoneEnter, h));
    assert OpenAfter(tr1) == Some([h] + []);
    OpenAppend(tr1, Event(ACall(ZONE_RELEASE, [h]), VUnit));
    assert ([h] + [])[1..] == [];
    OpenAppend(tr2, first);
    NeverRecovers(tr2 + [first], [second]);
    ExitReleases(c, params, h, tr1);
    TwoAllocs(c, params, h, tr2);
    var inner := ExecRest(c, fuel, params, [h] + [], [[]] + ([[Release(h)]] + [[]]), tr1, [SReturn(Some(LATE))]);
    assert [h] + [] == [h] && [[]] + ([[Release(h)]] + [[]]) == [[], [Release(h)], []];
    assert inner == ExecReturn(c, params, [h], [[], [Release(h)], []], tr1, Some(LATE));
    assert ExecInner(c, fuel, params, [h] + [], [[Release(h)]] + [[]], tr1, [SReturn(Some(LATE))]) == inner;
    assert ExecS(c, fuel, params, [], [[]], [], LATE_BODY[0]) == inner;
  }

  lemma {:induction false} TwoAllocs(c: Context, env: Env, h: Value, tr: Trace)
    requires AnswersPointers(c.o)
    ensures
      var alloc, act := SZAlloc(TInt), AZoneAlloc(h, VSize(TInt));
      var first := Event(act, c.o(tr, act));
      var second := Event(act, c.o(tr + [first], act));
      var r := EvalS(c.o, c.cs, |c.cs|, env, [h], tr, LATE);
      r.Val? && r.value.VBool? && r.trace == tr + [first] + [second]
  {
    var alloc, act := SZAlloc(TInt), AZoneAlloc(h, VSize(TInt));
    var first := Event(act, c.o(tr, act));
    var second := Event(act, c.o(tr + [first], act));
    assert EvalS(c.o, c.cs, |c.cs|, env, [h], tr, alloc) == Val(first.result, tr + [first]);
    assert EvalS(c.o, c.cs, |c.cs|, env, [h], tr + [first], alloc) == Val(second.result, tr + [first] + [second]);
  }

  lemma OpenNothing()
    ensures OpenAfter([]) == Some([])
  {
  }

  lemma {:induction false} ExitReleases(c: Context, env: Env, h: Value, tr: Trace)
    ensures
      var frames: seq<Frame> := [[], [Release(h)], []];
      RunFrames(c, env, [h], tr, frames) == Some(tr + [Event(ACall(ZONE_RELEASE, [h]), VUnit)])
  {
    var frames: seq<Frame> := [[], [Release(h)], []];
    var tr' := tr + [Event(ACall(ZONE_RELEASE, [h]), VUnit)];
    assert frames[1..] == [[Release(h)], []] && frames[1..][1..] == [[]] && frames[1..][1..][1..] == [];
    assert RunFrame(c, env, [h], tr', [Release(h)][1..]) == Some(tr');
    assert RunFrame(c, env, [h], tr, [Release(h)]) == Some(tr');
    assert RunFrames(c, env, [h], tr', [[]]) == Some(tr');
    assert RunFrames(c, env, [h], tr, [[Release(h)], []]) == Some(tr');
  }

  // What is plain, collected

  /** The callees of an expression. */
  function Callees(e: SExpr): set<Target>
    decreases e, 1
  {
    match e
    case SUnary(_, a) => Callees(a)
    case SBinary(_, _, l, r) => Callees(l) + Callees(r)
    case SIfExpr(c, t, f) => Callees(c) + Callees(t) + Callees(f)
    case SCall(target, _, args) => {target} + CalleesOf(args)
    case SField(a, _) => Callees(a)
    case SOk(a) => Callees(a)
    case _ => {}
  }

  function CalleesOf(args: seq<SExpr>): set<Target>
    decreases args, 0
  {
    if args == [] then {} else Callees(args[0]) + CalleesOf(args[1..])
  }

  /** The expressions of a block, and those a `return` inside a zone evaluates. */
  function Expressions(ss: seq<SStmt>): seq<SExpr>
    decreases ss, 0
  {
    if ss == [] then [] else ExpressionsOf(ss[0]) + Expressions(ss[1..])
  }

  function ExpressionsOf(s: SStmt): seq<SExpr>
    decreases s, 1
  {
    match s
    case SLet(_, _, _, e) => [e]
    case SAssign(_, e) => [e]
    case SReturn(e) => if e.None? then [] else [e.value]
    case SExprStmt(e) => [e]
    case SFree(e) => [e]
    case SDefer(d) => [d.e]
    case STry(_, _, e) => [e]
    case SZone(body) => Expressions(body)
    case SIfThen(c, t) => [c] + Expressions(t)
    case SIfElse(c, t, f) => [c] + Expressions(t) + Expressions(f)
    case SWhile(c, body) => [c] + Expressions(body)
    case SLoop(body) => Expressions(body)
    case SFor(_, a, b, body) => [a, b] + Expressions(body)
  }

  function ZoneReturns(ss: seq<SStmt>, inZone: bool): seq<SExpr>
    decreases ss, 0
  {
    if ss == [] then [] else ZoneReturnsOf(ss[0], inZone) + ZoneReturns(ss[1..], inZone)
  }

  function ZoneReturnsOf(s: SStmt, inZone: bool): seq<SExpr>
    decreases s, 1
  {
    match s
    case SReturn(e) => if e.Some? && inZone then [e.value] else []
    case SZone(body) => ZoneReturns(body, true)
    case SIfThen(_, t) => ZoneReturns(t, inZone)
    case SIfElse(_, t, f) => ZoneReturns(t, inZone) + ZoneReturns(f, inZone)
    case SWhile(_, body) => ZoneReturns(body, inZone)
    case SLoop(body) => ZoneReturns(body, inZone)
    case SFor(_, _, _, body) => ZoneReturns(body, inZone)
    case _ => []
  }

  lemma {:induction false} ExprPlainExactly(e: SExpr)
    ensures PlainExpr(e) <==> ZONE_RELEASE !in Callees(e)
    decreases e, 1
  {
    match e
    case SUnary(_, a) => ExprPlainExactly(a);
    case SBinary(_, _, l, r) => ExprPlainExactly(l); ExprPlainExactly(r);
    case SIfExpr(c, t, f) => ExprPlainExactly(c); ExprPlainExactly(t); ExprPlainExactly(f);
    case SCall(_, _, args) => ArgsPlainExactly(args);
    case SField(a, _) => ExprPlainExactly(a);
    case SOk(a) => ExprPlainExactly(a);
    case _ =>
  }

  lemma {:induction false} ArgsPlainExactly(args: seq<SExpr>)
    ensures PlainArgs(args) <==> ZONE_RELEASE !in CalleesOf(args)
    decreases args, 0
  {
    if args != [] {
      ExprPlainExactly(args[0]);
      ArgsPlainExactly(args[1..]);
    }
  }

  predicate NoRelease(es: seq<SExpr>) { forall i :: 0 <= i < |es| ==> ZONE_RELEASE !in Callees(es[i]) }

  predicate NoAlloc(es: seq<SExpr>) { forall i :: 0 <= i < |es| ==> AllocFree(es[i]) }

  lemma NoneTogether(a: seq<SExpr>, b: seq<SExpr>)
    ensures NoRelease(a + b) <==> NoRelease(a) && NoRelease(b)
    ensures NoAlloc(a + b) <==> NoAlloc(a) && NoAlloc(b)
  {
    var all := a + b;
    assert forall i :: 0 <= i < |a| ==> a[i] == all[i];
    assert forall i :: 0 <= i < |b| ==> b[i] == all[|a| + i];
  }

  lemma NoneOne(e: SExpr)
    ensures NoRelease([e]) <==> PlainExpr(e)
    ensures NoAlloc([e]) <==> AllocFree(e)
    ensures NoRelease([]) && NoAlloc([])
  {
    ExprPlainExactly(e);
    assert [e][0] == e;
  }

  /** A block is plain if and only if none of its expressions calls the release primitive and no
      `return` inside a zone allocates. */
  lemma {:induction false} PlainExactly(ss: seq<SStmt>, inZone: bool)
    ensures PlainStmts(ss, inZone) <==> NoRelease(Expressions(ss)) && NoAlloc(ZoneReturns(ss, inZone))
    decreases ss, 0
  {
    hide PlainStmt, ExpressionsOf, ZoneReturnsOf, NoRelease, NoAlloc;
    NoneOne(SBool(true));
    if ss != [] {
      StmtPlainExactly(ss[0], inZone);
      PlainExactly(ss[1..], inZone);
      NoneTogether(ExpressionsOf(ss[0]), Expressions(ss[1..]));
      NoneTogether(ZoneReturnsOf(ss[0], inZone), ZoneReturns(ss[1..], inZone));
    }
  }

  lemma {:induction false} StmtPlainExactly(s: SStmt, inZone: bool)
    ensures PlainStmt(s, inZone) <==> NoRelease(ExpressionsOf(s)) && NoAlloc(ZoneReturnsOf(s, inZone))
    decreases s, 1
  {
    hide PlainStmts, Expressions, ZoneReturns, NoRelease, NoAlloc, PlainExpr, AllocFree;
    NoneOne(SBool(true));
    match s
    case SLet(_, _, _, e) => NoneOne(e);
    case SAssign(_, e) => NoneOne(e);
    case SReturn(e) => if e.Some? { NoneOne(e.value); }
    case SExprStmt(e) => NoneOne(e);
    case SFree(e) => NoneOne(e);
    case SDefer(d) => NoneOne(d.e);
    case STry(_, _, e) => NoneOne(e);
    case SZone(body) => PlainExactly(body, true);
    case SIfThen(c, t) =>
      NoneOne(c);
      PlainExactly(t, inZone);
      NoneTogether([c], Expressions(t));
    case SIfElse(c, t, f) =>
      NoneOne(c);
      PlainExactly(t, inZone);
      PlainExactly(f, inZone);
      NoneTogether([c], Expressions(t));
      NoneTogether([c] + Expressions(t), Expressions(f));
      NoneTogether(ZoneReturns(t, inZone), ZoneReturns(f, inZone));
    case SWhile(c, body) =>
      NoneOne(c);
      PlainExactly(body, inZone);
      NoneTogether([c], Expressions(body));
    case SLoop(body) => PlainExactly(body, inZone);
    case SFor(_, a, b, body) =>
      NoneOne(a);
      NoneOne(b);
      PlainExactly(body, inZone);
      NoneTogether([a], [b]);
      assert [a] + [b] == [a, b];
      NoneTogether([a, b], Expressions(body));
  }
}
