/** Which functions compile. The conditions are those the checker has established by then: names
    in scope, `zalloc` in a zone, `try` in a result function, and the limits of the backend on
    arguments and on equality (src/ir/lower.c:953-1195, src/backend/llvm_text.c:1149-1290,
    2589-2651). */
module Compilable {
  import opened Ir
  import opened Source
  import opened Lowering
  import opened Optimizer
  import opened Machine
  import opened Backend
  import opened Pipeline
  import opened Emittable
  import opened Operators

  // The source

  /** Every name read is a local in scope or an earlier constant, an `err` has a result type and
      `zalloc` stands in a zone; with `limits`, calls and equalities are ones the backend has
      code for. */
  ghost predicate Admits(cs: seq<Const>, limit: nat, names: seq<string>, inZone: bool, limits: bool, e: SExpr)
    requires limit <= |cs|
    decreases e, 1
  {
    match e
    case SInt(_) => true
    case SBool(_) => true
    case SStr(_) => true
    case SName(x) => x in names || exists k :: 0 <= k < limit && cs[k].name == x
    case SUnary(_, a) => Admits(cs, limit, names, inZone, limits, a)
    case SBinary(op, t, l, r) =>
      && Admits(cs, limit, names, inZone, limits, l) && Admits(cs, limit, names, inZone, limits, r)
      && (limits && (op.Equal? || op.NotEqual?) ==> Comparable(t))
    case SIfExpr(c, t, f) =>
      && Admits(cs, limit, names, inZone, limits, c)
      && Admits(cs, limit, names, inZone, limits, t) && Admits(cs, limit, names, inZone, limits, f)
    case SCall(target, _, args) =>
      AdmitsArgs(cs, limit, names, inZone, limits, args) && (limits ==> TakesArgs(target, |args|))
    case SField(base, _) => Admits(cs, limit, names, inZone, limits, base)
    case SOk(a) => Admits(cs, limit, names, inZone, limits, a)
    case SErr(t) => t.TResult?
    case SZAlloc(_) => inZone
  }

  ghost predicate AdmitsArgs(cs: seq<Const>, limit: nat, names: seq<string>, inZone: bool, limits: bool,
      args: seq<SExpr>)
    requires limit <= |cs|
    decreases args, 0
  {
    args == [] ||
    (Admits(cs, limit, names, inZone, limits, args[0]) && AdmitsArgs(cs, limit, names, inZone, limits, args[1..]))
  }

  /** Constants stand outside every scope and use earlier ones. */
  ghost predicate AdmitsConsts(cs: seq<Const>, limits: bool) {
    forall k :: 0 <= k < |cs| ==> Admits(cs, k, [], false, limits, cs[k].init)
  }

  /** The statements of a block up to its first `return`. */
  ghost predicate AdmitsStmts(u: Unit, names: seq<string>, inZone: bool, limits: bool, ss: seq<SStmt>)
    decreases ss, 0
  {
    ss == [] ||
    (AdmitsStmt(u, names, inZone, limits, ss[0]) &&
     (ss[0].SReturn? || AdmitsStmts(u, Binds(ss[0]) + names, inZone, limits, ss[1..])))
  }

  function Binds(s: SStmt): seq<string> {
    match s
    case SLet(x, _, _, _) => [x]
    case STry(x, _, _) => [x]
    case _ => []
  }

  ghost predicate AdmitsStmt(u: Unit, names: seq<string>, inZone: bool, limits: bool, s: SStmt)
    decreases s, 1
  {
    var cs, n := u.cs, |u.cs|;
    match s
    case SLet(_, _, _, e) => Admits(cs, n, names, inZone, limits, e)
    case SAssign(x, e) => x in names && Admits(cs, n, names, inZone, limits, e)
    case SReturn(e) => e.None? || Admits(cs, n, names, inZone, limits, e.value)
    case SExprStmt(e) => Admits(cs, n, names, inZone, limits, e)
    case SFree(e) => Admits(cs, n, names, inZone, limits, e)
    case SDefer(d) => Admits(cs, n, names, inZone, limits, d.e)
    case STry(_, _, e) => u.ret.TResult? && Admits(cs, n, names, inZone, limits, e)
    case SZone(body) => AdmitsStmts(u, names, true, limits, body)
    case SIfThen(c, t) => Admits(cs, n, names, inZone, limits, c) && AdmitsStmts(u, names, inZone, limits, t)
    case SIfElse(c, t, f) =>
      && Admits(cs, n, names, inZone, limits, c)
      && AdmitsStmts(u, names, inZone, limits, t) && AdmitsStmts(u, names, inZone, limits, f)
    case SWhile(c, body) => Admits(cs, n, names, inZone, limits, c) && AdmitsStmts(u, names, inZone, limits, body)
    case SLoop(body) => AdmitsStmts(u, names, inZone, limits, body)
    case SFor(x, a, b, body) =>
      && Admits(cs, n, names, inZone, limits, a) && Admits(cs, n, names, inZone, limits, b)
      && AdmitsStmts(u, [x] + names, inZone, limits, body)
  }

  // Lowering fails on nothing else

  lemma {:induction false} ExprLowers(cs: seq<Const>, limit: nat, sc: Scope, e: SExpr)
    requires limit <= |cs| && AdmitsConsts(cs, false)
    ensures LowerExpr(cs, limit, sc, e).Some? <==> Admits(cs, limit, sc.names, sc.zones != [], false, e)
    decreases limit, e, 1
  {
    match e
    case SName(x) =>
      var k := FindConst(cs, limit, x);
      if k.Some? {
        assert Admits(cs, k.value, [], false, false, cs[k.value].init);
        ExprLowers(cs, k.value, NO_SCOPE, cs[k.value].init);
      }
    case SUnary(_, a) => ExprLowers(cs, limit, sc, a);
    case SBinary(_, _, l, r) => ExprLowers(cs, limit, sc, l); ExprLowers(cs, limit, sc, r);
    case SIfExpr(c, t, f) =>
      ExprLowers(cs, limit, sc, c);
      ExprLowers(cs, limit, sc, t);
      ExprLowers(cs, limit, sc, f);
    case SCall(_, _, args) => ArgsLower(cs, limit, sc, args);
    case SField(a, _) => ExprLowers(cs, limit, sc, a);
    case SOk(a) => ExprLowers(cs, limit, sc, a);
    case _ =>
  }

  lemma {:induction false} ArgsLower(cs: seq<Const>, limit: nat, sc: Scope, args: seq<SExpr>)
    requires limit <= |cs| && AdmitsConsts(cs, false)
    ensures LowerArgs(cs, limit, sc, args).Some? <==> AdmitsArgs(cs, limit, sc.names, sc.zones != [], false, args)
    decreases limit, args, 0
  {
    if args != [] {
      ExprLowers(cs, limit, sc, args[0]);
      ArgsLower(cs, limit, sc, args[1..]);
    }
  }

  /** The pending deferred statements were admitted where they stand. */
  ghost predicate AdmitsFrame(cs: seq<Const>, limits: bool, frame: StaticFrame) {
    forall x :: x in frame && x.Captured? ==> Admits(cs, |cs|, x.scope.names, x.scope.zones != [], limits, x.d.e)
  }

  ghost predicate AdmitsFrames(cs: seq<Const>, limits: bool, frames: seq<StaticFrame>) {
    forall frame :: frame in frames ==> AdmitsFrame(cs, limits, frame)
  }

  lemma {:induction false} FrameLowers(cs: seq<Const>, frame: StaticFrame)
    requires AdmitsConsts(cs, false)
    ensures LowerFrame(cs, frame).Some? <==> AdmitsFrame(cs, false, frame)
    decreases frame
  {
    hide Admits, LowerExpr;
    if frame != [] {
      var x := frame[0];
      if x.Captured? {
        ExprLowers(cs, |cs|, x.scope, x.d.e);
      }
      FrameLowers(cs, frame[1..]);
      assert frame == [x] + frame[1..];
    }
  }

  lemma {:induction false} FramesLower(cs: seq<Const>, frames: seq<StaticFrame>)
    requires AdmitsConsts(cs, false)
    ensures LowerFrames(cs, frames).Some? <==> AdmitsFrames(cs, false, frames)
    decreases frames
  {
    hide AdmitsFrame, LowerFrame;
    if frames != [] {
      FrameLowers(cs, frames[0]);
      FramesLower(cs, frames[1..]);
      assert frames == [frames[0]] + frames[1..];
    }
  }

  /** Each way out of a block runs its own deferred statements, so one that does not lower fails
      the block. */
  lemma {:induction false} BadFrameFails(u: Unit, sc: Scope, frames: seq<StaticFrame>, n: nat, ss: seq<SStmt>)
    requires frames != [] && LowerFrame(u.cs, frames[0]).None?
    ensures LowerRest(u, sc, frames, n, ss).None?
    decreases ss
  {
    hide LowerExpr, LowerStmt;
    if ss != [] {
      match ss[0]
      case SDefer(d) => BadFrameFails(u, sc, [[Captured(d, sc)] + frames[0]] + frames[1..], n, ss[1..]);
      case SReturn(_) =>
      case STry(x, _, _) =>
      case _ =>
        var s := LowerStmt(u, sc, frames, n, ss[0]);
        if s.Some? {
          BadFrameFails(u, After(sc, ss[0]), frames, s.value.next, ss[1..]);
        }
    }
  }

  lemma {:induction false} RestLowers(u: Unit, sc: Scope, frames: seq<StaticFrame>, n: nat, ss: seq<SStmt>)
    requires frames != [] && AdmitsConsts(u.cs, false) && AdmitsFrames(u.cs, false, frames)
    ensures LowerRest(u, sc, frames, n, ss).Some? <==> AdmitsStmts(u, sc.names, sc.zones != [], false, ss)
    decreases ss, 0
  {
    hide LowerExpr, Admits, LowerStmt, AdmitsFrame, AdmitsConsts;
    if ss == [] {
      FrameLowers(u.cs, frames[0]);
    } else {
      var s := ss[0];
      match s
      case SDefer(d) => DeferLowers(u, sc, frames, n, ss);
      case SReturn(e) =>
        FramesLower(u.cs, frames);
        if e.Some? {
          ExprLowers(u.cs, |u.cs|, sc, e.value);
        }
      case STry(x, _, e) =>
        FramesLower(u.cs, frames);
        ExprLowers(u.cs, |u.cs|, sc, e);
        RestLowers(u, Scope([x] + sc.names, sc.zones), frames, n + 1, ss[1..]);
      case _ =>
        StmtLowers(u, sc, frames, n, s);
        var low := LowerStmt(u, sc, frames, n, s);
        if low.Some? {
          RestLowers(u, After(sc, s), frames, low.value.next, ss[1..]);
          assert Binds(s) + sc.names == After(sc, s).names;
        }
    }
  }

  lemma {:induction false} DeferLowers(u: Unit, sc: Scope, frames: seq<StaticFrame>, n: nat, ss: seq<SStmt>)
    requires frames != [] && AdmitsConsts(u.cs, false) && AdmitsFrames(u.cs, false, frames)
    requires ss != [] && ss[0].SDefer?
    ensures LowerRest(u, sc, frames, n, ss).Some? <==> AdmitsStmts(u, sc.names, sc.zones != [], false, ss)
    decreases ss, 0, 0
  {
    hide LowerExpr, Admits, LowerStmt, AdmitsConsts, LowerFrame;
    var d := ss[0].deferred;
    var own := [Captured(d, sc)] + frames[0];
    var frames' := [own] + frames[1..];
    assert Binds(ss[0]) + sc.names == sc.names;
    assert frames[0] in frames && AdmitsFrame(u.cs, false, frames[0]);
    FrameLowers(u.cs, own);
    if Admits(u.cs, |u.cs|, sc.names, sc.zones != [], false, d.e) {
      RestLowers(u, sc, frames', n, ss[1..]);
    } else {
      assert Captured(d, sc) in own;
      BadFrameFails(u, sc, frames', n, ss[1..]);
    }
  }

  lemma {:induction false} BlockLowers(u: Unit, sc: Scope, frames: seq<StaticFrame>, n: nat, ss: seq<SStmt>)
    requires AdmitsConsts(u.cs, false) && AdmitsFrames(u.cs, false, frames)
    ensures LowerBlock(u, sc, frames, n, ss).Some? <==> AdmitsStmts(u, sc.names, sc.zones != [], false, ss)
    decreases ss, 1
  {
    hide LowerRest, Admits, AdmitsConsts;
    RestLowers(u, sc, [[]] + frames, n, ss);
  }

  lemma {:induction false} StmtLowers(u: Unit, sc: Scope, frames: seq<StaticFrame>, n: nat, s: SStmt)
    requires AdmitsConsts(u.cs, false) && AdmitsFrames(u.cs, false, frames)
    requires !s.SDefer? && !s.SReturn? && !s.STry?
    ensures LowerStmt(u, sc, frames, n, s).Some? <==> AdmitsStmt(u, sc.names, sc.zones != [], false, s)
    decreases s, 0
  {
    hide LowerExpr, Admits, LowerBlock, AdmitsConsts, AdmitsFrame;
    var cs, all := u.cs, |u.cs|;
    match s
    case SLet(_, _, _, e) => ExprLowers(cs, all, sc, e);
    case SAssign(_, e) => ExprLowers(cs, all, sc, e);
    case SExprStmt(e) => ExprLowers(cs, all, sc, e);
    case SFree(e) => ExprLowers(cs, all, sc, e);
    case SZone(body) =>
      var z := Gen("zone", n);
      assert AdmitsFrame(cs, false, [ZoneExit(z)]) by { ReleaseAdmitted(cs, false, z); }
      BlockLowers(u, Scope(sc.names, [z] + sc.zones), [[ZoneExit(z)]] + frames, n + 1, body);
    case SIfThen(c, t) =>
      ExprLowers(cs, all, sc, c);
      BlockLowers(u, sc, frames, n, t);
    case SIfElse(c, t, f) =>
      ExprLowers(cs, all, sc, c);
      BlockLowers(u, sc, frames, n, t);
      var t' := LowerBlock(u, sc, frames, n, t);
      if t'.Some? {
        BlockLowers(u, sc, frames, t'.value.next, f);
      }
    case SWhile(c, body) =>
      ExprLowers(cs, all, sc, c);
      BlockLowers(u, sc, frames, n, body);
    case SLoop(body) => BlockLowers(u, sc, frames, n, body);
    case SFor(x, a, b, body) =>
      ExprLowers(cs, all, sc, a);
      ExprLowers(cs, all, sc, b);
      BlockLowers(u, Scope([x] + sc.names, sc.zones), frames, n, body);
  }

  lemma ReleaseAdmitted(cs: seq<Const>, limits: bool, z: Name)
    ensures AdmitsFrame(cs, limits, [ZoneExit(z)])
  {
  }

  // What is lowered has code

  /** The names and zones of a scope are locals of the code. */
  ghost predicate Visible(sc: Scope, ns: set<Name>) {
    (forall x :: x in sc.names ==> User(x) in ns) && (forall z :: z in sc.zones ==> z in ns)
  }

  lemma {:induction false} LoweredReady(cs: seq<Const>, limit: nat, sc: Scope, ns: set<Name>, limits: bool, e: SExpr)
    requires limit <= |cs| && AdmitsConsts(cs, limits) && Visible(sc, ns)
    requires Admits(cs, limit, sc.names, sc.zones != [], limits, e) && LowerExpr(cs, limit, sc, e).Some?
    ensures Ready(ns, limits, LowerExpr(cs, limit, sc, e).value)
    decreases limit, e, 1
  {
    match e
    case SName(x) =>
      if x !in sc.names {
        var k := FindConst(cs, limit, x).value;
        assert Admits(cs, k, [], false, limits, cs[k].init);
        LoweredReady(cs, k, NO_SCOPE, ns, limits, cs[k].init);
      }
    case SUnary(_, a) => LoweredReady(cs, limit, sc, ns, limits, a);
    case SBinary(_, _, l, r) =>
      LoweredReady(cs, limit, sc, ns, limits, l);
      LoweredReady(cs, limit, sc, ns, limits, r);
    case SIfExpr(c, t, f) =>
      LoweredReady(cs, limit, sc, ns, limits, c);
      LoweredReady(cs, limit, sc, ns, limits, t);
      LoweredReady(cs, limit, sc, ns, limits, f);
    case SCall(_, _, args) => LoweredArgsReady(cs, limit, sc, ns, limits, args);
    case SField(a, _) => LoweredReady(cs, limit, sc, ns, limits, a);
    case SOk(a) => LoweredReady(cs, limit, sc, ns, limits, a);
    case _ =>
  }

  lemma {:induction false} LoweredArgsReady(cs: seq<Const>, limit: nat, sc: Scope, ns: set<Name>, limits: bool,
      args: seq<SExpr>)
    requires limit <= |cs| && AdmitsConsts(cs, limits) && Visible(sc, ns)
    requires AdmitsArgs(cs, limit, sc.names, sc.zones != [], limits, args) && LowerArgs(cs, limit, sc, args).Some?
    ensures ReadyArgs(ns, limits, LowerArgs(cs, limit, sc, args).value)
    ensures |LowerArgs(cs, limit, sc, args).value| == |args|
    decreases limit, args, 0
  {
    if args != [] {
      LoweredReady(cs, limit, sc, ns, limits, args[0]);
      LoweredArgsReady(cs, limit, sc, ns, limits, args[1..]);
      var all := LowerArgs(cs, limit, sc, args).value;
      assert all[1..] == LowerArgs(cs, limit, sc, args[1..]).value;
    }
  }

  ghost predicate VisibleFrame(frame: StaticFrame, ns: set<Name>) {
    forall x :: x in frame ==> if x.Captured? then Visible(x.scope, ns) else x.zone in ns
  }

  ghost predicate VisibleFrames(frames: seq<StaticFrame>, ns: set<Name>) {
    forall frame :: frame in frames ==> VisibleFrame(frame, ns)
  }

  /** Cleanup reads what was visible where it was written and binds nothing. */
  ghost predicate Cleanup(ns: set<Name>, limits: bool, ss: seq<Stmt>) {
    ReadyStmts(ns, limits, ss) && forall i :: 0 <= i < |ss| ==> Bound(ss[i]) == {}
  }

  lemma {:induction false} FrameReady(cs: seq<Const>, ns: set<Name>, limits: bool, frame: StaticFrame)
    requires AdmitsConsts(cs, limits) && AdmitsFrame(cs, limits, frame) && VisibleFrame(frame, ns)
    requires LowerFrame(cs, frame).Some?
    ensures Cleanup(ns, limits, LowerFrame(cs, frame).value)
    decreases frame
  {
    hide Admits, AdmitsConsts, LowerExpr, Visible, Ready;
    if frame != [] {
      var x := frame[0];
      EntryReady(cs, ns, limits, x);
      FrameReady(cs, ns, limits, frame[1..]);
      var all, rest := LowerFrame(cs, frame).value, LowerFrame(cs, frame[1..]).value;
      assert all[1..] == rest && ns + Bound(all[0]) == ns;
    }
  }

  lemma {:induction false} EntryReady(cs: seq<Const>, ns: set<Name>, limits: bool, x: StaticEntry)
    requires AdmitsConsts(cs, limits) && LowerEntry(cs, x).Some?
    requires x.Captured? ==>
      Admits(cs, |cs|, x.scope.names, x.scope.zones != [], limits, x.d.e) && Visible(x.scope, ns)
    requires x.ZoneExit? ==> x.zone in ns
    ensures ReadyStmt(ns, limits, LowerEntry(cs, x).value) && Bound(LowerEntry(cs, x).value) == {}
  {
    hide Admits, AdmitsConsts, LowerExpr, Visible;
    if x.Captured? {
      LoweredReady(cs, |cs|, x.scope, ns, limits, x.d.e);
    } else {
      ReleaseReady(ns, limits, x.zone);
    }
  }

  lemma ReleaseReady(ns: set<Name>, limits: bool, z: Name)
    requires z in ns
    ensures ReadyStmt(ns, limits, ReleaseStmt(z))
  {
    assert [Local(z)][1..] == [];
  }

  lemma {:induction false} FramesReady(cs: seq<Const>, ns: set<Name>, limits: bool, frames: seq<StaticFrame>)
    requires AdmitsConsts(cs, limits) && AdmitsFrames(cs, limits, frames) && VisibleFrames(frames, ns)
    requires LowerFrames(cs, frames).Some?
    ensures Cleanup(ns, limits, LowerFrames(cs, frames).value)
    decreases frames
  {
    hide AdmitsFrame, VisibleFrame, LowerFrame, AdmitsConsts, ReadyStmt;
    if frames != [] {
      FrameReady(cs, ns, limits, frames[0]);
      FramesReady(cs, ns, limits, frames[1..]);
      ReadyAfter(ns, limits, LowerFrame(cs, frames[0]).value, LowerFrames(cs, frames[1..]).value);
    }
  }

  lemma VisibleMore(frames: seq<StaticFrame>, ns: set<Name>, ns': set<Name>)
    requires VisibleFrames(frames, ns) && ns <= ns'
    ensures VisibleFrames(frames, ns')
  {
    forall frame | frame in frames
      ensures VisibleFrame(frame, ns')
    {
      assert VisibleFrame(frame, ns);
    }
  }

  /** What a point of the source offers to the code: its scope and the cleanups pending there. */
  ghost predicate Offers(u: Unit, sc: Scope, frames: seq<StaticFrame>, ns: set<Name>, limits: bool) {
    && AdmitsConsts(u.cs, limits) && AdmitsFrames(u.cs, limits, frames)
    && Visible(sc, ns) && VisibleFrames(frames, ns)
  }

  lemma OffersMore(u: Unit, sc: Scope, sc': Scope, frames: seq<StaticFrame>, ns: set<Name>, ns': set<Name>,
      limits: bool)
    requires Offers(u, sc, frames, ns, limits) && ns <= ns'
    requires forall x :: x in sc'.names ==> x in sc.names || User(x) in ns'
    requires forall z :: z in sc'.zones ==> z in sc.zones || z in ns'
    ensures Offers(u, sc', frames, ns', limits)
  {
    hide AdmitsConsts, AdmitsFrames;
    VisibleMore(frames, ns, ns');
  }

  lemma OffersFrame(u: Unit, sc: Scope, frame: StaticFrame, frames: seq<StaticFrame>, ns: set<Name>, limits: bool)
    requires Offers(u, sc, frames, ns, limits) && AdmitsFrame(u.cs, limits, frame) && VisibleFrame(frame, ns)
    ensures Offers(u, sc, [frame] + frames, ns, limits)
  {
  }

  lemma {:induction false} RestReady(u: Unit, sc: Scope, frames: seq<StaticFrame>, n: nat, ss: seq<SStmt>,
      ns: set<Name>, limits: bool)
    requires frames != [] && Offers(u, sc, frames, ns, limits)
    requires AdmitsStmts(u, sc.names, sc.zones != [], limits, ss) && LowerRest(u, sc, frames, n, ss).Some?
    ensures ReadyStmts(ns, limits, LowerRest(u, sc, frames, n, ss).value.stmts)
    decreases ss, 0
  {
    hide LowerExpr, Admits, LowerStmt, AdmitsFrame, AdmitsConsts, VisibleFrame, Visible, AdmitsStmt, ReadyStmt, Ready;
    if ss == [] {
      assert frames[0] in frames;
      FrameReady(u.cs, ns, limits, frames[0]);
    } else {
      var s := ss[0];
      match s
      case SDefer(d) => DeferReady(u, sc, frames, n, ss, ns, limits);
      case SReturn(_) => ReturnReady(u, sc, frames, n, ss, ns, limits);
      case STry(_, _, _) => TryReady(u, sc, frames, n, ss, ns, limits);
      case _ =>
        StmtReady(u, sc, frames, n, s, ns, limits);
        var low := LowerStmt(u, sc, frames, n, s).value;
        var ns' := ns + Bound(low.stmts[0]);
        AfterOffers(u, sc, frames, n, s, ns, limits);
        assert Binds(s) + sc.names == After(sc, s).names;
        RestReady(u, After(sc, s), frames, low.next, ss[1..], ns', limits);
        var all := LowerRest(u, sc, frames, n, ss).value.stmts;
        assert all[1..] == LowerRest(u, After(sc, s), frames, low.next, ss[1..]).value.stmts;
    }
  }

  lemma {:induction false} DeferReady(u: Unit, sc: Scope, frames: seq<StaticFrame>, n: nat, ss: seq<SStmt>,
      ns: set<Name>, limits: bool)
    requires frames != [] && Offers(u, sc, frames, ns, limits) && ss != [] && ss[0].SDefer?
    requires AdmitsStmts(u, sc.names, sc.zones != [], limits, ss) && LowerRest(u, sc, frames, n, ss).Some?
    ensures ReadyStmts(ns, limits, LowerRest(u, sc, frames, n, ss).value.stmts)
    decreases ss, 0, 0
  {
    hide LowerExpr, Admits, LowerStmt, AdmitsConsts, Visible, ReadyStmts;
    var own := [Captured(ss[0].deferred, sc)] + frames[0];
    assert frames[0] in frames && AdmitsFrame(u.cs, limits, frames[0]) && VisibleFrame(frames[0], ns);
    assert AdmitsFrame(u.cs, limits, own) && VisibleFrame(own, ns);
    var frames' := [own] + frames[1..];
    assert AdmitsFrames(u.cs, limits, frames') && VisibleFrames(frames', ns);
    assert Binds(ss[0]) + sc.names == sc.names;
    RestReady(u, sc, frames', n, ss[1..], ns, limits);
  }

  lemma {:induction false} ReturnReady(u: Unit, sc: Scope, frames: seq<StaticFrame>, n: nat, ss: seq<SStmt>,
      ns: set<Name>, limits: bool)
    requires frames != [] && Offers(u, sc, frames, ns, limits) && ss != [] && ss[0].SReturn?
    requires AdmitsStmts(u, sc.names, sc.zones != [], limits, ss) && LowerRest(u, sc, frames, n, ss).Some?
    ensures ReadyStmts(ns, limits, LowerRest(u, sc, frames, n, ss).value.stmts)
  {
    hide LowerExpr, Admits, AdmitsConsts, AdmitsFrames, Visible, VisibleFrames, Ready;
    var e := ss[0].result;
    FramesReady(u.cs, ns, limits, frames);
    if e.Some? {
      LoweredReady(u.cs, |u.cs|, sc, ns, limits, e.value);
    }
    var cleanup := LowerFrames(u.cs, frames).value;
    var last := [Return(if e.None? then None else LowerExpr(u.cs, |u.cs|, sc, e.value))];
    assert last[1..] == [] && ReadyStmts(ns, limits, last);
    ReadyAfter(ns, limits, cleanup, last);
  }

  lemma {:induction false} TryReady(u: Unit, sc: Scope, frames: seq<StaticFrame>, n: nat, ss: seq<SStmt>,
      ns: set<Name>, limits: bool)
    requires frames != [] && Offers(u, sc, frames, ns, limits) && ss != [] && ss[0].STry?
    requires AdmitsStmts(u, sc.names, sc.zones != [], limits, ss) && LowerRest(u, sc, frames, n, ss).Some?
    ensures ReadyStmts(ns, limits, LowerRest(u, sc, frames, n, ss).value.stmts)
    decreases ss, 0, 0
  {
    hide LowerExpr, Admits, LowerStmt, AdmitsConsts, AdmitsFrames, Visible, VisibleFrames, Ready, LowerFrames;
    var x, e, temp := ss[0].id, ss[0].init, Gen("try", n);
    var ns1, ns2 := ns + {temp}, ns + {temp} + {User(x)};
    LoweredReady(u.cs, |u.cs|, sc, ns, limits, e);
    OffersMore(u, sc, sc, frames, ns, ns1, limits);
    FramesReady(u.cs, ns1, limits, frames);
    var sc' := Scope([x] + sc.names, sc.zones);
    OffersMore(u, sc, sc', frames, ns, ns2, limits);
    RestReady(u, sc', frames, n + 1, ss[1..], ns2, limits);
    var rest := LowerRest(u, sc', frames, n + 1, ss[1..]).value.stmts;
    TryStmtsReady(u, x, temp, LowerExpr(u.cs, |u.cs|, sc, e).value, LowerFrames(u.cs, frames).value, rest, ns, limits);
  }

  lemma {:induction false} TryStmtsReady(u: Unit, x: string, temp: Name, init: Expr, cleanup: seq<Stmt>,
      rest: seq<Stmt>, ns: set<Name>, limits: bool)
    requires u.ret.TResult? && Ready(ns, limits, init) && Cleanup(ns + {temp}, limits, cleanup)
    requires ReadyStmts(ns + {temp} + {User(x)}, limits, rest)
    ensures ReadyStmts(ns, limits, TryStmts(u, x, temp, init, cleanup) + rest)
  {
    var three := TryStmts(u, x, temp, init, cleanup);
    var all, ns1 := three + rest, ns + {temp};
    var last := [Return(Some(Err(u.ret)))];
    assert last[1..] == [] && ReadyStmts(ns1, limits, last);
    ReadyAfter(ns1, limits, cleanup, last);
    assert Bound(three[0]) == {temp} && Bound(three[1]) == {} && Bound(three[2]) == {User(x)};
    assert ReadyStmt(ns, limits, three[0]) && ReadyStmt(ns1, limits, three[1]) && ReadyStmt(ns1, limits, three[2]);
    assert ns1 + {} == ns1;
    assert all[1..][1..][1..] == rest && all[1..][1..][0] == three[2] && all[1..][0] == three[1];
    assert ReadyStmts(ns1, limits, all[1..][1..]);
    assert ReadyStmts(ns1, limits, all[1..]);
  }

  /** The scope after a statement is offered to what follows it. */
  lemma {:induction false} AfterOffers(u: Unit, sc: Scope, frames: seq<StaticFrame>, n: nat, s: SStmt, ns: set<Name>,
      limits: bool)
    requires Offers(u, sc, frames, ns, limits) && LowerStmt(u, sc, frames, n, s).Some? && !s.STry?
    ensures Offers(u, After(sc, s), frames, ns + Bound(LowerStmt(u, sc, frames, n, s).value.stmts[0]), limits)
  {
    hide LowerExpr, AdmitsConsts, AdmitsFrames, VisibleFrames, LowerBlock;
    OffersMore(u, sc, After(sc, s), frames, ns, ns + Bound(LowerStmt(u, sc, frames, n, s).value.stmts[0]), limits);
  }

  lemma {:induction false} BlockReady(u: Unit, sc: Scope, frames: seq<StaticFrame>, n: nat, ss: seq<SStmt>,
      ns: set<Name>, limits: bool)
    requires Offers(u, sc, frames, ns, limits)
    requires AdmitsStmts(u, sc.names, sc.zones != [], limits, ss) && LowerBlock(u, sc, frames, n, ss).Some?
    ensures ReadyStmts(ns, limits, LowerBlock(u, sc, frames, n, ss).value.stmts)
    decreases ss, 1
  {
    hide LowerRest, AdmitsStmts, AdmitsConsts, Visible, Admits;
    OffersFrame(u, sc, [], frames, ns, limits);
    RestReady(u, sc, [[]] + frames, n, ss, ns, limits);
  }

  lemma {:induction false} StmtReady(u: Unit, sc: Scope, frames: seq<StaticFrame>, n: nat, s: SStmt, ns: set<Name>,
      limits: bool)
    requires Offers(u, sc, frames, ns, limits)
    requires AdmitsStmt(u, sc.names, sc.zones != [], limits, s) && LowerStmt(u, sc, frames, n, s).Some?
    ensures ReadyStmt(ns, limits, LowerStmt(u, sc, frames, n, s).value.stmts[0])
    decreases s, 0
  {
    hide LowerExpr, Admits, LowerBlock, Offers, Ready;
    assert AdmitsConsts(u.cs, limits) && Visible(sc, ns) by { OffersParts(u, sc, frames, ns, limits); }
    var cs, all := u.cs, |u.cs|;
    match s
    case SLet(_, _, _, e) => LoweredReady(cs, all, sc, ns, limits, e);
    case SAssign(_, e) => LoweredReady(cs, all, sc, ns, limits, e);
    case SExprStmt(e) => LoweredReady(cs, all, sc, ns, limits, e);
    case SFree(e) => LoweredReady(cs, all, sc, ns, limits, e);
    case SZone(body) => ZoneReady(u, sc, frames, n, s, ns, limits);
    case SIfThen(c, t) =>
      LoweredReady(cs, all, sc, ns, limits, c);
      BlockReady(u, sc, frames, n, t, ns, limits);
    case SIfElse(c, t, f) =>
      LoweredReady(cs, all, sc, ns, limits, c);
      BlockReady(u, sc, frames, n, t, ns, limits);
      BlockReady(u, sc, frames, LowerBlock(u, sc, frames, n, t).value.next, f, ns, limits);
    case SWhile(c, body) =>
      LoweredReady(cs, all, sc, ns, limits, c);
      BlockReady(u, sc, frames, n, body, ns, limits);
    case SLoop(body) => BlockReady(u, sc, frames, n, body, ns, limits);
    case SFor(x, a, b, body) =>
      LoweredReady(cs, all, sc, ns, limits, a);
      LoweredReady(cs, all, sc, ns, limits, b);
      OffersMore(u, sc, Scope([x] + sc.names, sc.zones), frames, ns, ns + {User(x)}, limits);
      BlockReady(u, Scope([x] + sc.names, sc.zones), frames, n, body, ns + {User(x)}, limits);
  }

  lemma OffersParts(u: Unit, sc: Scope, frames: seq<StaticFrame>, ns: set<Name>, limits: bool)
    requires Offers(u, sc, frames, ns, limits)
    ensures AdmitsConsts(u.cs, limits) && Visible(sc, ns)
  {
  }

  lemma {:induction false} ZoneReady(u: Unit, sc: Scope, frames: seq<StaticFrame>, n: nat, s: SStmt, ns: set<Name>,
      limits: bool)
    requires s.SZone? && Offers(u, sc, frames, ns, limits)
    requires AdmitsStmt(u, sc.names, sc.zones != [], limits, s) && LowerStmt(u, sc, frames, n, s).Some?
    ensures ReadyStmt(ns, limits, LowerStmt(u, sc, frames, n, s).value.stmts[0])
    decreases s, 0, 0
  {
    hide LowerBlock, AdmitsConsts, AdmitsStmts, Visible, ReadyStmts;
    var z := Gen("zone", n);
    var sc', ns' := Scope(sc.names, [z] + sc.zones), ns + {z};
    OffersMore(u, sc, sc', frames, ns, ns', limits);
    OffersFrame(u, sc', [ZoneExit(z)], frames, ns', limits);
    BlockReady(u, sc', [[ZoneExit(z)]] + frames, n + 1, s.body, ns', limits);
    var body := LowerBlock(u, sc', [[ZoneExit(z)]] + frames, n + 1, s.body).value.stmts;
    ReleaseReady(ns', limits, z);
    ReadyEnd(ns', limits, body, ReleaseStmt(z));
  }

  /** The release behind a body, which may have bound more. */
  lemma {:induction false} ReadyEnd(ns: set<Name>, limits: bool, ss: seq<Stmt>, s: Stmt)
    requires ReadyStmts(ns, limits, ss) && s.ExprStmt? && ReadyStmt(ns, limits, s)
    ensures ReadyStmts(ns, limits, ss + [s])
    decreases ss
  {
    if ss == [] {
      assert ss + [s] == [s] && [s][1..] == [];
    } else {
      ReadyMore(ns, ns + Bound(ss[0]), limits, s.expr);
      ReadyEnd(ns + Bound(ss[0]), limits, ss[1..], s);
      assert (ss + [s])[1..] == ss[1..] + [s];
    }
  }

  // The whole compiler

  lemma {:induction false} ParamNames(params: seq<string>, i: nat)
    requires i <= |params|
    ensures forall x :: x in InScope(params, i) ==> exists k :: 0 <= k < i && params[k] == x
    decreases i
  {
    if i != 0 {
      ParamNames(params, i - 1);
    }
  }

  /** The locals a function starts with. */
  function ParamSet(params: seq<string>): set<Name> { set k | 0 <= k < |params| :: UserNames(params)[k] }

  lemma {:induction false} StartOffers(cs: seq<Const>, f: SFunction, limits: bool)
    requires AdmitsConsts(cs, limits)
    ensures Offers(Unit(cs, f.ret), Scope(Names(f), []), [], ParamSet(f.params), limits)
  {
    hide Admits;
    ParamNames(f.params, |f.params|);
    forall x | x in Names(f)
      ensures User(x) in ParamSet(f.params)
    {
      var k :| 0 <= k < |f.params| && f.params[k] == x;
      assert UserNames(f.params)[k] == User(x);
    }
  }

  /** A function within the limits compiles. */
  lemma {:induction false} CheckedCompiles(cs: seq<Const>, h: Host, n: nat, f: SFunction)
    requires AdmitsConsts(cs, true) && AdmitsStmts(Unit(cs, f.ret), Names(f), false, true, f.body)
    ensures Compile(cs, h, n, f).Some?
  {
    hide AdmitsConsts, AdmitsStmts, LowerBlock, Offers, ReadyStmts, EmitFunction, OptStmts;
    var u, sc := Unit(cs, f.ret), Scope(Names(f), []);
    ConstsWithin(cs);
    StmtsWithin(u, Names(f), false, f.body);
    NoFrames(cs);
    BlockLowers(u, sc, [], n, f.body);
    StartOffers(cs, f, true);
    BlockReady(u, sc, [], n, f.body, ParamSet(f.params), true);
    OptStmtsReady(h, ParamSet(f.params), true, LowerBlock(u, sc, [], n, f.body).value.stmts);
    FunctionEmits(UserNames(f.params), f.ret, OptStmts(h, LowerBlock(u, sc, [], n, f.body).value.stmts));
  }

  lemma NoFrames(cs: seq<Const>)
    ensures AdmitsFrames(cs, false, [])
  {
  }

  /** Compilation fails on nothing but names, zones, `try` and `err` out of place, and calls and
      equalities beyond the limits that the optimizer leaves. */
  lemma {:induction false} CompilesExactly(cs: seq<Const>, h: Host, n: nat, f: SFunction)
    requires AdmitsConsts(cs, false)
    ensures
      var low := LowerBlock(Unit(cs, f.ret), Scope(Names(f), []), [], n, f.body);
      && (low.Some? <==> AdmitsStmts(Unit(cs, f.ret), Names(f), false, false, f.body))
      && (low.Some? ==> ReadyStmts(ParamSet(f.params), false, OptStmts(h, low.value.stmts)))
      && (Compile(cs, h, n, f).Some? <==>
            low.Some? && ReadyStmts(ParamSet(f.params), true, OptStmts(h, low.value.stmts)))
  {
    hide AdmitsConsts, AdmitsStmts, LowerBlock, Offers, ReadyStmts, EmitFunction, OptStmts;
    var u, sc := Unit(cs, f.ret), Scope(Names(f), []);
    NoFrames(cs);
    BlockLowers(u, sc, [], n, f.body);
    var low := LowerBlock(u, sc, [], n, f.body);
    if low.Some? {
      StartOffers(cs, f, false);
      BlockReady(u, sc, [], n, f.body, ParamSet(f.params), false);
      OptStmtsReady(h, ParamSet(f.params), false, low.value.stmts);
      FunctionEmits(UserNames(f.params), f.ret, OptStmts(h, low.value.stmts));
    }
  }

  // The limits only forbid

  lemma {:induction false} Within(cs: seq<Const>, limit: nat, names: seq<string>, inZone: bool, e: SExpr)
    requires limit <= |cs| && Admits(cs, limit, names, inZone, true, e)
    ensures Admits(cs, limit, names, inZone, false, e)
    decreases e, 1
  {
    match e
    case SUnary(_, a) => Within(cs, limit, names, inZone, a);
    case SBinary(_, _, l, r) => Within(cs, limit, names, inZone, l); Within(cs, limit, names, inZone, r);
    case SIfExpr(c, t, f) =>
      Within(cs, limit, names, inZone, c);
      Within(cs, limit, names, inZone, t);
      Within(cs, limit, names, inZone, f);
    case SCall(_, _, args) => ArgsWithin(cs, limit, names, inZone, args);
    case SField(a, _) => Within(cs, limit, names, inZone, a);
    case SOk(a) => Within(cs, limit, names, inZone, a);
    case _ =>
  }

  lemma {:induction false} ArgsWithin(cs: seq<Const>, limit: nat, names: seq<string>, inZone: bool, args: seq<SExpr>)
    requires limit <= |cs| && AdmitsArgs(cs, limit, names, inZone, true, args)
    ensures AdmitsArgs(cs, limit, names, inZone, false, args)
    decreases args, 0
  {
    if args != [] {
      Within(cs, limit, names, inZone, args[0]);
      ArgsWithin(cs, limit, names, inZone, args[1..]);
    }
  }

  lemma {:induction false} ConstsWithin(cs: seq<Const>)
    requires AdmitsConsts(cs, true)
    ensures AdmitsConsts(cs, false)
  {
    forall k | 0 <= k < |cs|
      ensures Admits(cs, k, [], false, false, cs[k].init)
    {
      Within(cs, k, [], false, cs[k].init);
    }
  }

  lemma {:induction false} StmtsWithin(u: Unit, names: seq<string>, inZone: bool, ss: seq<SStmt>)
    requires AdmitsStmts(u, names, inZone, true, ss)
    ensures AdmitsStmts(u, names, inZone, false, ss)
    decreases ss, 0
  {
    hide AdmitsStmt;
    if ss != [] {
      StmtWithin(u, names, inZone, ss[0]);
      if !ss[0].SReturn? {
        StmtsWithin(u, Binds(ss[0]) + names, inZone, ss[1..]);
      }
    }
  }

  lemma {:induction false} StmtWithin(u: Unit, names: seq<string>, inZone: bool, s: SStmt)
    requires AdmitsStmt(u, names, inZone, true, s)
    ensures AdmitsStmt(u, names, inZone, false, s)
    decreases s, 1
  {
    hide Admits;
    var cs, n := u.cs, |u.cs|;
    match s
    case SLet(_, _, _, e) => Within(cs, n, names, inZone, e);
    case SAssign(_, e) => Within(cs, n, names, inZone, e);
    case SReturn(e) => if e.Some? { Within(cs, n, names, inZone, e.value); }
    case SExprStmt(e) => Within(cs, n, names, inZone, e);
    case SFree(e) => Within(cs, n, names, inZone, e);
    case SDefer(d) => Within(cs, n, names, inZone, d.e);
    case STry(_, _, e) => Within(cs, n, names, inZone, e);
    case SZone(body) => StmtsWithin(u, names, true, body);
    case SIfThen(c, t) =>
      Within(cs, n, names, inZone, c);
      StmtsWithin(u, names, inZone, t);
    case SIfElse(c, t, f) =>
      Within(cs, n, names, inZone, c);
      StmtsWithin(u, names, inZone, t);
      StmtsWithin(u, names, inZone, f);
    case SWhile(c, body) =>
      Within(cs, n, names, inZone, c);
      StmtsWithin(u, names, inZone, body);
    case SLoop(body) => StmtsWithin(u, names, inZone, body);
    case SFor(x, a, b, body) =>
      Within(cs, n, names, inZone, a);
      Within(cs, n, names, inZone, b);
      StmtsWithin(u, [x] + names, inZone, body);
  }
}
