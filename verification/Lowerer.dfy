/** Lowering as the compiler runs it: statements are pushed onto IR blocks, deferred
    statements onto the frame of their block, and the index of generated names counts up.
    Each method builds exactly what its function in Lowering gives. */
module Lowerer {
  import opened Ir
  import opened Source
  import opened Lowering

  /** Statements before a lowered rest. */
  function Prepend(ss: seq<Stmt>, rest: Option<Lowered>): Option<Lowered> {
    if rest.None? then None else Some(Lowered(ss + rest.value.stmts, rest.value.next))
  }

  function PrependStmts(ss: seq<Stmt>, rest: Option<seq<Stmt>>): Option<seq<Stmt>> {
    if rest.None? then None else Some(ss + rest.value)
  }

  lemma Glue(a: seq<Stmt>, b: seq<Stmt>, c: seq<Stmt>)
    ensures (a + b) + c == a + (b + c)
  {
  }

  lemma {:induction false} PrependTwice(a: seq<Stmt>, b: seq<Stmt>, rest: Option<Lowered>)
    ensures Prepend(a, Prepend(b, rest)) == Prepend(a + b, rest)
  {
    if rest.Some? {
      Glue(a, b, rest.value.stmts);
    }
  }

  lemma {:induction false} PrependNothing(rest: Option<Lowered>)
    ensures Prepend([], rest) == rest
  {
    if rest.Some? {
      assert [] + rest.value.stmts == rest.value.stmts;
    }
  }

  lemma PrependEnd(a: seq<Stmt>, b: seq<Stmt>, n: nat)
    ensures Prepend(a, Some(Lowered(b, n))) == Some(Lowered(a + b, n))
  {
  }

  lemma RestEnd(u: Unit, sc: Scope, frames: seq<StaticFrame>, n: nat)
    requires frames != []
    ensures
      var own := LowerFrame(u.cs, frames[0]);
      LowerRest(u, sc, frames, n, []) == if own.None? then None else Some(Lowered(own.value, n))
  {
  }

  lemma {:induction false} RestDefer(u: Unit, sc: Scope, own: StaticFrame, parents: seq<StaticFrame>, n: nat,
      ss: seq<SStmt>)
    requires ss != [] && ss[0].SDefer?
    ensures LowerRest(u, sc, [own] + parents, n, ss) ==
      LowerRest(u, sc, [[Captured(ss[0].deferred, sc)] + own] + parents, n, ss[1..])
  {
    assert ([own] + parents)[1..] == parents;
  }

  lemma RestTry(u: Unit, sc: Scope, frames: seq<StaticFrame>, n: nat, ss: seq<SStmt>)
    requires frames != [] && ss != [] && ss[0].STry?
    ensures
      var e, cleanup := Expr1(u, sc, ss[0].init), LowerFrames(u.cs, frames);
      LowerRest(u, sc, frames, n, ss) ==
        if !u.ret.TResult? || e.None? || cleanup.None? then None
        else Prepend(TryStmts(u, ss[0].id, Gen("try", n), e.value, cleanup.value),
          LowerRest(u, After(sc, ss[0]), frames, n + 1, ss[1..]))
  {
  }

  lemma RestReturn(u: Unit, sc: Scope, frames: seq<StaticFrame>, n: nat, ss: seq<SStmt>)
    requires frames != [] && ss != [] && ss[0].SReturn?
    ensures
      var e := if ss[0].result.None? then None else Expr1(u, sc, ss[0].result.value);
      var cleanup := LowerFrames(u.cs, frames);
      LowerRest(u, sc, frames, n, ss) ==
        if cleanup.None? || (ss[0].result.Some? && e.None?) then None else Some(Lowered(cleanup.value + [Return(e)], n))
  {
  }

  lemma RestStep(u: Unit, sc: Scope, frames: seq<StaticFrame>, n: nat, ss: seq<SStmt>)
    requires frames != [] && ss != [] && !ss[0].SDefer? && !ss[0].STry? && !ss[0].SReturn?
    ensures
      var s := LowerStmt(u, sc, frames, n, ss[0]);
      LowerRest(u, sc, frames, n, ss) ==
        if s.None? then None else Prepend(s.value.stmts, LowerRest(u, After(sc, ss[0]), frames, s.value.next, ss[1..]))
  {
  }

  class IrBlock {
    var statements: seq<Stmt>

    constructor ()
      ensures statements == []
    {
      statements := [];
    }

    method Push(s: Stmt)
      modifies this
      ensures statements == old(statements) + [s]
    {
      statements := statements + [s];
    }
  }

  class LowerContext {
    const u: Unit
    var tempIndex: nat

    constructor (u: Unit)
      ensures this.u == u && tempIndex == 0
    {
      this.u := u;
      tempIndex := 0;
    }

    method GeneratedName(prefix: string) returns (x: Name)
      modifies this
      ensures x == Gen(prefix, old(tempIndex)) && tempIndex == old(tempIndex) + 1
    {
      x := Gen(prefix, tempIndex);
      tempIndex := tempIndex + 1;
    }

    /** Copies of one frame's entries, newest first. */
    method EmitLocalDeferredEntries(block: IrBlock, frame: StaticFrame) returns (ok: bool)
      modifies block
      ensures ok <==> LowerFrame(u.cs, frame).Some?
      ensures ok ==> block.statements == old(block.statements) + LowerFrame(u.cs, frame).value
    {
      hide LowerEntry;
      ghost var done: seq<Stmt> := [];
      assert frame[0..] == frame;
      assert LowerFrame(u.cs, frame).Some? ==> [] + LowerFrame(u.cs, frame).value == LowerFrame(u.cs, frame).value;
      for i := 0 to |frame|
        invariant block.statements == old(block.statements) + done
        invariant LowerFrame(u.cs, frame) == PrependStmts(done, LowerFrame(u.cs, frame[i..]))
      {
        assert frame[i..][0] == frame[i] && frame[i..][1..] == frame[i + 1..];
        var s := LowerEntry(u.cs, frame[i]);
        if s.None? {
          return false;
        }
        block.Push(s.value);
        ghost var rest := LowerFrame(u.cs, frame[i + 1..]);
        if rest.Some? {
          Glue(done, [s.value], rest.value);
        }
        done := done + [s.value];
      }
      assert frame[|frame|..] == [];
      assert done + [] == done;
      ok := true;
    }

    /** Copies of every pending entry, innermost frame first. */
    method EmitDeferredEntries(block: IrBlock, frames: seq<StaticFrame>) returns (ok: bool)
      modifies block
      ensures ok <==> LowerFrames(u.cs, frames).Some?
      ensures ok ==> block.statements == old(block.statements) + LowerFrames(u.cs, frames).value
    {
      hide LowerFrame;
      ghost var done: seq<Stmt> := [];
      assert frames[0..] == frames;
      assert LowerFrames(u.cs, frames).Some? ==>
          [] + LowerFrames(u.cs, frames).value == LowerFrames(u.cs, frames).value;
      for i := 0 to |frames|
        invariant block.statements == old(block.statements) + done
        invariant LowerFrames(u.cs, frames) == PrependStmts(done, LowerFrames(u.cs, frames[i..]))
      {
        assert frames[i..][0] == frames[i] && frames[i..][1..] == frames[i + 1..];
        ok := EmitLocalDeferredEntries(block, frames[i]);
        if !ok {
          return;
        }
        ghost var own, rest := LowerFrame(u.cs, frames[i]).value, LowerFrames(u.cs, frames[i + 1..]);
        if rest.Some? {
          Glue(done, own, rest.value);
        }
        Glue(old(block.statements), done, own);
        done := done + own;
      }
      assert frames[|frames|..] == [];
      assert done + [] == done;
      ok := true;
    }

    /** A failing `try` copies every pending cleanup and returns the error. */
    method LowerTryStatement(block: IrBlock, sc: Scope, frames: seq<StaticFrame>, x: string, e: SExpr)
      returns (ok: bool)
      modifies this, block
      ensures ok <==> u.ret.TResult? && Expr1(u, sc, e).Some? && LowerFrames(u.cs, frames).Some?
      ensures ok ==> tempIndex == old(tempIndex) + 1
      ensures ok ==>
        var three := TryStmts(u, x, Gen("try", old(tempIndex)), Expr1(u, sc, e).value, LowerFrames(u.cs, frames).value);
        block.statements == old(block.statements) + three
    {
      hide LowerFrames, Expr1;
      var init := Expr1(u, sc, e);
      if init.None? || !u.ret.TResult? {
        return false;
      }
      var temp := GeneratedName("try");
      block.Push(Let(temp, init.value));
      var exit := new IrBlock();
      ok := EmitDeferredEntries(exit, frames);
      if !ok {
        return;
      }
      exit.Push(Return(Some(Err(u.ret))));
      ghost var cleanup := LowerFrames(u.cs, frames).value;
      assert [] + cleanup == cleanup;
      block.Push(IfThen(Unary(Not, Field(Local(temp), OkField)), exit.statements));
      block.Push(Let(User(x), Field(Local(temp), ValueField)));
    }

    method LowerStatement(sc: Scope, frames: seq<StaticFrame>, s: SStmt) returns (r: Option<Stmt>)
      modifies this
      ensures
        var low := LowerStmt(u, sc, frames, old(tempIndex), s);
        && (r.Some? <==> low.Some?)
        && (r.Some? ==> low.value == Lowered([r.value], tempIndex))
      decreases s, 0
    {
      hide LowerExpr, LowerBlock;
      match s
      case SLet(x, _, _, e) =>
        var e' := Expr1(u, sc, e);
        r := if e'.None? then None else Some(Let(User(x), e'.value));
      case SAssign(x, e) =>
        var e' := Expr1(u, sc, e);
        r := if x !in sc.names || e'.None? then None else Some(Assign(User(x), e'.value));
      case SExprStmt(e) =>
        var e' := Expr1(u, sc, e);
        r := if e'.None? then None else Some(ExprStmt(e'.value));
      case SFree(e) =>
        var e' := Expr1(u, sc, e);
        r := if e'.None? then None else Some(Free(e'.value));
      case SZone(body) => r := LowerZoneStatement(sc, frames, body);
      case SIfThen(c, t) =>
        var c' := Expr1(u, sc, c);
        var t' := LowerBlockStatements(sc, t, frames);
        r := if c'.None? || t'.None? then None else Some(IfThen(c'.value, t'.value));
      case SIfElse(c, t, f) =>
        var c' := Expr1(u, sc, c);
        var t' := LowerBlockStatements(sc, t, frames);
        if c'.None? || t'.None? {
          return None;
        }
        var f' := LowerBlockStatements(sc, f, frames);
        r := if f'.None? then None else Some(IfElse(c'.value, t'.value, f'.value));
      case SWhile(c, body) =>
        var c' := Expr1(u, sc, c);
        var b := LowerBlockStatements(sc, body, frames);
        r := if c'.None? || b.None? then None else Some(While(c'.value, b.value));
      case SLoop(body) =>
        var b := LowerBlockStatements(sc, body, frames);
        r := if b.None? then None else Some(Loop(b.value));
      case SFor(x, a, e, body) =>
        var a' := Expr1(u, sc, a);
        var e' := Expr1(u, sc, e);
        var b := LowerBlockStatements(Scope([x] + sc.names, sc.zones), body, frames);
        r := if a'.None? || e'.None? || b.None? then None else Some(For(User(x), a'.value, e'.value, b.value));
      case SDefer(_) => r := None;
      case STry(_, _, _) => r := None;
      case SReturn(_) => r := None;
    }

    /** The release is pending on every early exit and follows the body otherwise. */
    method LowerZoneStatement(sc: Scope, frames: seq<StaticFrame>, body: seq<SStmt>) returns (r: Option<Stmt>)
      modifies this
      ensures
        var low := LowerStmt(u, sc, frames, old(tempIndex), SZone(body));
        && (r.Some? <==> low.Some?)
        && (r.Some? ==> low.value == Lowered([r.value], tempIndex))
      decreases body, 2
    {
      hide LowerBlock;
      var z := GeneratedName("zone");
      var b := LowerBlockStatements(Scope(sc.names, [z] + sc.zones), body, [[ZoneExit(z)]] + frames);
      r := if b.None? then None else Some(Zone(z, b.value + [ReleaseStmt(z)]));
    }

    method LowerBlockStatements(sc: Scope, ss: seq<SStmt>, parents: seq<StaticFrame>) returns (r: Option<seq<Stmt>>)
      modifies this
      ensures
        var low := LowerBlock(u, sc, parents, old(tempIndex), ss);
        && (r.Some? <==> low.Some?)
        && (r.Some? ==> low.value == Lowered(r.value, tempIndex))
      decreases ss, 1
    {
      hide LowerRest, LowerStmt, LowerFrames, LowerFrame, Expr1, TryStmts;
      var block := new IrBlock();
      var own: StaticFrame := [];
      var scope := sc;
      var i := 0;
      ghost var n0 := tempIndex;
      assert ss[0..] == ss;
      PrependNothing(LowerBlock(u, sc, parents, n0, ss));
      while i < |ss|
        invariant 0 <= i <= |ss| && fresh(block)
        invariant LowerBlock(u, sc, parents, n0, ss) ==
          Prepend(block.statements, LowerRest(u, scope, [own] + parents, tempIndex, ss[i..]))
        decreases |ss| - i
      {
        var s, frames := ss[i], [own] + parents;
        ghost var before, n := block.statements, tempIndex;
        assert ss[i..][0] == s && ss[i..][1..] == ss[i + 1..];
        if s.SDefer? {
          RestDefer(u, scope, own, parents, n, ss[i..]);
          own := [Captured(s.deferred, scope)] + own;
        } else if s.STry? {
          RestTry(u, scope, frames, n, ss[i..]);
          var ok := LowerTryStatement(block, scope, frames, s.id, s.init);
          if !ok {
            return None;
          }
          ghost var three := TryStmts(u, s.id, Gen("try", n), Expr1(u, scope, s.init).value,
            LowerFrames(u.cs, frames).value);
          scope := Scope([s.id] + scope.names, scope.zones);
          PrependTwice(before, three, LowerRest(u, scope, frames, tempIndex, ss[i + 1..]));
        } else if s.SReturn? {
          RestReturn(u, scope, frames, n, ss[i..]);
          var ok := EmitDeferredEntries(block, frames);
          var e := if s.result.None? then None else Expr1(u, scope, s.result.value);
          if !ok || (s.result.Some? && e.None?) {
            return None;
          }
          block.Push(Return(e));
          Glue(before, LowerFrames(u.cs, frames).value, [Return(e)]);
          PrependEnd(before, LowerFrames(u.cs, frames).value + [Return(e)], tempIndex);
          return Some(block.statements);
        } else {
          RestStep(u, scope, frames, n, ss[i..]);
          var s' := LowerStatement(scope, frames, s);
          if s'.None? {
            return None;
          }
          block.Push(s'.value);
          scope := After(scope, s);
          PrependTwice(before, [s'.value], LowerRest(u, scope, frames, tempIndex, ss[i + 1..]));
        }
        i := i + 1;
      }
      assert ss[|ss|..] == [] && ([own] + parents)[0] == own;
      RestEnd(u, scope, [own] + parents, tempIndex);
      ghost var before := block.statements;
      var ok := EmitLocalDeferredEntries(block, own);
      if !ok {
        return None;
      }
      PrependEnd(before, LowerFrame(u.cs, own).value, tempIndex);
      r := Some(block.statements);
    }
  }
}
