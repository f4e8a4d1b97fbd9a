/** Which IR the backend has code for: locals in scope, at most 32 arguments (4 for a builtin) and
    no equality at void (src/backend/llvm_text.c:1149-1290, 2589-2651, 2653-3103). */
module Emittable {
  import opened Ir
  import opened Optimizer
  import opened Machine
  import opened Backend
  import opened Operators

  predicate TakesArgs(target: Target, n: nat) { if target.Builtin? then n <= 4 else n <= 32 }

  /** Every local is one of ns; with `limits`, calls and equalities have code. */
  predicate Ready(ns: set<Name>, limits: bool, e: Expr)
    decreases e, 1
  {
    match e
    case Int(_) => true
    case Bool(_) => true
    case Str(_) => true
    case Local(x) => x in ns
    case Unary(_, a) => Ready(ns, limits, a)
    case Binary(op, t, l, r) =>
      Ready(ns, limits, l) && Ready(ns, limits, r) && (limits && (op.Equal? || op.NotEqual?) ==> Comparable(t))
    case IfExpr(c, t, f) => Ready(ns, limits, c) && Ready(ns, limits, t) && Ready(ns, limits, f)
    case Call(target, _, args) => ReadyArgs(ns, limits, args) && (limits ==> TakesArgs(target, |args|))
    case Field(base, _) => Ready(ns, limits, base)
    case Ok(a) => Ready(ns, limits, a)
    case Err(t) => t.TResult?
    case ZAlloc(_, z) => z in ns
  }

  predicate ReadyArgs(ns: set<Name>, limits: bool, args: seq<Expr>)
    decreases args, 0
  {
    args == [] || (Ready(ns, limits, args[0]) && ReadyArgs(ns, limits, args[1..]))
  }

  predicate ReadyStmts(ns: set<Name>, limits: bool, ss: seq<Stmt>)
    decreases ss, 0
  {
    ss == [] || (ReadyStmt(ns, limits, ss[0]) && ReadyStmts(ns + Bound(ss[0]), limits, ss[1..]))
  }

  function Bound(s: Stmt): set<Name> {
    if s.Let? then {s.name} else {}
  }

  predicate ReadyStmt(ns: set<Name>, limits: bool, s: Stmt)
    decreases s, 1
  {
    match s
    case Let(_, e) => Ready(ns, limits, e)
    case Assign(x, e) => x in ns && Ready(ns, limits, e)
    case Return(e) => e.None? || Ready(ns, limits, e.value)
    case ExprStmt(e) => Ready(ns, limits, e)
    case Free(e) => Ready(ns, limits, e)
    case Zone(z, body) => ReadyStmts(ns + {z}, limits, body)
    case IfThen(c, t) => Ready(ns, limits, c) && ReadyStmts(ns, limits, t)
    case IfElse(c, t, f) => Ready(ns, limits, c) && ReadyStmts(ns, limits, t) && ReadyStmts(ns, limits, f)
    case While(c, body) => Ready(ns, limits, c) && ReadyStmts(ns, limits, body)
    case Loop(body) => ReadyStmts(ns, limits, body)
    case For(x, a, b, body) => Ready(ns, limits, a) && Ready(ns, limits, b) && ReadyStmts(ns + {x}, limits, body)
  }

  // The backend fails on nothing else

  function SlotNames(slots: Slots): set<Name> { set i | 0 <= i < |slots| :: slots[i].name }

  lemma SlotPush(slots: Slots, x: Name, r: nat)
    ensures SlotNames([Slot(x, r)] + slots) == SlotNames(slots) + {x}
  {
    var all := [Slot(x, r)] + slots;
    assert all[0].name == x;
    forall i | 0 <= i < |slots|
      ensures slots[i].name in SlotNames(all)
    {
      assert all[i + 1] == slots[i];
    }
  }

  lemma {:induction false} SlotFound(slots: Slots, x: Name)
    ensures SlotOf(slots, x).Some? <==> x in SlotNames(slots)
    decreases slots
  {
    if slots != [] {
      SlotFound(slots[1..], x);
      SlotPush(slots[1..], slots[0].name, slots[0].reg);
      assert [slots[0]] + slots[1..] == slots;
    }
  }

  lemma {:induction false} EqualityEmits(c: Counters, t: Type, a: Operand, b: Operand)
    ensures EmitEquality(c, t, a, b).Some? <==> Comparable(t)
    decreases t
  {
    if t.TResult? {
      EqualityEmits(Temps(c, 5), t.inner, Reg(c.temp + 3), Reg(c.temp + 4));
    }
  }

  lemma {:induction false} ExprEmits(slots: Slots, c: Counters, e: Expr)
    ensures EmitExpr(slots, c, e).Some? <==> Ready(SlotNames(slots), true, e)
    decreases e, 1
  {
    hide SlotNames, EmitEquality, EmitOperator;
    match e
    case Local(x) => SlotFound(slots, x);
    case Unary(_, a) => ExprEmits(slots, c, a);
    case Binary(_, _, _, _) => BinaryEmits(slots, c, e);
    case IfExpr(i, t, f) =>
      ExprEmits(slots, Labels(Temps(c, 1), 3), i);
      var v := EmitExpr(slots, Labels(Temps(c, 1), 3), i);
      if v.Some? {
        ExprEmits(slots, v.value.next, t);
        var w := EmitExpr(slots, v.value.next, t);
        if w.Some? {
          ExprEmits(slots, w.value.next, f);
        }
      }
    case Call(_, _, args) => ArgsEmit(slots, c, args);
    case Field(_, _) => AddressEmits(slots, c, e);
    case Ok(a) => ExprEmits(slots, c, a);
    case ZAlloc(_, z) => SlotFound(slots, z);
    case _ =>
  }

  lemma {:induction false} BinaryEmits(slots: Slots, c: Counters, e: Expr)
    requires e.Binary?
    ensures EmitExpr(slots, c, e).Some? <==> Ready(SlotNames(slots), true, e)
    decreases e, 0
  {
    hide SlotNames, EmitEquality;
    var short := e.bop.And? || e.bop.Or?;
    var c1 := if short then Labels(Temps(c, 1), 3) else c;
    ExprEmits(slots, c1, e.left);
    var v := EmitExpr(slots, c1, e.left);
    if v.Some? {
      ExprEmits(slots, v.value.next, e.right);
      var w := EmitExpr(slots, v.value.next, e.right);
      if w.Some? {
        EqualityEmits(w.value.next, e.operands, v.value.out, w.value.out);
      }
    }
  }

  lemma {:induction false} AddressEmits(slots: Slots, c: Counters, e: Expr)
    ensures EmitAddress(slots, c, e).Some? <==> Ready(SlotNames(slots), true, e)
    decreases e, if e.Field? then 0 else 2
  {
    hide SlotNames;
    if e.Local? {
      SlotFound(slots, e.name);
    } else if e.Field? {
      AddressEmits(slots, c, e.base);
    } else {
      ExprEmits(slots, c, e);
    }
  }

  lemma {:induction false} ArgsEmit(slots: Slots, c: Counters, args: seq<Expr>)
    ensures EmitArgs(slots, c, args).Some? <==> ReadyArgs(SlotNames(slots), true, args)
    decreases args, 0
  {
    hide SlotNames;
    if args != [] {
      ExprEmits(slots, c, args[0]);
      var v := EmitExpr(slots, c, args[0]);
      if v.Some? {
        ArgsEmit(slots, v.value.next, args[1..]);
      }
    }
  }

  lemma {:induction false} StmtsEmit(slots: Slots, c: Counters, ss: seq<Stmt>)
    ensures EmitStmts(slots, c, ss).Some? <==> ReadyStmts(SlotNames(slots), true, ss)
    decreases ss, 0
  {
    hide SlotNames, EmitStmt, ReadyStmt;
    if ss != [] {
      var c1 := Reopen(c).1;
      StmtEmits(slots, c1, ss[0]);
      var s := EmitStmt(slots, c1, ss[0]);
      if s.Some? {
        StmtsEmit(s.value.slots, s.value.next, ss[1..]);
      }
    }
  }

  /** And a statement leaves behind the slot of what it binds. */
  lemma {:induction false} StmtEmits(slots: Slots, c: Counters, s: Stmt)
    ensures EmitStmt(slots, c, s).Some? <==> ReadyStmt(SlotNames(slots), true, s)
    ensures EmitStmt(slots, c, s).Some? ==>
      SlotNames(EmitStmt(slots, c, s).value.slots) == SlotNames(slots) + Bound(s)
    decreases s, 1
  {
    hide SlotNames, EmitExpr, Ready;
    match s
    case Let(x, e) =>
      ExprEmits(slots, c, e);
      var v := EmitExpr(slots, c, e);
      if v.Some? {
        SlotPush(slots, x, v.value.next.temp);
      }
    case Assign(x, e) =>
      SlotFound(slots, x);
      ExprEmits(slots, c, e);
    case Return(e) => if e.Some? { ExprEmits(slots, c, e.value); }
    case ExprStmt(e) => ExprEmits(slots, c, e);
    case Free(e) => ExprEmits(slots, c, e);
    case Zone(z, body) =>
      SlotPush(slots, z, c.temp);
      StmtsEmit([Slot(z, c.temp)] + slots, Temps(c, 2), body);
    case IfThen(_, _) => IfEmits(slots, c, s);
    case IfElse(_, _, _) => IfEmits(slots, c, s);
    case While(e, body) =>
      ExprEmits(slots, Labels(c, 3), e);
      var v := EmitExpr(slots, Labels(c, 3), e);
      if v.Some? {
        StmtsEmit(slots, v.value.next, body);
      }
    case Loop(body) => StmtsEmit(slots, Labels(c, 2), body);
    case For(_, _, _, _) => ForEmits(slots, c, s);
  }

  lemma {:induction false} IfEmits(slots: Slots, c: Counters, s: Stmt)
    requires s.IfThen? || s.IfElse?
    ensures EmitIf(slots, c, s).Some? <==> ReadyStmt(SlotNames(slots), true, s)
    decreases s, 0
  {
    hide SlotNames, EmitExpr, Ready;
    ExprEmits(slots, Labels(c, 3), s.cond);
    var v := EmitExpr(slots, Labels(c, 3), s.cond);
    if v.Some? {
      StmtsEmit(slots, v.value.next, s.thenBlock);
      var t := EmitStmts(slots, v.value.next, s.thenBlock);
      if t.Some? && s.IfElse? {
        StmtsEmit(slots, Open(t.value.next), s.elseBlock);
      }
    }
  }

  lemma {:induction false} ForEmits(slots: Slots, c: Counters, s: Stmt)
    requires s.For?
    ensures EmitFor(slots, c, s).Some? <==> ReadyStmt(SlotNames(slots), true, s)
    decreases s, 0
  {
    hide SlotNames, EmitExpr, Ready;
    var c1 := Labels(Temps(c, 2), 3);
    ExprEmits(slots, c1, s.start);
    var a := EmitExpr(slots, c1, s.start);
    if a.Some? {
      ExprEmits(slots, a.value.next, s.end);
      var b := EmitExpr(slots, a.value.next, s.end);
      if b.Some? {
        SlotPush(slots, s.name, c.temp);
        StmtsEmit([Slot(s.name, c.temp)] + slots, Temps(b.value.next, 3), s.body);
      }
    }
  }

  lemma {:induction false} ParamSlots(names: seq<Name>, i: nat)
    requires i <= |names|
    ensures SlotNames(EmitParams(names, i).1) == set k | 0 <= k < i :: names[k]
    decreases i
  {
    if i != 0 {
      ParamSlots(names, i - 1);
      SlotPush(EmitParams(names, i - 1).1, names[i - 1], i - 1);
    }
  }

  /** A function has code if and only if its body reads parameters and what it binds, within the
      limits. */
  lemma {:induction false} FunctionEmits(names: seq<Name>, ret: Type, body: seq<Stmt>)
    ensures EmitFunction(names, ret, body).Some? <==> ReadyStmts(set k | 0 <= k < |names| :: names[k], true, body)
  {
    hide EmitStmts, ReadyStmts;
    ParamSlots(names, |names|);
    StmtsEmit(EmitParams(names, |names|).1, Counters(|names|, 0, false), body);
  }

  // The optimizer keeps code compilable

  lemma {:induction false} OptReady(h: Host, ns: set<Name>, limits: bool, e: Expr)
    requires Ready(ns, limits, e)
    ensures Ready(ns, limits, OptExpr(h, e))
    decreases e, 1
  {
    match e
    case Unary(_, a) => OptReady(h, ns, limits, a);
    case Binary(_, _, l, r) => OptReady(h, ns, limits, l); OptReady(h, ns, limits, r);
    case IfExpr(c, t, f) =>
      OptReady(h, ns, limits, c);
      OptReady(h, ns, limits, t);
      OptReady(h, ns, limits, f);
    case Call(_, _, args) => OptArgsReady(h, ns, limits, args);
    case Field(a, _) => OptReady(h, ns, limits, a);
    case Ok(a) => OptReady(h, ns, limits, a);
    case _ =>
  }

  lemma {:induction false} OptArgsReady(h: Host, ns: set<Name>, limits: bool, args: seq<Expr>)
    requires ReadyArgs(ns, limits, args)
    ensures ReadyArgs(ns, limits, OptArgs(h, args))
    decreases args, 0
  {
    if args != [] {
      OptReady(h, ns, limits, args[0]);
      OptArgsReady(h, ns, limits, args[1..]);
      assert OptArgs(h, args)[1..] == OptArgs(h, args[1..]);
    }
  }

  lemma {:induction false} OptStmtsReady(h: Host, ns: set<Name>, limits: bool, ss: seq<Stmt>)
    requires ReadyStmts(ns, limits, ss)
    ensures ReadyStmts(ns, limits, OptStmts(h, ss))
    decreases ss, 0
  {
    hide ReadyStmt, OptStmt;
    if ss != [] {
      OptStmtReady(h, ns, limits, ss[0]);
      OptStmtsReady(h, ns + Bound(ss[0]), limits, ss[1..]);
      assert OptStmts(h, ss)[1..] == if ss[0].Return? then [] else OptStmts(h, ss[1..]);
    }
  }

  lemma {:induction false} OptStmtReady(h: Host, ns: set<Name>, limits: bool, s: Stmt)
    requires ReadyStmt(ns, limits, s)
    ensures ReadyStmt(ns, limits, OptStmt(h, s)) && Bound(OptStmt(h, s)) == Bound(s)
    decreases s, 1
  {
    hide Ready, OptExpr;
    match s
    case Let(_, e) => OptReady(h, ns, limits, e);
    case Assign(_, e) => OptReady(h, ns, limits, e);
    case Return(e) => if e.Some? { OptReady(h, ns, limits, e.value); }
    case ExprStmt(e) => OptReady(h, ns, limits, e);
    case Free(e) => OptReady(h, ns, limits, e);
    case Zone(z, body) => OptStmtsReady(h, ns + {z}, limits, body);
    case IfThen(c, t) =>
      OptReady(h, ns, limits, c);
      OptStmtsReady(h, ns, limits, t);
    case IfElse(c, t, f) =>
      OptReady(h, ns, limits, c);
      OptStmtsReady(h, ns, limits, t);
      OptStmtsReady(h, ns, limits, f);
    case While(c, body) =>
      OptReady(h, ns, limits, c);
      OptStmtsReady(h, ns, limits, body);
    case Loop(body) => OptStmtsReady(h, ns, limits, body);
    case For(x, a, b, body) =>
      OptReady(h, ns, limits, a);
      OptReady(h, ns, limits, b);
      OptStmtsReady(h, ns + {x}, limits, body);
  }

  // Code that follows code

  lemma {:induction false} ReadyMore(ns: set<Name>, ns': set<Name>, limits: bool, e: Expr)
    requires Ready(ns, limits, e) && ns <= ns'
    ensures Ready(ns', limits, e)
    decreases e, 1
  {
    match e
    case Unary(_, a) => ReadyMore(ns, ns', limits, a);
    case Binary(_, _, l, r) => ReadyMore(ns, ns', limits, l); ReadyMore(ns, ns', limits, r);
    case IfExpr(c, t, f) =>
      ReadyMore(ns, ns', limits, c);
      ReadyMore(ns, ns', limits, t);
      ReadyMore(ns, ns', limits, f);
    case Call(_, _, args) => ReadyArgsMore(ns, ns', limits, args);
    case Field(a, _) => ReadyMore(ns, ns', limits, a);
    case Ok(a) => ReadyMore(ns, ns', limits, a);
    case _ =>
  }

  lemma {:induction false} ReadyArgsMore(ns: set<Name>, ns': set<Name>, limits: bool, args: seq<Expr>)
    requires ReadyArgs(ns, limits, args) && ns <= ns'
    ensures ReadyArgs(ns', limits, args)
    decreases args, 0
  {
    if args != [] {
      ReadyMore(ns, ns', limits, args[0]);
      ReadyArgsMore(ns, ns', limits, args[1..]);
    }
  }

  /** Cleanup binds nothing, so what follows it sees the same names. */
  lemma {:induction false} ReadyAfter(ns: set<Name>, limits: bool, a: seq<Stmt>, b: seq<Stmt>)
    requires ReadyStmts(ns, limits, a) && ReadyStmts(ns, limits, b)
    requires forall i :: 0 <= i < |a| ==> Bound(a[i]) == {}
    ensures ReadyStmts(ns, limits, a + b)
    decreases a
  {
    hide ReadyStmt;
    if a == [] {
      assert a + b == b;
    } else {
      assert ns + Bound(a[0]) == ns;
      ReadyAfter(ns, limits, a[1..], b);
      assert (a + b)[1..] == a[1..] + b;
    }
  }
}
