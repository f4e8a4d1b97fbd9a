/** Every label of an emitted function is defined once and every branch target is defined. */
module BackendLabels {
  import opened Ir
  import opened Values
  import opened Machine
  import opened Backend

  /** How often the stream defines label l. */
  function Defs(code: seq<Instr>, l: nat): nat {
    if code == [] then 0 else (if code[0] == Label(l) then 1 else 0) + Defs(code[1..], l)
  }

  predicate Targets(i: Instr, l: nat) {
    (i.Br? && i.l == l) || (i.CondBr? && (i.l == l || i.other == l))
  }

  /** Whether the stream branches to l. */
  predicate Uses(code: seq<Instr>, l: nat) {
    exists i :: 0 <= i < |code| && Targets(code[i], l)
  }

  /** l is defined at most once, only if allocated here, and if used then defined. */
  predicate Fits(code: seq<Instr>, l: nat, lo: nat, hi: nat) {
    && Defs(code, l) <= 1
    && (Defs(code, l) == 1 ==> lo <= l < hi)
    && (Uses(code, l) ==> Defs(code, l) == 1)
  }

  lemma {:induction false} Append(a: seq<Instr>, b: seq<Instr>, l: nat)
    ensures Defs(a + b, l) == Defs(a, l) + Defs(b, l)
    ensures Uses(a + b, l) <==> Uses(a, l) || Uses(b, l)
    decreases a
  {
    AppendDefs(a, b, l);
    if Uses(a, l) {
      var i :| 0 <= i < |a| && Targets(a[i], l);
      assert Targets((a + b)[i], l);
    }
    if Uses(b, l) {
      var i :| 0 <= i < |b| && Targets(b[i], l);
      assert Targets((a + b)[|a| + i], l);
    }
  }

  lemma {:induction false} AppendDefs(a: seq<Instr>, b: seq<Instr>, l: nat)
    ensures Defs(a + b, l) == Defs(a, l) + Defs(b, l)
    decreases a
  {
    if a == [] {
      assert a + b == b;
    } else {
      assert (a + b)[0] == a[0] && (a + b)[1..] == a[1..] + b;
      AppendDefs(a[1..], b, l);
    }
  }

  predicate Plain(i: Instr) { !i.Label? && !i.Br? && !i.CondBr? }

  lemma {:induction false} PlainLabels(code: seq<Instr>, l: nat)
    requires forall i :: 0 <= i < |code| ==> Plain(code[i])
    ensures Defs(code, l) == 0 && !Uses(code, l)
    decreases code
  {
    if code != [] {
      PlainLabels(code[1..], l);
    }
  }

  lemma {:induction false} One(i: Instr, l: nat)
    ensures Defs([i], l) == (if i == Label(l) then 1 else 0)
    ensures Uses([i], l) <==> Targets(i, l)
  {
    assert [i][1..] == [];
    assert Uses([i], l) <==> Targets([i][0], l);
  }

  lemma {:induction false} Two(i: Instr, j: Instr, l: nat)
    ensures Defs([i, j], l) == (if i == Label(l) then 1 else 0) + (if j == Label(l) then 1 else 0)
    ensures Uses([i, j], l) <==> Targets(i, l) || Targets(j, l)
  {
    assert [i, j] == [i] + [j];
    Append([i], [j], l);
    One(i, l);
    One(j, l);
  }

  lemma {:induction false} EqualityPlain(c: Counters, t: Type, a: Operand, b: Operand)
    requires EmitEquality(c, t, a, b).Some?
    ensures forall i :: 0 <= i < |EmitEquality(c, t, a, b).value.code| ==> Plain(EmitEquality(c, t, a, b).value.code[i])
    decreases t
  {
    if t.TResult? {
      EqualityPlain(Temps(c, 5), t.inner, Reg(c.temp + 3), Reg(c.temp + 4));
    }
  }

  lemma {:induction false} ExprLabels(slots: Slots, c: Counters, e: Expr, l: nat)
    requires EmitExpr(slots, c, e).Some?
    ensures Fits(EmitExpr(slots, c, e).value.code, l, c.lab, EmitExpr(slots, c, e).value.next.lab)
    decreases e, 1
  {
    hide Defs, Uses, Fits;
    match e
    case Unary(_, _) => TailLabels(slots, c, e, l);
    case Binary(op, _, _, _) =>
      if op.And? || op.Or? {
        ShortCircuitLabels(slots, c, e, l);
      } else {
        StrictLabels(slots, c, e, l);
      }
    case IfExpr(_, _, _) => IfExprLabels(slots, c, e, l);
    case Call(_, _, _) => TailLabels(slots, c, e, l);
    case Field(_, _) => TailLabels(slots, c, e, l);
    case Ok(_) => TailLabels(slots, c, e, l);
    case _ => LeafLabels(slots, c, e, l);
  }

  lemma {:induction false} LeafLabels(slots: Slots, c: Counters, e: Expr, l: nat)
    requires e.Int? || e.Bool? || e.Str? || e.Local? || e.Err? || e.ZAlloc?
    requires EmitExpr(slots, c, e).Some?
    ensures Fits(EmitExpr(slots, c, e).value.code, l, c.lab, EmitExpr(slots, c, e).value.next.lab)
  {
    hide Defs, Uses;
    PlainLabels(EmitExpr(slots, c, e).value.code, l);
  }

  /** Code that ends in plain instructions. */
  lemma {:induction false} FitsPlain(a: seq<Instr>, b: seq<Instr>, l: nat, lo: nat, hi: nat)
    requires Fits(a, l, lo, hi) && forall i :: 0 <= i < |b| ==> Plain(b[i])
    ensures Fits(a + b, l, lo, hi)
  {
    hide Defs, Uses;
    Append(a, b, l);
    PlainLabels(b, l);
  }

  lemma {:induction false} FitsBoth(a: seq<Instr>, b: seq<Instr>, l: nat, lo: nat, mid: nat, hi: nat)
    requires Fits(a, l, lo, mid) && Fits(b, l, mid, hi) && lo <= mid <= hi
    ensures Fits(a + b, l, lo, hi)
  {
    hide Defs, Uses;
    Append(a, b, l);
  }

  lemma {:induction false} TailLabels(slots: Slots, c: Counters, e: Expr, l: nat)
    requires e.Unary? || e.Call? || e.Field? || e.Ok?
    requires EmitExpr(slots, c, e).Some?
    ensures Fits(EmitExpr(slots, c, e).value.code, l, c.lab, EmitExpr(slots, c, e).value.next.lab)
    decreases e, 0, 1
  {
    hide Defs, Uses, Fits;
    var code := EmitExpr(slots, c, e).value.code;
    var first := match e
      case Unary(_, a) => EmitExpr(slots, c, a).value.code
      case Call(_, _, args) => EmitArgs(slots, c, args).value.code
      case Field(_, _) => EmitAddress(slots, c, e).value.code
      case Ok(a) => EmitExpr(slots, c, a).value.code;
    match e {
      case Unary(_, a) => ExprLabels(slots, c, a, l);
      case Call(_, _, args) => ArgsLabels(slots, c, args, l);
      case Field(_, _) => AddressLabels(slots, c, e, l);
      case Ok(a) => ExprLabels(slots, c, a, l);
    }
    assert code == first + code[|first|..];
    FitsPlain(first, code[|first|..], l, c.lab, EmitExpr(slots, c, e).value.next.lab);
  }

  lemma {:induction false} StrictLabels(slots: Slots, c: Counters, e: Expr, l: nat)
    requires e.Binary? && !e.bop.And? && !e.bop.Or? && EmitExpr(slots, c, e).Some?
    ensures Fits(EmitExpr(slots, c, e).value.code, l, c.lab, EmitExpr(slots, c, e).value.next.lab)
    decreases e, 0
  {
    hide Defs, Uses, Fits, EmitEquality;
    var v := EmitExpr(slots, c, e.left).value;
    var w := EmitExpr(slots, v.next, e.right).value;
    var r := EmitOperator(w.next, e.bop, e.operands, v.out, w.out).value;
    ExprLabels(slots, c, e.left, l);
    ExprLabels(slots, v.next, e.right, l);
    if e.bop.Equal? || e.bop.NotEqual? {
      EqualityPlain(w.next, e.operands, v.out, w.out);
    }
    FitsPlain(w.code, r.code, l, v.next.lab, w.next.lab);
    FitsBoth(v.code, w.code + r.code, l, c.lab, v.next.lab, w.next.lab);
  }

  lemma {:induction false} AddressLabels(slots: Slots, c: Counters, e: Expr, l: nat)
    requires EmitAddress(slots, c, e).Some?
    ensures Fits(EmitAddress(slots, c, e).value.code, l, c.lab, EmitAddress(slots, c, e).value.next.lab)
    decreases e, if e.Field? then 0 else 2, 0
  {
    hide Defs, Uses, EmitExpr;
    if e.Field? {
      AddressLabels(slots, c, e.base, l);
      var a := EmitAddress(slots, c, e.base).value;
      FitsPlain(a.code, [Gep(a.next.temp, a.ptr, e.field)], l, c.lab, a.next.lab);
    } else if e.Local? {
      PlainLabels([], l);
    } else {
      ExprLabels(slots, c, e, l);
      var v := EmitExpr(slots, c, e).value;
      FitsPlain(v.code, Spill(v.out, v.next.temp), l, c.lab, v.next.lab);
    }
  }

  lemma {:induction false} ArgsLabels(slots: Slots, c: Counters, args: seq<Expr>, l: nat)
    requires EmitArgs(slots, c, args).Some?
    ensures Fits(EmitArgs(slots, c, args).value.code, l, c.lab, EmitArgs(slots, c, args).value.next.lab)
    decreases args, 0
  {
    hide Defs, Uses, EmitExpr;
    if args == [] {
      PlainLabels([], l);
    } else {
      var v := EmitExpr(slots, c, args[0]).value;
      var rest := EmitArgs(slots, v.next, args[1..]).value;
      ExprLabels(slots, c, args[0], l);
      ArgsLabels(slots, v.next, args[1..], l);
      FitsBoth(v.code, rest.code, l, c.lab, v.next.lab, rest.next.lab);
    }
  }

  /** The labels and targets of the pieces with branches. */
  lemma {:induction false} PieceLabels(v: Operand, cell: nat, n: nat, a: nat, b: nat, next: nat, l: nat)
    ensures Defs(BranchTo(v, a, b, next), l) == (if l == next then 1 else 0)
    ensures Uses(BranchTo(v, a, b, next), l) <==> l == a || l == b
    ensures Defs(StoreAndGo(v, cell, a), l) == 0
    ensures Uses(StoreAndGo(v, cell, a), l) <==> l == a
    ensures Defs(Join(cell, a, n), l) == (if l == a then 1 else 0)
    ensures !Uses(Join(cell, a, n), l)
    ensures Defs(JumpInto(a), l) == (if l == a then 1 else 0)
    ensures Uses(JumpInto(a), l) <==> l == a
  {
    hide Defs, Uses;
    Two(CondBr(v, a, b), Label(next), l);
    Two(Store(v, cell), Br(a), l);
    Two(Label(a), Load(n, cell), l);
    Two(Br(a), Label(a), l);
  }

  lemma {:induction false} ShortCircuitLabels(slots: Slots, c: Counters, e: Expr, l: nat)
    requires e.Binary? && EmitShortCircuit(slots, c, e).Some?
    ensures Fits(EmitShortCircuit(slots, c, e).value.code, l, c.lab, EmitShortCircuit(slots, c, e).value.next.lab)
    decreases e, 0
  {
    hide Defs, Uses, EmitExpr, BranchTo, StoreAndGo, Join;
    var cell, rhs, short, merge := c.temp, c.lab, c.lab + 1, c.lab + 2;
    var c1 := Labels(Temps(c, 1), 3);
    var v := EmitExpr(slots, c1, e.left).value;
    var w := EmitExpr(slots, v.next, e.right).value;
    var n := w.next.temp;
    ExprLabels(slots, c1, e.left, l);
    ExprLabels(slots, v.next, e.right, l);
    var branch := if e.bop.And? then BranchTo(v.out, rhs, short, rhs) else BranchTo(v.out, short, rhs, rhs);
    var k := ConstBool(!e.bop.And?);
    PieceLabels(v.out, cell, n, rhs, short, rhs, l);
    PieceLabels(v.out, cell, n, short, rhs, rhs, l);
    PieceLabels(w.out, cell, n, merge, merge, merge, l);
    PieceLabels(k, cell, n, merge, merge, merge, l);
    One(Alloca(cell), l);
    One(Label(short), l);
    var p6 := StoreAndGo(k, cell, merge) + Join(cell, merge, n);
    var p5 := [Label(short)] + p6;
    var p4 := StoreAndGo(w.out, cell, merge) + p5;
    var p3 := w.code + p4;
    var p2 := branch + p3;
    var p1 := v.code + p2;
    Append(StoreAndGo(k, cell, merge), Join(cell, merge, n), l);
    Append([Label(short)], p6, l);
    Append(StoreAndGo(w.out, cell, merge), p5, l);
    Append(w.code, p4, l);
    Append(branch, p3, l);
    Append(v.code, p2, l);
    Append([Alloca(cell)], p1, l);
  }

  lemma {:induction false} IfExprLabels(slots: Slots, c: Counters, e: Expr, l: nat)
    requires e.IfExpr? && EmitIfExpr(slots, c, e).Some?
    ensures Fits(EmitIfExpr(slots, c, e).value.code, l, c.lab, EmitIfExpr(slots, c, e).value.next.lab)
    decreases e, 0
  {
    hide Defs, Uses, EmitExpr, BranchTo, StoreAndGo, Join;
    var cell, yes, no, merge := c.temp, c.lab, c.lab + 1, c.lab + 2;
    var c1 := Labels(Temps(c, 1), 3);
    var v := EmitExpr(slots, c1, e.cond).value;
    var t := EmitExpr(slots, v.next, e.thenExpr).value;
    var f := EmitExpr(slots, t.next, e.elseExpr).value;
    var n := f.next.temp;
    ExprLabels(slots, c1, e.cond, l);
    ExprLabels(slots, v.next, e.thenExpr, l);
    ExprLabels(slots, t.next, e.elseExpr, l);
    PieceLabels(v.out, cell, n, yes, no, yes, l);
    PieceLabels(t.out, cell, n, merge, merge, merge, l);
    PieceLabels(f.out, cell, n, merge, merge, merge, l);
    One(Alloca(cell), l);
    One(Label(no), l);
    var p7 := StoreAndGo(f.out, cell, merge) + Join(cell, merge, n);
    var p6 := f.code + p7;
    var p5 := [Label(no)] + p6;
    var p4 := StoreAndGo(t.out, cell, merge) + p5;
    var p3 := t.code + p4;
    var p2 := BranchTo(v.out, yes, no, yes) + p3;
    var p1 := v.code + p2;
    Append(StoreAndGo(f.out, cell, merge), Join(cell, merge, n), l);
    Append(f.code, p7, l);
    Append([Label(no)], p6, l);
    Append(StoreAndGo(t.out, cell, merge), p5, l);
    Append(t.code, p4, l);
    Append(BranchTo(v.out, yes, no, yes), p3, l);
    Append(v.code, p2, l);
    Append([Alloca(cell)], p1, l);
  }

  lemma {:induction false} StmtsLabels(slots: Slots, c: Counters, ss: seq<Stmt>, l: nat)
    requires EmitStmts(slots, c, ss).Some?
    ensures Fits(EmitStmts(slots, c, ss).value.code, l, c.lab, EmitStmts(slots, c, ss).value.next.lab)
    decreases ss, 0
  {
    hide Defs, Uses, EmitStmt;
    if ss == [] {
      PlainLabels([], l);
    } else {
      var (pre, c1) := Reopen(c);
      var s := EmitStmt(slots, c1, ss[0]).value;
      var rest := EmitStmts(s.slots, s.next, ss[1..]).value;
      StmtLabels(slots, c1, ss[0], l);
      StmtsLabels(s.slots, s.next, ss[1..], l);
      FitsBoth(s.code, rest.code, l, c1.lab, s.next.lab, rest.next.lab);
      if c.terminated {
        One(Label(c.lab), l);
      } else {
        PlainLabels([], l);
      }
      FitsBoth(pre, s.code + rest.code, l, c.lab, c1.lab, rest.next.lab);
    }
  }

  lemma {:induction false} StmtLabels(slots: Slots, c: Counters, s: Stmt, l: nat)
    requires EmitStmt(slots, c, s).Some?
    ensures Fits(EmitStmt(slots, c, s).value.code, l, c.lab, EmitStmt(slots, c, s).value.next.lab)
    decreases s, 1
  {
    hide Defs, Uses, Fits;
    match s
    case Zone(z, body) =>
      var n := c.temp;
      StmtsLabels([Slot(z, n)] + slots, Temps(c, 2), body, l);
      var b := EmitStmts([Slot(z, n)] + slots, Temps(c, 2), body).value;
      PlainFits(ZoneOpen(n), l, c.lab);
      FitsBoth(ZoneOpen(n), b.code, l, c.lab, c.lab, b.next.lab);
    case Loop(_) => LoopLabels(slots, c, s, l);
    case IfThen(_, _) => IfLabels(slots, c, s, l);
    case IfElse(_, _, _) => IfLabels(slots, c, s, l);
    case While(_, _) => WhileLabels(slots, c, s, l);
    case For(_, _, _, _) => ForLabels(slots, c, s, l);
    case _ => SimpleLabels(slots, c, s, l);
  }

  lemma {:induction false} PlainFits(code: seq<Instr>, l: nat, lo: nat)
    requires forall i :: 0 <= i < |code| ==> Plain(code[i])
    ensures Fits(code, l, lo, lo)
  {
    PlainLabels(code, l);
  }

  lemma {:induction false} SimpleLabels(slots: Slots, c: Counters, s: Stmt, l: nat)
    requires s.Let? || s.Assign? || s.Return? || s.ExprStmt? || s.Free?
    requires EmitStmt(slots, c, s).Some?
    ensures Fits(EmitStmt(slots, c, s).value.code, l, c.lab, EmitStmt(slots, c, s).value.next.lab)
  {
    hide Defs, Uses, Fits, EmitExpr;
    if s.Return? && s.result.None? {
      PlainFits([Ret(Void)], l, c.lab);
    } else {
      var e := match s
        case Let(_, e) => e
        case Assign(_, e) => e
        case Return(r) => r.value
        case ExprStmt(e) => e
        case Free(e) => e;
      ExprLabels(slots, c, e, l);
      var v := EmitExpr(slots, c, e).value;
      var tail := match s
        case Let(_, _) => Spill(v.out, v.next.temp)
        case Assign(x, _) => [Store(v.out, SlotOf(slots, x).value)]
        case Return(_) => [Ret(v.out)]
        case ExprStmt(_) => []
        case Free(_) => [FreeCall(v.out)];
      FitsPlain(v.code, tail, l, c.lab, v.next.lab);
      assert v.code + [] == v.code;
    }
  }

  lemma {:induction false} BrIfOpenLabels(c: Counters, m: nat, l: nat)
    ensures Defs(BrIfOpen(c, m), l) == 0
    ensures Uses(BrIfOpen(c, m), l) ==> l == m
  {
    hide Defs, Uses;
    if c.terminated {
      PlainLabels([], l);
    } else {
      One(Br(m), l);
    }
  }

  lemma {:induction false} LoopLabels(slots: Slots, c: Counters, s: Stmt, l: nat)
    requires s.Loop? && EmitStmt(slots, c, s).Some?
    ensures Fits(EmitStmt(slots, c, s).value.code, l, c.lab, EmitStmt(slots, c, s).value.next.lab)
    decreases s, 0
  {
    hide Defs, Uses, EmitStmts, JumpInto, BrIfOpen;
    var top, end := c.lab, c.lab + 1;
    var b := EmitStmts(slots, Labels(c, 2), s.body).value;
    StmtsLabels(slots, Labels(c, 2), s.body, l);
    PieceLabels(Void, 0, 0, top, top, top, l);
    BrIfOpenLabels(b.next, top, l);
    One(Label(end), l);
    var closing := BrIfOpen(b.next, top) + [Label(end)];
    Append(BrIfOpen(b.next, top), [Label(end)], l);
    Append(b.code, closing, l);
    Append(JumpInto(top), b.code + closing, l);
  }

  lemma {:induction false} WhileLabels(slots: Slots, c: Counters, s: Stmt, l: nat)
    requires s.While? && EmitWhile(slots, c, s).Some?
    ensures Fits(EmitWhile(slots, c, s).value.code, l, c.lab, EmitWhile(slots, c, s).value.next.lab)
    decreases s, 0
  {
    hide Defs, Uses, EmitExpr, EmitStmts, JumpInto, BrIfOpen, BranchTo;
    var top, body, end := c.lab, c.lab + 1, c.lab + 2;
    var v := EmitExpr(slots, Labels(c, 3), s.cond).value;
    var b := EmitStmts(slots, v.next, s.body).value;
    ExprLabels(slots, Labels(c, 3), s.cond, l);
    StmtsLabels(slots, v.next, s.body, l);
    PieceLabels(Void, 0, 0, top, top, top, l);
    PieceLabels(v.out, 0, 0, body, end, body, l);
    BrIfOpenLabels(b.next, top, l);
    One(Label(end), l);
    var closing := BrIfOpen(b.next, top) + [Label(end)];
    var branch := BranchTo(v.out, body, end, body);
    Append(BrIfOpen(b.next, top), [Label(end)], l);
    Append(b.code, closing, l);
    Append(branch, b.code + closing, l);
    Append(v.code, branch + (b.code + closing), l);
    Append(JumpInto(top), v.code + (branch + (b.code + closing)), l);
  }

  lemma {:induction false} IfLabels(slots: Slots, c: Counters, s: Stmt, l: nat)
    requires (s.IfThen? || s.IfElse?) && EmitIf(slots, c, s).Some?
    ensures Fits(EmitIf(slots, c, s).value.code, l, c.lab, EmitIf(slots, c, s).value.next.lab)
    decreases s, 0
  {
    hide Defs, Uses, EmitExpr, EmitStmts, BrIfOpen, BranchTo;
    var yes, no, merge := c.lab, c.lab + 1, c.lab + 2;
    var v := EmitExpr(slots, Labels(c, 3), s.cond).value;
    var t := EmitStmts(slots, v.next, s.thenBlock).value;
    ExprLabels(slots, Labels(c, 3), s.cond, l);
    StmtsLabels(slots, v.next, s.thenBlock, l);
    BrIfOpenLabels(t.next, merge, l);
    One(Label(merge), l);
    var other := if s.IfThen? then merge else no;
    PieceLabels(v.out, 0, 0, yes, other, yes, l);
    var tail := [Label(merge)];
    if s.IfElse? {
      var f := EmitStmts(slots, Open(t.next), s.elseBlock).value;
      StmtsLabels(slots, Open(t.next), s.elseBlock, l);
      BrIfOpenLabels(f.next, merge, l);
      One(Label(no), l);
      var closing := BrIfOpen(f.next, merge) + [Label(merge)];
      Append(BrIfOpen(f.next, merge), [Label(merge)], l);
      Append(f.code, closing, l);
      Append([Label(no)], f.code + closing, l);
      tail := [Label(no)] + (f.code + closing);
    }
    var toMerge := BrIfOpen(t.next, merge);
    Append(toMerge, tail, l);
    Append(t.code, toMerge + tail, l);
    Append(BranchTo(v.out, yes, other, yes), t.code + (toMerge + tail), l);
    Append(v.code, BranchTo(v.out, yes, other, yes) + (t.code + (toMerge + tail)), l);
  }

  lemma {:induction false} ForStepLabels(c: Counters, iter: nat, top: nat, l: nat)
    ensures Defs(ForStep(c, iter, top).0, l) == 0
    ensures Uses(ForStep(c, iter, top).0, l) ==> l == top
  {
    hide Defs, Uses;
    var n := c.temp;
    if c.terminated {
      PlainLabels([], l);
    } else {
      PlainLabels(ForNext(n, iter), l);
      PieceLabels(Reg(n + 1), iter, 0, top, top, top, l);
      Append(ForNext(n, iter), StoreAndGo(Reg(n + 1), iter, top), l);
    }
  }

  lemma {:induction false} ForLabels(slots: Slots, c: Counters, s: Stmt, l: nat)
    requires s.For? && EmitFor(slots, c, s).Some?
    ensures Fits(EmitFor(slots, c, s).value.code, l, c.lab, EmitFor(slots, c, s).value.next.lab)
    decreases s, 0
  {
    hide Defs, Uses, EmitExpr, EmitStmts, JumpInto, BranchTo, ForStep;
    var iter, limit := c.temp, c.temp + 1;
    var top, body, end := c.lab, c.lab + 1, c.lab + 2;
    var c1 := Labels(Temps(c, 2), 3);
    var a := EmitExpr(slots, c1, s.start).value;
    var b := EmitExpr(slots, a.next, s.end).value;
    var n := b.next.temp;
    var inner := EmitStmts([Slot(s.name, iter)] + slots, Temps(b.next, 3), s.body).value;
    var (step, last) := ForStep(inner.next, iter, top);
    assert last.lab == inner.next.lab by { ForStepKeepsLabel(inner.next, iter, top); }
    ExprLabels(slots, c1, s.start, l);
    ExprLabels(slots, a.next, s.end, l);
    StmtsLabels([Slot(s.name, iter)] + slots, Temps(b.next, 3), s.body, l);
    ForStepLabels(inner.next, iter, top, l);
    PieceLabels(Void, 0, 0, top, top, top, l);
    PieceLabels(Reg(n + 2), 0, 0, body, end, body, l);
    PlainLabels([Alloca(iter), Alloca(limit)], l);
    PlainLabels(ForInit(a.out, b.out, iter, limit), l);
    PlainLabels(ForTest(iter, limit, n), l);
    One(Label(end), l);
    var p7 := step + [Label(end)];
    var p6 := inner.code + p7;
    var p5 := BranchTo(Reg(n + 2), body, end, body) + p6;
    var p4 := ForTest(iter, limit, n) + p5;
    var p3 := JumpInto(top) + p4;
    var p2 := ForInit(a.out, b.out, iter, limit) + p3;
    Append(step, [Label(end)], l);
    Append(inner.code, p7, l);
    Append(BranchTo(Reg(n + 2), body, end, body), p6, l);
    Append(ForTest(iter, limit, n), p5, l);
    Append(JumpInto(top), p4, l);
    Append(ForInit(a.out, b.out, iter, limit), p3, l);
    Append(b.code, p2, l);
    Append(a.code, b.code + p2, l);
    Append([Alloca(iter), Alloca(limit)], a.code + (b.code + p2), l);
  }

  lemma ForStepKeepsLabel(c: Counters, iter: nat, top: nat)
    ensures ForStep(c, iter, top).1.lab == c.lab
  {
  }

  lemma {:induction false} ParamsPlain(names: seq<Name>, i: nat)
    requires i <= |names|
    ensures forall k :: 0 <= k < |EmitParams(names, i).0| ==> Plain(EmitParams(names, i).0[k])
    decreases i
  {
    if i != 0 {
      ParamsPlain(names, i - 1);
    }
  }

  /** No label of a function is defined twice, and every branch goes to a defined label. */
  lemma {:induction false} FunctionLabels(names: seq<Name>, ret: Type, body: seq<Stmt>, l: nat)
    requires EmitFunction(names, ret, body).Some?
    ensures Defs(EmitFunction(names, ret, body).value, l) <= 1
    ensures Uses(EmitFunction(names, ret, body).value, l) ==> Defs(EmitFunction(names, ret, body).value, l) == 1
  {
    hide Defs, Uses, EmitStmts, EmitParams;
    var (entry, slots) := EmitParams(names, |names|);
    var b := EmitStmts(slots, Counters(|names|, 0, false), body).value;
    var last := if b.next.terminated then [] else if ret.TVoid? then [Ret(Void)] else [Unreachable];
    ParamsPlain(names, |names|);
    StmtsLabels(slots, Counters(|names|, 0, false), body, l);
    FitsPlain(b.code, last, l, 0, b.next.lab);
    PlainLabels(entry, l);
    Append(entry, b.code + last, l);
  }

  /** Labels defined at most once are found where they stand. */
  lemma {:induction false} FoundWhereDefined(code: seq<Instr>, l: nat, i: nat)
    requires i < |code| && code[i] == Label(l) && Defs(code, l) <= 1
    ensures FindLabel(code, l) == Some(i)
    decreases code
  {
    if i != 0 {
      if code[0] == Label(l) {
        DefsPositive(code[1..], l, i - 1);
      }
      FoundWhereDefined(code[1..], l, i - 1);
    }
  }

  lemma {:induction false} DefsPositive(code: seq<Instr>, l: nat, i: nat)
    requires i < |code| && code[i] == Label(l)
    ensures Defs(code, l) >= 1
    decreases code
  {
    if i != 0 {
      DefsPositive(code[1..], l, i - 1);
    }
  }
}
