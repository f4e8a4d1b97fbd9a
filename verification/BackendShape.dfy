/** Every emitted function is a well-formed control-flow graph: blocks open with a label and
    close with one terminator, each label is defined once, every branch target is defined, and
    registers are numbered in order of definition, each defined before it is used. */
module BackendShape {
  import opened Ir
  import opened Values
  import opened Machine
  import opened Backend

  predicate IsTerminator(i: Instr) { i.Br? || i.CondBr? || i.Ret? || i.Unreachable? }

  /** The register an instruction defines. */
  function Dest(i: Instr): Option<nat> {
    match i
    case Label(_) => None
    case StoreArg(_, _) => None
    case Store(_, _) => None
    case CallFn(dest, _, _) => dest
    case FreeCall(_) => None
    case Br(_) => None
    case CondBr(_, _, _) => None
    case Ret(_) => None
    case Unreachable => None
    case _ => Some(i.r)
  }

  /** Every register an instruction uses is below n. */
  predicate UsesBelow(i: Instr, n: nat) {
    match i
    case StoreArg(_, ptr) => ptr < n
    case Store(v, ptr) => Below(v, n) && ptr < n
    case Load(_, ptr) => ptr < n
    case Neg(_, a) => Below(a, n)
    case Xor(_, a) => Below(a, n)
    case Arith(_, _, a, b) => Below(a, n) && Below(b, n)
    case IcmpEq(_, a, b) => Below(a, n) && Below(b, n)
    case StrCmp(_, a, b) => Below(a, n) && Below(b, n)
    case AndI1(_, a, b) => Below(a, n) && Below(b, n)
    case InsertPayload(_, aggregate, v) => aggregate < n && Below(v, n)
    case Extract(_, v, _) => Below(v, n)
    case Gep(_, ptr, _) => ptr < n
    case CallFn(_, _, args) => forall k :: 0 <= k < |args| ==> Below(args[k], n)
    case PtrToInt(_, src) => src < n
    case ZoneAlloc(_, zone, size) => Below(zone, n) && Below(size, n)
    case FreeCall(v) => Below(v, n)
    case CondBr(v, _, _) => Below(v, n)
    case Ret(v) => Below(v, n)
    case _ => true
  }

  /** Reading the stream: whether a block is open and the next register to be defined. */
  datatype Reader = Reader(open: bool, next: nat)

  function Read1(s: Reader, i: Instr): Option<Reader> {
    if i.Label? then (if s.open then None else Some(Reader(true, s.next)))
    else if !s.open || !UsesBelow(i, s.next) then None
    else if IsTerminator(i) then Some(Reader(false, s.next))
    else if Dest(i).None? then Some(s)
    else if Dest(i) == Some(s.next) then Some(Reader(true, s.next + 1))
    else None
  }

  /** None if the stream breaks a rule. */
  function Read(s: Reader, code: seq<Instr>): Option<Reader>
    decreases code
  {
    if code == [] then Some(s)
    else
      var t :- Read1(s, code[0]);
      Read(t, code[1..])
  }

  lemma {:induction false} ReadAppend(s: Reader, a: seq<Instr>, b: seq<Instr>)
    requires Read(s, a).Some?
    ensures Read(s, a + b) == Read(Read(s, a).value, b)
    decreases a
  {
    if a == [] {
      assert a + b == b;
    } else {
      assert (a + b)[1..] == a[1..] + b;
      ReadAppend(Read1(s, a[0]).value, a[1..], b);
    }
  }

  lemma ReadNone(s: Reader)
    ensures Read(s, []) == Some(s)
  {
  }

  lemma {:induction false} ReadOne(s: Reader, i: Instr, e: Reader)
    requires Read1(s, i) == Some(e)
    ensures Read(s, [i]) == Some(e)
  {
    assert [i][1..] == [];
  }

  lemma {:induction false} Read2(s: Reader, i: Instr, m: Reader, j: Instr, e: Reader)
    requires Read1(s, i) == Some(m) && Read1(m, j) == Some(e)
    ensures Read(s, [i, j]) == Some(e)
  {
    assert [i, j][1..] == [j];
    ReadOne(m, j, e);
  }

  lemma {:induction false} Read3(s: Reader, i: Instr, m: Reader, j: Instr, m': Reader, k: Instr, e: Reader)
    requires Read1(s, i) == Some(m) && Read1(m, j) == Some(m') && Read1(m', k) == Some(e)
    ensures Read(s, [i, j, k]) == Some(e)
  {
    assert [i, j, k][1..] == [j, k];
    Read2(m, j, m', k, e);
  }

  /** a, then b: the usual way two pieces of code are read. */
  lemma {:induction false} ReadThen(s: Reader, a: seq<Instr>, m: Reader, b: seq<Instr>, e: Reader)
    requires Read(s, a) == Some(m) && Read(m, b) == Some(e)
    ensures Read(s, a + b) == Some(e)
  {
    ReadAppend(s, a, b);
  }

  predicate SlotsBelow(slots: Slots, n: nat) {
    forall i :: 0 <= i < |slots| ==> slots[i].reg < n
  }

  /** An open block, n registers defined. */
  function At(n: nat): Reader { Reader(true, n) }

  /** A closed block: only a label may follow. */
  function Shut(n: nat): Reader { Reader(false, n) }

  lemma {:induction false} BranchReads(n: nat, v: Operand, l: nat, other: nat, next: nat)
    requires Below(v, n)
    ensures Read(At(n), BranchTo(v, l, other, next)) == Some(At(n))
  {
    Read2(At(n), CondBr(v, l, other), Shut(n), Label(next), At(n));
  }

  lemma {:induction false} StoreAndGoReads(n: nat, v: Operand, cell: nat, l: nat)
    requires Below(v, n) && cell < n
    ensures Read(At(n), StoreAndGo(v, cell, l)) == Some(Shut(n))
  {
    Read2(At(n), Store(v, cell), At(n), Br(l), Shut(n));
  }

  lemma {:induction false} JoinReads(n: nat, cell: nat, merge: nat)
    requires cell < n
    ensures Read(Shut(n), Join(cell, merge, n)) == Some(At(n + 1))
  {
    Read2(Shut(n), Label(merge), At(n), Load(n, cell), At(n + 1));
  }

  lemma {:induction false} SpillReads(n: nat, v: Operand)
    requires Below(v, n)
    ensures Read(At(n), Spill(v, n)) == Some(At(n + 1))
  {
    Read2(At(n), Alloca(n), At(n + 1), Store(v, n), At(n + 1));
  }

  lemma {:induction false} JumpIntoReads(n: nat, l: nat)
    ensures Read(At(n), JumpInto(l)) == Some(At(n))
  {
    Read2(At(n), Br(l), Shut(n), Label(l), At(n));
  }

  lemma {:induction false} ResultPartsRead(n: nat, a: Operand, b: Operand)
    requires Below(a, n) && Below(b, n)
    ensures Read(At(n), FlagsEqual(n, a, b)) == Some(At(n + 3))
    ensures Read(At(n), Payloads(n, a, b)) == Some(At(n + 2))
  {
    hide Read;
    Read3(At(n), Extract(n, a, OkField), At(n + 1), Extract(n + 1, b, OkField), At(n + 2),
      IcmpEq(n + 2, Reg(n), Reg(n + 1)), At(n + 3));
    Read2(At(n), Extract(n, a, ValueField), At(n + 1), Extract(n + 1, b, ValueField), At(n + 2));
  }

  lemma {:induction false} EqualityReads(c: Counters, t: Type, a: Operand, b: Operand)
    requires EmitEquality(c, t, a, b).Some? && Below(a, c.temp) && Below(b, c.temp)
    ensures Read(At(c.temp), EmitEquality(c, t, a, b).value.code) == Some(At(EmitEquality(c, t, a, b).value.next.temp))
    decreases t
  {
    hide Read;
    var n := c.temp;
    if t.TStr? {
      Read2(At(n), StrCmp(n, a, b), At(n + 1), IcmpEq(n + 1, Reg(n), ConstInt(0)), At(n + 2));
    } else if t.TResult? {
      var eq := EmitEquality(Temps(c, 5), t.inner, Reg(n + 3), Reg(n + 4)).value;
      EqualityReads(Temps(c, 5), t.inner, Reg(n + 3), Reg(n + 4));
      ResultEqualityReads(n, a, b, eq);
    } else {
      ReadOne(At(n), IcmpEq(n, a, b), At(n + 1));
    }
  }

  lemma {:induction false} ResultEqualityReads(n: nat, a: Operand, b: Operand, eq: Emitted)
    requires Below(a, n) && Below(b, n) && n + 5 < eq.next.temp && eq.out == Reg(eq.next.temp - 1)
    requires Read(At(n + 5), eq.code) == Some(At(eq.next.temp))
    ensures
      var and := AndI1(eq.next.temp, Reg(n + 2), eq.out);
      Read(At(n), FlagsEqual(n, a, b) + (Payloads(n + 3, a, b) + (eq.code + [and]))) == Some(At(eq.next.temp + 1))
  {
    hide Read, FlagsEqual, Payloads;
    var m := eq.next.temp;
    var and := AndI1(m, Reg(n + 2), eq.out);
    ReadOne(At(m), and, At(m + 1));
    ResultPartsRead(n, a, b);
    ResultPartsRead(n + 3, a, b);
    ReadThen(At(n + 5), eq.code, At(m), [and], At(m + 1));
    ReadThen(At(n + 3), Payloads(n + 3, a, b), At(n + 5), eq.code + [and], At(m + 1));
    ReadThen(At(n), FlagsEqual(n, a, b), At(n + 3), Payloads(n + 3, a, b) + (eq.code + [and]), At(m + 1));
  }

  lemma {:induction false} OperatorReads(c: Counters, op: BinaryOp, t: Type, a: Operand, b: Operand)
    requires EmitOperator(c, op, t, a, b).Some? && Below(a, c.temp) && Below(b, c.temp)
    ensures Read(At(c.temp), EmitOperator(c, op, t, a, b).value.code) ==
      Some(At(EmitOperator(c, op, t, a, b).value.next.temp))
  {
    hide Read, EmitEquality;
    if op.Equal? {
      EqualityReads(c, t, a, b);
    } else if op.NotEqual? {
      EqualityReads(c, t, a, b);
      var eq := EmitEquality(c, t, a, b).value;
      var n := eq.next.temp;
      ReadOne(At(n), Xor(n, eq.out), At(n + 1));
      ReadThen(At(c.temp), eq.code, At(n), [Xor(n, eq.out)], At(n + 1));
    } else {
      ReadOne(At(c.temp), Arith(c.temp, op, a, b), At(c.temp + 1));
    }
  }

  lemma {:induction false} ExprReads(slots: Slots, c: Counters, e: Expr)
    requires EmitExpr(slots, c, e).Some? && SlotsBelow(slots, c.temp)
    ensures Read(At(c.temp), EmitExpr(slots, c, e).value.code) == Some(At(EmitExpr(slots, c, e).value.next.temp))
    decreases e, 1
  {
    hide Read, Read1;
    match e
    case Unary(_, _) => UnaryReads(slots, c, e);
    case Binary(op, _, _, _) =>
      if op.And? || op.Or? {
        ShortCircuitReads(slots, c, e);
      } else {
        StrictReads(slots, c, e);
      }
    case IfExpr(_, _, _) => IfExprReads(slots, c, e);
    case Call(_, _, _) => CallReads(slots, c, e);
    case Field(_, _) => FieldReads(slots, c, e);
    case Ok(_) => OkReads(slots, c, e);
    case _ => LeafReads(slots, c, e);
  }

  lemma {:induction false} ZAllocReads(n: nat, t: Type, p: nat)
    requires p < n
    ensures Read(At(n), SizeOf(n, t) + [Load(n + 2, p), ZoneAlloc(n + 3, Reg(n + 2), Reg(n + 1))]) == Some(At(n + 4))
  {
    hide Read;
    Read2(At(n), SizeGep(n, t), At(n + 1), PtrToInt(n + 1, n), At(n + 2));
    Read2(At(n + 2), Load(n + 2, p), At(n + 3), ZoneAlloc(n + 3, Reg(n + 2), Reg(n + 1)), At(n + 4));
    ReadThen(At(n), SizeOf(n, t), At(n + 2), [Load(n + 2, p), ZoneAlloc(n + 3, Reg(n + 2), Reg(n + 1))], At(n + 4));
  }

  lemma {:induction false} LeafReads(slots: Slots, c: Counters, e: Expr)
    requires e.Int? || e.Bool? || e.Str? || e.Local? || e.Err? || e.ZAlloc?
    requires EmitExpr(slots, c, e).Some? && SlotsBelow(slots, c.temp)
    ensures Read(At(c.temp), EmitExpr(slots, c, e).value.code) == Some(At(EmitExpr(slots, c, e).value.next.temp))
  {
    hide Read;
    var n := c.temp;
    match e
    case Str(s) => ReadOne(At(n), StrAddr(n, s), At(n + 1));
    case Local(x) => ReadOne(At(n), Load(n, SlotOf(slots, x).value), At(n + 1));
    case Err(t) => ReadOne(At(n), InsertFlag(n, false, Zero(t.inner)), At(n + 1));
    case ZAlloc(t, z) => ZAllocReads(n, t, SlotOf(slots, z).value);
    case _ => ReadNone(At(n));
  }

  lemma {:induction false} UnaryReads(slots: Slots, c: Counters, e: Expr)
    requires e.Unary? && EmitExpr(slots, c, e).Some? && SlotsBelow(slots, c.temp)
    ensures Read(At(c.temp), EmitExpr(slots, c, e).value.code) == Some(At(EmitExpr(slots, c, e).value.next.temp))
    decreases e, 0
  {
    hide Read;
    ExprReads(slots, c, e.operand);
    var v := EmitExpr(slots, c, e.operand).value;
    var n := v.next.temp;
    var i := if e.uop.Negate? then Neg(n, v.out) else Xor(n, v.out);
    ReadOne(At(n), i, At(n + 1));
    ReadThen(At(c.temp), v.code, At(n), [i], At(n + 1));
  }

  lemma {:induction false} StrictReads(slots: Slots, c: Counters, e: Expr)
    requires e.Binary? && !e.bop.And? && !e.bop.Or? && EmitExpr(slots, c, e).Some? && SlotsBelow(slots, c.temp)
    ensures Read(At(c.temp), EmitExpr(slots, c, e).value.code) == Some(At(EmitExpr(slots, c, e).value.next.temp))
    decreases e, 0
  {
    hide Read, Read1, EmitOperator;
    var v := EmitExpr(slots, c, e.left).value;
    var w := EmitExpr(slots, v.next, e.right).value;
    var r := EmitOperator(w.next, e.bop, e.operands, v.out, w.out).value;
    ExprReads(slots, c, e.left);
    ExprReads(slots, v.next, e.right);
    OperatorReads(w.next, e.bop, e.operands, v.out, w.out);
    ReadThen(At(v.next.temp), w.code, At(w.next.temp), r.code, At(r.next.temp));
    ReadThen(At(c.temp), v.code, At(v.next.temp), w.code + r.code, At(r.next.temp));
  }

  lemma {:induction false} CallReads(slots: Slots, c: Counters, e: Expr)
    requires e.Call? && EmitExpr(slots, c, e).Some? && SlotsBelow(slots, c.temp)
    ensures Read(At(c.temp), EmitExpr(slots, c, e).value.code) == Some(At(EmitExpr(slots, c, e).value.next.temp))
    decreases e, 0
  {
    hide Read;
    ArgsRead(slots, c, e.args);
    var vs := EmitArgs(slots, c, e.args).value;
    var n := vs.next.temp;
    var call := CallFn(if e.ret.TVoid? then None else Some(n), e.target, vs.outs);
    var end := At(if e.ret.TVoid? then n else n + 1);
    ReadOne(At(n), call, end);
    ReadThen(At(c.temp), vs.code, At(n), [call], end);
  }

  lemma {:induction false} FieldReads(slots: Slots, c: Counters, e: Expr)
    requires e.Field? && EmitExpr(slots, c, e).Some? && SlotsBelow(slots, c.temp)
    ensures Read(At(c.temp), EmitExpr(slots, c, e).value.code) == Some(At(EmitExpr(slots, c, e).value.next.temp))
    decreases e, 0, 1
  {
    hide Read;
    AddressReads(slots, c, e);
    var a := EmitAddress(slots, c, e).value;
    var n := a.next.temp;
    ReadOne(At(n), Load(n, a.ptr), At(n + 1));
    ReadThen(At(c.temp), a.code, At(n), [Load(n, a.ptr)], At(n + 1));
  }

  lemma {:induction false} OkReads(slots: Slots, c: Counters, e: Expr)
    requires e.Ok? && EmitExpr(slots, c, e).Some? && SlotsBelow(slots, c.temp)
    ensures Read(At(c.temp), EmitExpr(slots, c, e).value.code) == Some(At(EmitExpr(slots, c, e).value.next.temp))
    decreases e, 0
  {
    hide Read;
    ExprReads(slots, c, e.inner);
    var v := EmitExpr(slots, c, e.inner).value;
    var m := v.next.temp;
    Read2(At(m), InsertFlag(m, true, VUnit), At(m + 1), InsertPayload(m + 1, m, v.out), At(m + 2));
    ReadThen(At(c.temp), v.code, At(m), [InsertFlag(m, true, VUnit), InsertPayload(m + 1, m, v.out)], At(m + 2));
  }

  /** A result cell, filled on one of two paths and read where they join. */
  lemma {:induction false} JoinTailReads(n: nat, v: Operand, cell: nat, merge: nat)
    requires Below(v, n) && cell < n
    ensures Read(At(n), StoreAndGo(v, cell, merge) + Join(cell, merge, n)) == Some(At(n + 1))
  {
    hide Read, StoreAndGo, Join;
    StoreAndGoReads(n, v, cell, merge);
    JoinReads(n, cell, merge);
    ReadThen(At(n), StoreAndGo(v, cell, merge), Shut(n), Join(cell, merge, n), At(n + 1));
  }

  lemma {:induction false} ShortCircuitReads(slots: Slots, c: Counters, e: Expr)
    requires e.Binary? && EmitShortCircuit(slots, c, e).Some? && SlotsBelow(slots, c.temp)
    ensures Read(At(c.temp), EmitShortCircuit(slots, c, e).value.code) ==
      Some(At(EmitShortCircuit(slots, c, e).value.next.temp))
    decreases e, 0
  {
    hide Read, StoreAndGo, Join, BranchTo, EmitExpr;
    var cell, rhs, short, merge := c.temp, c.lab, c.lab + 1, c.lab + 2;
    var c1 := Labels(Temps(c, 1), 3);
    var v := EmitExpr(slots, c1, e.left).value;
    var w := EmitExpr(slots, v.next, e.right).value;
    var m, n := v.next.temp, w.next.temp;
    ExprReads(slots, c1, e.left);
    ExprReads(slots, v.next, e.right);
    var branch := if e.bop.And? then BranchTo(v.out, rhs, short, rhs) else BranchTo(v.out, short, rhs, rhs);
    var k := ConstBool(!e.bop.And?);
    var tail := StoreAndGo(k, cell, merge) + Join(cell, merge, n);
    ReadOne(At(cell), Alloca(cell), At(cell + 1));
    BranchReads(m, v.out, rhs, short, rhs);
    BranchReads(m, v.out, short, rhs, rhs);
    StoreAndGoReads(n, w.out, cell, merge);
    ReadOne(Shut(n), Label(short), At(n));
    JoinTailReads(n, k, cell, merge);
    ReadThen(Shut(n), [Label(short)], At(n), tail, At(n + 1));
    ReadThen(At(n), StoreAndGo(w.out, cell, merge), Shut(n), [Label(short)] + tail, At(n + 1));
    ReadThen(At(m), w.code, At(n), StoreAndGo(w.out, cell, merge) + ([Label(short)] + tail), At(n + 1));
    ReadThen(At(m), branch, At(m), w.code + (StoreAndGo(w.out, cell, merge) + ([Label(short)] + tail)), At(n + 1));
    var rest := branch + (w.code + (StoreAndGo(w.out, cell, merge) + ([Label(short)] + tail)));
    ReadThen(At(cell + 1), v.code, At(m), rest, At(n + 1));
    ReadThen(At(cell), [Alloca(cell)], At(cell + 1), v.code + rest, At(n + 1));
  }

  lemma {:induction false} IfExprReads(slots: Slots, c: Counters, e: Expr)
    requires e.IfExpr? && EmitIfExpr(slots, c, e).Some? && SlotsBelow(slots, c.temp)
    ensures Read(At(c.temp), EmitIfExpr(slots, c, e).value.code) == Some(At(EmitIfExpr(slots, c, e).value.next.temp))
    decreases e, 0
  {
    hide Read, StoreAndGo, Join, BranchTo, EmitExpr;
    var cell, yes, no, merge := c.temp, c.lab, c.lab + 1, c.lab + 2;
    var c1 := Labels(Temps(c, 1), 3);
    var v := EmitExpr(slots, c1, e.cond).value;
    var t := EmitExpr(slots, v.next, e.thenExpr).value;
    var f := EmitExpr(slots, t.next, e.elseExpr).value;
    var l, m, n := v.next.temp, t.next.temp, f.next.temp;
    ExprReads(slots, c1, e.cond);
    ExprReads(slots, v.next, e.thenExpr);
    ExprReads(slots, t.next, e.elseExpr);
    var tail := StoreAndGo(f.out, cell, merge) + Join(cell, merge, n);
    ReadOne(At(cell), Alloca(cell), At(cell + 1));
    BranchReads(l, v.out, yes, no, yes);
    StoreAndGoReads(m, t.out, cell, merge);
    ReadOne(Shut(m), Label(no), At(m));
    JoinTailReads(n, f.out, cell, merge);
    ReadThen(At(m), f.code, At(n), tail, At(n + 1));
    ReadThen(Shut(m), [Label(no)], At(m), f.code + tail, At(n + 1));
    ReadThen(At(m), StoreAndGo(t.out, cell, merge), Shut(m), [Label(no)] + (f.code + tail), At(n + 1));
    var rest := StoreAndGo(t.out, cell, merge) + ([Label(no)] + (f.code + tail));
    ReadThen(At(l), t.code, At(m), rest, At(n + 1));
    ReadThen(At(l), BranchTo(v.out, yes, no, yes), At(l), t.code + rest, At(n + 1));
    ReadThen(At(cell + 1), v.code, At(l), BranchTo(v.out, yes, no, yes) + (t.code + rest), At(n + 1));
    ReadThen(At(cell), [Alloca(cell)], At(cell + 1), v.code + (BranchTo(v.out, yes, no, yes) + (t.code + rest)),
      At(n + 1));
  }

  lemma {:induction false} AddressReads(slots: Slots, c: Counters, e: Expr)
    requires EmitAddress(slots, c, e).Some? && SlotsBelow(slots, c.temp)
    ensures
      var a := EmitAddress(slots, c, e).value;
      Read(At(c.temp), a.code) == Some(At(a.next.temp)) && a.ptr < a.next.temp
    decreases e, if e.Field? then 0 else 2, 0
  {
    hide Read, EmitExpr, Spill;
    if e.Field? {
      AddressReads(slots, c, e.base);
      var a := EmitAddress(slots, c, e.base).value;
      var n := a.next.temp;
      ReadOne(At(n), Gep(n, a.ptr, e.field), At(n + 1));
      ReadThen(At(c.temp), a.code, At(n), [Gep(n, a.ptr, e.field)], At(n + 1));
    } else if e.Local? {
      ReadNone(At(c.temp));
    } else {
      ExprReads(slots, c, e);
      var v := EmitExpr(slots, c, e).value;
      var n := v.next.temp;
      SpillReads(n, v.out);
      ReadThen(At(c.temp), v.code, At(n), Spill(v.out, n), At(n + 1));
    }
  }

  lemma {:induction false} ArgsRead(slots: Slots, c: Counters, args: seq<Expr>)
    requires EmitArgs(slots, c, args).Some? && SlotsBelow(slots, c.temp)
    ensures Read(At(c.temp), EmitArgs(slots, c, args).value.code) == Some(At(EmitArgs(slots, c, args).value.next.temp))
    decreases args, 0
  {
    hide Read, Read1, EmitExpr;
    if args == [] {
      ReadNone(At(c.temp));
    } else {
      var v := EmitExpr(slots, c, args[0]).value;
      var rest := EmitArgs(slots, v.next, args[1..]).value;
      ExprReads(slots, c, args[0]);
      ArgsRead(slots, v.next, args[1..]);
      ReadThen(At(c.temp), v.code, At(v.next.temp), rest.code, At(rest.next.temp));
    }
  }

  /** The reader that the counters describe. */
  function After(c: Counters): Reader { Reader(!c.terminated, c.temp) }

  lemma {:induction false} StmtsRead(slots: Slots, c: Counters, ss: seq<Stmt>)
    requires EmitStmts(slots, c, ss).Some? && SlotsBelow(slots, c.temp)
    ensures Read(After(c), EmitStmts(slots, c, ss).value.code) == Some(After(EmitStmts(slots, c, ss).value.next))
    decreases ss, 0
  {
    hide Read, EmitStmt;
    if ss == [] {
      ReadNone(After(c));
    } else {
      var (pre, c1) := Reopen(c);
      var s := EmitStmt(slots, c1, ss[0]).value;
      var rest := EmitStmts(s.slots, s.next, ss[1..]).value;
      StmtReads(slots, c1, ss[0]);
      StmtsRead(s.slots, s.next, ss[1..]);
      if c.terminated {
        ReadOne(After(c), Label(c.lab), After(c1));
      } else {
        ReadNone(After(c));
      }
      ReadThen(After(c1), s.code, After(s.next), rest.code, After(rest.next));
      ReadThen(After(c), pre, After(c1), s.code + rest.code, After(rest.next));
    }
  }

  lemma {:induction false} StmtReads(slots: Slots, c: Counters, s: Stmt)
    requires EmitStmt(slots, c, s).Some? && SlotsBelow(slots, c.temp) && !c.terminated
    ensures
      var r := EmitStmt(slots, c, s).value;
      Read(After(c), r.code) == Some(After(r.next)) && SlotsBelow(r.slots, r.next.temp)
    decreases s, 1
  {
    hide Read, Read1;
    match s
    case Zone(_, _) => ZoneReads(slots, c, s);
    case Loop(_) => LoopReads(slots, c, s);
    case IfThen(_, _) => IfReads(slots, c, s);
    case IfElse(_, _, _) => IfReads(slots, c, s);
    case While(_, _) => WhileReads(slots, c, s);
    case For(_, _, _, _) => ForReads(slots, c, s);
    case _ => SimpleReads(slots, c, s);
  }

  lemma {:induction false} SimpleReads(slots: Slots, c: Counters, s: Stmt)
    requires s.Let? || s.Assign? || s.Return? || s.ExprStmt? || s.Free?
    requires EmitStmt(slots, c, s).Some? && SlotsBelow(slots, c.temp) && !c.terminated
    ensures
      var r := EmitStmt(slots, c, s).value;
      Read(After(c), r.code) == Some(After(r.next)) && SlotsBelow(r.slots, r.next.temp)
  {
    hide Read, EmitExpr, Spill;
    if s.Return? && s.result.None? {
      ReadOne(After(c), Ret(Void), Shut(c.temp));
    } else {
      var e := match s
        case Let(_, e) => e
        case Assign(_, e) => e
        case Return(r) => r.value
        case ExprStmt(e) => e
        case Free(e) => e;
      ExprReads(slots, c, e);
      var v := EmitExpr(slots, c, e).value;
      var n := v.next.temp;
      if s.Let? {
        SpillReads(n, v.out);
        ReadThen(At(c.temp), v.code, At(n), Spill(v.out, n), At(n + 1));
      } else if !s.ExprStmt? {
        var i := if s.Assign? then Store(v.out,
          SlotOf(slots, s.name).value) else if s.Free? then FreeCall(v.out) else Ret(v.out);
        var end := if s.Return? then Shut(n) else At(n);
        ReadOne(At(n), i, end);
        ReadThen(At(c.temp), v.code, At(n), [i], end);
      }
    }
  }

  lemma {:induction false} ZoneReads(slots: Slots, c: Counters, s: Stmt)
    requires s.Zone? && EmitStmt(slots, c, s).Some? && SlotsBelow(slots, c.temp) && !c.terminated
    ensures
      var r := EmitStmt(slots, c, s).value;
      Read(After(c), r.code) == Some(After(r.next)) && SlotsBelow(r.slots, r.next.temp)
    decreases s, 0
  {
    hide Read, EmitStmts;
    var n := c.temp;
    var b := EmitStmts([Slot(s.zone, n)] + slots, Temps(c, 2), s.body).value;
    StmtsRead([Slot(s.zone, n)] + slots, Temps(c, 2), s.body);
    Read3(At(n), Alloca(n), At(n + 1), ZoneEnter(n + 1), At(n + 2), Store(Reg(n + 1), n), At(n + 2));
    ReadThen(At(n), ZoneOpen(n), At(n + 2), b.code, After(b.next));
  }

  /** The jump out of a body, if it is still open, and the label that follows. */
  lemma {:induction false} CloseReads(c: Counters, l: nat, m: nat)
    ensures Read(After(c), BrIfOpen(c, l) + [Label(m)]) == Some(After(Open(c)))
    ensures Read(After(c), BrIfOpen(c, l)) == Some(Shut(c.temp))
  {
    hide Read;
    ReadOne(Shut(c.temp), Label(m), At(c.temp));
    if c.terminated {
      ReadNone(After(c));
    } else {
      ReadOne(After(c), Br(l), Shut(c.temp));
    }
    ReadThen(After(c), BrIfOpen(c, l), Shut(c.temp), [Label(m)], After(Open(c)));
  }

  lemma {:induction false} LoopReads(slots: Slots, c: Counters, s: Stmt)
    requires s.Loop? && EmitStmt(slots, c, s).Some? && SlotsBelow(slots, c.temp) && !c.terminated
    ensures
      var r := EmitStmt(slots, c, s).value;
      Read(After(c), r.code) == Some(After(r.next)) && SlotsBelow(r.slots, r.next.temp)
    decreases s, 0
  {
    hide Read, Read1, EmitStmts, JumpInto, BrIfOpen;
    var top, end := c.lab, c.lab + 1;
    var b := EmitStmts(slots, Labels(c, 2), s.body).value;
    var closing := BrIfOpen(b.next, top) + [Label(end)];
    StmtsRead(slots, Labels(c, 2), s.body);
    JumpIntoReads(c.temp, top);
    CloseReads(b.next, top, end);
    ReadThen(After(c), b.code, After(b.next), closing, After(Open(b.next)));
    ReadThen(After(c), JumpInto(top), After(c), b.code + closing, After(Open(b.next)));
  }

  lemma {:induction false} IfReads(slots: Slots, c: Counters, s: Stmt)
    requires (s.IfThen? || s.IfElse?) && EmitIf(slots, c, s).Some? && SlotsBelow(slots, c.temp) && !c.terminated
    ensures
      var r := EmitIf(slots, c, s).value;
      Read(After(c), r.code) == Some(After(r.next)) && SlotsBelow(r.slots, r.next.temp)
    decreases s, 0
  {
    hide Read, EmitExpr, EmitStmts, BrIfOpen, BranchTo;
    var r := EmitIf(slots, c, s).value;
    var yes, no, merge := c.lab, c.lab + 1, c.lab + 2;
    var v := EmitExpr(slots, Labels(c, 3), s.cond).value;
    var t := EmitStmts(slots, v.next, s.thenBlock).value;
    ExprReads(slots, Labels(c, 3), s.cond);
    StmtsRead(slots, v.next, s.thenBlock);
    var other := if s.IfThen? then merge else no;
    BranchReads(v.next.temp, v.out, yes, other, yes);
    CloseReads(t.next, merge, merge);
    var tail: seq<Instr>;
    if s.IfThen? {
      tail := BrIfOpen(t.next, merge) + [Label(merge)];
    } else {
      var c2 := Open(t.next);
      var f := EmitStmts(slots, c2, s.elseBlock).value;
      StmtsRead(slots, c2, s.elseBlock);
      CloseReads(f.next, merge, merge);
      var closing := BrIfOpen(f.next, merge) + [Label(merge)];
      ReadOne(Shut(t.next.temp), Label(no), After(c2));
      ReadThen(After(c2), f.code, After(f.next), closing, After(r.next));
      ReadThen(Shut(t.next.temp), [Label(no)], After(c2), f.code + closing, After(r.next));
      ReadThen(After(t.next), BrIfOpen(t.next, merge), Shut(t.next.temp), [Label(no)] + (f.code + closing),
        After(r.next));
      tail := BrIfOpen(t.next, merge) + ([Label(no)] + (f.code + closing));
    }
    ReadThen(After(v.next), t.code, After(t.next), tail, After(r.next));
    ReadThen(After(v.next), BranchTo(v.out, yes, other, yes), After(v.next), t.code + tail, After(r.next));
    ReadThen(After(c), v.code, After(v.next), BranchTo(v.out, yes, other, yes) + (t.code + tail), After(r.next));
  }

  lemma {:induction false} WhileReads(slots: Slots, c: Counters, s: Stmt)
    requires s.While? && EmitWhile(slots, c, s).Some? && SlotsBelow(slots, c.temp) && !c.terminated
    ensures
      var r := EmitWhile(slots, c, s).value;
      Read(After(c), r.code) == Some(After(r.next)) && SlotsBelow(r.slots, r.next.temp)
    decreases s, 0
  {
    hide Read, Read1, EmitExpr, EmitStmts, JumpInto, BrIfOpen, BranchTo;
    var top, body, end := c.lab, c.lab + 1, c.lab + 2;
    var v := EmitExpr(slots, Labels(c, 3), s.cond).value;
    var b := EmitStmts(slots, v.next, s.body).value;
    var last := After(Open(b.next));
    ExprReads(slots, Labels(c, 3), s.cond);
    StmtsRead(slots, v.next, s.body);
    JumpIntoReads(c.temp, top);
    BranchReads(v.next.temp, v.out, body, end, body);
    CloseReads(b.next, top, end);
    var closing := BrIfOpen(b.next, top) + [Label(end)];
    var branch := BranchTo(v.out, body, end, body);
    ReadThen(After(v.next), b.code, After(b.next), closing, last);
    ReadThen(After(v.next), branch, After(v.next), b.code + closing, last);
    ReadThen(After(c), v.code, After(v.next), branch + (b.code + closing), last);
    ReadThen(After(c), JumpInto(top), After(c), v.code + (branch + (b.code + closing)), last);
  }

  lemma {:induction false} ForStepReads(c: Counters, iter: nat, top: nat, end: nat)
    requires iter < c.temp
    ensures
      var (step, last) := ForStep(c, iter, top);
      Read(After(c), step + [Label(end)]) == Some(After(Open(last)))
  {
    hide Read;
    var (step, last) := ForStep(c, iter, top);
    if !c.terminated {
      var n := c.temp;
      Read2(At(n), Load(n, iter), At(n + 1), Arith(n + 1, Add, Reg(n), ConstInt(1)), At(n + 2));
      StoreAndGoReads(n + 2, Reg(n + 1), iter, top);
      ReadThen(At(n), ForNext(n, iter), At(n + 2), StoreAndGo(Reg(n + 1), iter, top), Shut(n + 2));
    } else {
      ReadNone(After(c));
    }
    ReadOne(Shut(last.temp), Label(end), At(last.temp));
    ReadThen(After(c), step, Shut(last.temp), [Label(end)], After(Open(last)));
  }

  /** The straight-line pieces of a range loop. */
  lemma {:induction false} ForPiecesRead(n: nat, a: Operand, b: Operand, iter: nat, limit: nat)
    requires Below(a, n) && Below(b, n) && iter < n && limit < n
    ensures Read(At(n), ForInit(a, b, iter, limit)) == Some(At(n))
    ensures Read(At(n), ForTest(iter, limit, n)) == Some(At(n + 3))
    ensures Read(At(n), [Alloca(n), Alloca(n + 1)]) == Some(At(n + 2))
  {
    hide Read;
    Read2(At(n), Store(a, iter), At(n), Store(b, limit), At(n));
    Read3(At(n), Load(n, iter), At(n + 1), Load(n + 1, limit), At(n + 2), Arith(n + 2, Less, Reg(n), Reg(n + 1)),
      At(n + 3));
    Read2(At(n), Alloca(n), At(n + 1), Alloca(n + 1), At(n + 2));
  }

  lemma {:induction false} ForReads(slots: Slots, c: Counters, s: Stmt)
    requires s.For? && EmitFor(slots, c, s).Some? && SlotsBelow(slots, c.temp) && !c.terminated
    ensures
      var r := EmitFor(slots, c, s).value;
      Read(After(c), r.code) == Some(After(r.next)) && SlotsBelow(r.slots, r.next.temp)
    decreases s, 0
  {
    hide Read, EmitExpr, EmitStmts, JumpInto, BranchTo, ForInit, ForTest, ForStep;
    var iter, limit := c.temp, c.temp + 1;
    var top, body, end := c.lab, c.lab + 1, c.lab + 2;
    var c1 := Labels(Temps(c, 2), 3);
    var a := EmitExpr(slots, c1, s.start).value;
    var b := EmitExpr(slots, a.next, s.end).value;
    var n := b.next.temp;
    var inner := EmitStmts([Slot(s.name, iter)] + slots, Temps(b.next, 3), s.body).value;
    var (step, last) := ForStep(inner.next, iter, top);
    ExprReads(slots, c1, s.start);
    ExprReads(slots, a.next, s.end);
    StmtsRead([Slot(s.name, iter)] + slots, Temps(b.next, 3), s.body);
    ForStepReads(inner.next, iter, top, end);
    Read2(At(iter), Alloca(iter), At(iter + 1), Alloca(limit), At(iter + 2));
    ForPiecesRead(n, a.out, b.out, iter, limit);
    JumpIntoReads(n, top);
    BranchReads(n + 3, Reg(n + 2), body, end, body);
    ForChainReads(c, a, b, inner, step, last);
  }

  /** The pieces of a range loop in a row. */
  lemma {:induction false} ForChainReads(c: Counters, a: Emitted, b: Emitted, inner: EmittedStmt, step: seq<Instr>,
      last: Counters)
    requires Read(At(c.temp), [Alloca(c.temp), Alloca(c.temp + 1)]) == Some(At(c.temp + 2))
    requires Read(At(c.temp + 2), a.code) == Some(At(a.next.temp))
    requires Read(At(a.next.temp), b.code) == Some(At(b.next.temp))
    requires Read(At(b.next.temp), ForInit(a.out, b.out, c.temp, c.temp + 1)) == Some(At(b.next.temp))
    requires Read(At(b.next.temp), JumpInto(c.lab)) == Some(At(b.next.temp))
    requires Read(At(b.next.temp), ForTest(c.temp, c.temp + 1, b.next.temp)) == Some(At(b.next.temp + 3))
    requires Read(At(b.next.temp + 3), BranchTo(Reg(b.next.temp + 2), c.lab + 1, c.lab + 2, c.lab + 1)) ==
      Some(At(b.next.temp + 3))
    requires Read(At(b.next.temp + 3), inner.code) == Some(After(inner.next))
    requires Read(After(inner.next), step + [Label(c.lab + 2)]) == Some(After(Open(last)))
    ensures
      var n := b.next.temp;
      Read(At(c.temp), [Alloca(c.temp), Alloca(c.temp + 1)] + (a.code + (b.code +
        (ForInit(a.out, b.out, c.temp, c.temp + 1) + (JumpInto(c.lab) + (ForTest(c.temp, c.temp + 1, n) +
        (BranchTo(Reg(n + 2), c.lab + 1, c.lab + 2, c.lab + 1) +
        (inner.code + (step + [Label(c.lab + 2)]))))))))) == Some(After(Open(last)))
  {
    hide Read, Read1, JumpInto, BranchTo, ForInit, ForTest;
    var n, z := b.next.temp, After(Open(last));
    var p7 := inner.code + (step + [Label(c.lab + 2)]);
    var p6 := BranchTo(Reg(n + 2), c.lab + 1, c.lab + 2, c.lab + 1) + p7;
    var p5 := ForTest(c.temp, c.temp + 1, n) + p6;
    var p4 := JumpInto(c.lab) + p5;
    var p3 := ForInit(a.out, b.out, c.temp, c.temp + 1) + p4;
    ReadThen(At(n + 3), inner.code, After(inner.next), step + [Label(c.lab + 2)], z);
    ReadThen(At(n + 3), BranchTo(Reg(n + 2), c.lab + 1, c.lab + 2, c.lab + 1), At(n + 3), p7, z);
    ReadThen(At(n), ForTest(c.temp, c.temp + 1, n), At(n + 3), p6, z);
    ReadThen(At(n), JumpInto(c.lab), At(n), p5, z);
    ReadThen(At(n), ForInit(a.out, b.out, c.temp, c.temp + 1), At(n), p4, z);
    ReadThen(At(a.next.temp), b.code, At(n), p3, z);
    ReadThen(At(c.temp + 2), a.code, At(a.next.temp), b.code + p3, z);
    ReadThen(At(c.temp), [Alloca(c.temp), Alloca(c.temp + 1)], At(c.temp + 2), a.code + (b.code + p3), z);
  }

  lemma {:induction false} ParamsRead(names: seq<Name>, i: nat)
    requires i <= |names|
    ensures Read(At(0), EmitParams(names, i).0) == Some(At(i)) && SlotsBelow(EmitParams(names, i).1, i)
    ensures |EmitParams(names, i).1| == i
    decreases i
  {
    hide Read;
    if i == 0 {
      ReadNone(At(0));
    } else {
      ParamsRead(names, i - 1);
      var code := EmitParams(names, i - 1).0;
      Read2(At(i - 1), Alloca(i - 1), At(i), StoreArg(i - 1, i - 1), At(i));
      ReadThen(At(0), code, At(i - 1), [Alloca(i - 1), StoreArg(i - 1, i - 1)], At(i));
    }
  }

  /** The stream of a whole function: it starts in the entry block and ends just after a
      terminator; every block has exactly one, at its end, and the registers are defined in
      order, each before its uses. */
  lemma {:induction false} FunctionReads(names: seq<Name>, ret: Type, body: seq<Stmt>)
    requires EmitFunction(names, ret, body).Some?
    ensures exists n: nat :: Read(At(0), EmitFunction(names, ret, body).value) == Some(Shut(n))
  {
    hide Read, EmitParams, EmitStmts;
    var (entry, slots) := EmitParams(names, |names|);
    var b := EmitStmts(slots, Counters(|names|, 0, false), body).value;
    var last := if b.next.terminated then [] else if ret.TVoid? then [Ret(Void)] else [Unreachable];
    var end := Shut(b.next.temp);
    ParamsRead(names, |names|);
    StmtsRead(slots, Counters(|names|, 0, false), body);
    if !b.next.terminated {
      ReadOne(After(b.next), last[0], end);
    } else {
      ReadNone(end);
    }
    ReadThen(At(|names|), b.code, After(b.next), last, end);
    ReadThen(At(0), entry, At(|names|), b.code + last, end);
  }
}
