/** Emitted expression code computes what the IR expression means: same value, same events. */
module BackendExpr {
  import opened Ir
  import opened Values
  import opened IrSemantics
  import opened Machine
  import opened Backend
  import opened BackendShape
  import opened BackendLabels
  import opened BackendRelation

  /** Code of a piece stands at pc and the state represents env. */
  ghost predicate Ready(p: Program, slots: Slots, c: Counters, pc: nat, code: seq<Instr>, env: Env, regs: Regs,
      mem: Memory) {
    && CodeAt(p.code, pc, code) && OneLabelEach(p.code)
    && SlotsBelow(slots, c.temp) && Holds(env, slots, regs, mem)
  }

  /** After k steps the piece is done, its operand holds the value, and only registers from
      c.temp on and new cells changed. */
  ghost predicate Ran(p: Program, c: Counters, em: Emitted, pc: nat, regs: Regs, mem: Memory, tr: Trace,
      r: EvalResult, k: nat, regs': Regs, mem': Memory) {
    && r.Val?
    && Run(p, Running(pc, regs, mem, tr), k) == Running(pc + |em.code|, regs', mem', r.trace)
    && ValueOf(regs', em.out) == Some(r.value)
    && Keeps(regs, regs', c.temp) && mem <= mem'
  }

  lemma ValueKeeps(regs: Regs, regs': Regs, v: Operand, n: nat)
    requires ValueOf(regs, v).Some? && Below(v, n) && Keeps(regs, regs', n)
    ensures ValueOf(regs', v) == ValueOf(regs, v)
  {
  }

  lemma {:induction false} ValuesKeep(regs: Regs, regs': Regs, vs: seq<Operand>, n: nat)
    requires ValuesOf(regs, vs).Some? && Keeps(regs, regs', n) && forall i :: 0 <= i < |vs| ==> Below(vs[i], n)
    ensures ValuesOf(regs', vs) == ValuesOf(regs, vs)
    decreases vs
  {
    if vs != [] {
      ValueKeeps(regs, regs', vs[0], n);
      ValuesKeep(regs, regs', vs[1..], n);
    }
  }

  lemma {:induction false} ProjectAppend(v: Value, path: seq<FieldName>, f: FieldName)
    requires Project(v, path).Some?
    ensures Project(v, path + [f]) == FieldOf(Project(v, path).value, f)
    decreases path
  {
    if path == [] {
      assert path + [f] == [f] && [f][1..] == [];
      var inner := FieldOf(v, f);
      if inner.Some? {
        assert Project(inner.value, []) == inner;
      }
    } else {
      assert (path + [f])[0] == path[0] && (path + [f])[1..] == path[1..] + [f];
      ProjectAppend(FieldOf(v, path[0]).value, path[1..], f);
    }
  }

  /** One more computed register after a piece that has run. */
  lemma {:induction false} ThenCompute(p: Program, c: Counters, pc: nat, regs: Regs, mem: Memory, tr: Trace,
      tr': Trace, k: nat, regs1: Regs, mem1: Memory, code: seq<Instr>, i: Instr, v: RegValue)
    requires CodeAt(p.code, pc, code + [i]) && Computes(i) && Compute(regs1, mem1, i) == Some(v)
    requires Run(p, Running(pc, regs, mem, tr), k) == Running(pc + |code|, regs1, mem1, tr')
    requires Keeps(regs, regs1, c.temp) && c.temp <= i.r
    ensures Run(p, Running(pc, regs, mem, tr), k + 1) == Running(pc + |code + [i]|, regs1[i.r := v], mem1, tr')
    ensures Keeps(regs, regs1[i.r := v], c.temp) && (v.Data? ==> ValueOf(regs1[i.r := v], Reg(i.r)) == Some(v.v))
  {
    hide Run, Compute;
    CodeSplit(p.code, pc, code, [i]);
    RunCompute(p, pc + |code|, regs1, mem1, tr', i, v);
    RunThen(p, Running(pc, regs, mem, tr), k, Running(pc + |code|, regs1, mem1, tr'), 1,
      Running(pc + |code| + 1, regs1[i.r := v], mem1, tr'));
    KeepsNew(regs, regs1, c.temp, i.r, v);
  }

  /** A single computed register. */
  lemma {:induction false} JustCompute(p: Program, c: Counters, pc: nat, regs: Regs, mem: Memory, tr: Trace, i: Instr,
      v: RegValue)
    requires CodeAt(p.code, pc, [i]) && Computes(i) && Compute(regs, mem, i) == Some(v) && c.temp <= i.r
    ensures Run(p, Running(pc, regs, mem, tr), 1) == Running(pc + 1, regs[i.r := v], mem, tr)
    ensures Keeps(regs, regs[i.r := v], c.temp) && (v.Data? ==> ValueOf(regs[i.r := v], Reg(i.r)) == Some(v.v))
  {
    hide Compute;
    RunCompute(p, pc, regs, mem, tr, i, v);
  }

  lemma {:induction false} EqualityRuns(p: Program, c: Counters, t: Type, a: Operand, b: Operand, pc: nat, regs: Regs,
      mem: Memory, tr: Trace, x: Value, y: Value)
    returns (k: nat, regs': Regs)
    requires EmitEquality(c, t, a, b).Some? && CodeAt(p.code, pc, EmitEquality(c, t, a, b).value.code)
    requires Below(a, c.temp) && Below(b, c.temp) && ValueOf(regs, a) == Some(x) && ValueOf(regs, b) == Some(y)
    requires EqualAt(t, x, y).Some?
    ensures Ran(p, c, EmitEquality(c, t, a, b).value, pc, regs, mem, tr, Val(VBool(EqualAt(t, x, y).value), tr), k,
        regs', mem)
    decreases t
  {
    hide Run, Compute, Keeps;
    var em := EmitEquality(c, t, a, b).value;
    var n := c.temp;
    if t.TStr? {
      var i, j := StrCmp(n, a, b), IcmpEq(n + 1, Reg(n), ConstInt(0));
      var d := Data(VInt(if x.s == y.s then 0 else 1));
      assert em.code == [i] + [j];
      CodeSplit(p.code, pc, [i], [j]);
      StrCmpComputes(regs, mem, n, a, b, x.s, y.s);
      JustCompute(p, c, pc, regs, mem, tr, i, d);
      var regs1 := regs[n := d];
      IcmpComputes(regs1, mem, n + 1, Reg(n), ConstInt(0), d.v, VInt(0));
      ThenCompute(p, c, pc, regs, mem, tr, tr, 1, regs1, mem, [i], j, Data(VBool(x.s == y.s)));
      k, regs' := 2, regs1[n + 1 := Data(VBool(x.s == y.s))];
    } else if t.TResult? {
      k, regs' := ResultEqualityRuns(p, c, t, a, b, pc, regs, mem, tr, x, y);
    } else {
      var d := Data(VBool(EqualAt(t, x, y).value));
      IcmpComputes(regs, mem, n, a, b, x, y);
      JustCompute(p, c, pc, regs, mem, tr, IcmpEq(n, a, b), d);
      k, regs' := 1, regs[n := d];
    }
  }

  lemma {:induction false} ResultEqualityRuns(p: Program, c: Counters, t: Type, a: Operand, b: Operand, pc: nat,
      regs: Regs, mem: Memory, tr: Trace, x: Value, y: Value)
    returns (k: nat, regs': Regs)
    requires t.TResult? && EmitEquality(c, t, a, b).Some? && CodeAt(p.code, pc, EmitEquality(c, t, a, b).value.code)
    requires Below(a, c.temp) && Below(b, c.temp) && ValueOf(regs, a) == Some(x) && ValueOf(regs, b) == Some(y)
    requires EqualAt(t, x, y).Some?
    ensures Ran(p, c, EmitEquality(c, t, a, b).value, pc, regs, mem, tr, Val(VBool(EqualAt(t, x, y).value), tr), k,
        regs', mem)
    decreases t, 0
  {
    hide Run, Compute, FlagsEqual, Payloads, Keeps, ValueOf, CodeAt;
    var n := c.temp;
    var eq := EmitEquality(Temps(c, 5), t.inner, Reg(n + 3), Reg(n + 4)).value;
    var m, v := eq.next.temp, Data(VBool(EqualAt(t, x, y).value));
    var and := AndI1(m, Reg(n + 2), eq.out);
    var parts := FlagsEqual(n, a, b) + Payloads(n + 3, a, b);
    assert EmitEquality(c, t, a, b).value.code == (parts + eq.code) + [and];
    CodeSplit(p.code, pc, parts + eq.code, [and]);
    var k1, regs3 := ResultInnerRuns(p, c, t, a, b, pc, regs, mem, tr, x, y);
    AndComputes(regs3, mem, m, Reg(n + 2), eq.out, x.ok == y.ok, EqualAt(t.inner, x.payload, y.payload).value);
    ThenCompute(p, c, pc, regs, mem, tr, tr, k1, regs3, mem, parts + eq.code, and, v);
    k, regs' := k1 + 1, regs3[m := v];
  }

  /** The flags, the payloads and their equality. */
  lemma {:induction false} ResultInnerRuns(p: Program, c: Counters, t: Type, a: Operand, b: Operand, pc: nat,
      regs: Regs, mem: Memory, tr: Trace, x: Value, y: Value)
    returns (k: nat, regs': Regs)
    requires t.TResult? && EmitEquality(Temps(c, 5), t.inner, Reg(c.temp + 3), Reg(c.temp + 4)).Some?
    requires CodeAt(p.code, pc, FlagsEqual(c.temp, a, b) + Payloads(c.temp + 3, a, b) +
        EmitEquality(Temps(c, 5), t.inner, Reg(c.temp + 3), Reg(c.temp + 4)).value.code)
    requires Below(a, c.temp) && Below(b, c.temp) && ValueOf(regs, a) == Some(x) && ValueOf(regs, b) == Some(y)
    requires EqualAt(t, x, y).Some?
    ensures
      var eq := EmitEquality(Temps(c, 5), t.inner, Reg(c.temp + 3), Reg(c.temp + 4)).value;
      var parts := FlagsEqual(c.temp, a, b) + Payloads(c.temp + 3, a, b);
      && Run(p, Running(pc, regs, mem, tr), k) == Running(pc + |parts + eq.code|, regs', mem, tr)
      && Keeps(regs, regs', c.temp) && ValueOf(regs', Reg(c.temp + 2)) == Some(VBool(x.ok == y.ok))
      && ValueOf(regs', eq.out) == Some(VBool(EqualAt(t.inner, x.payload, y.payload).value))
    decreases t, 0, 0
  {
    hide Run, Compute, FlagsEqual, Payloads, Keeps, ValueOf, CodeAt;
    var n := c.temp;
    var eq := EmitEquality(Temps(c, 5), t.inner, Reg(n + 3), Reg(n + 4)).value;
    var parts := FlagsEqual(n, a, b) + Payloads(n + 3, a, b);
    CodeSplit(p.code, pc, parts, eq.code);
    var regs2 := ResultPartsRun(p, c, pc, regs, mem, tr, a, b, x, y);
    var k1;
    k1, regs' := EqualityRuns(p, Temps(c, 5), t.inner, Reg(n + 3), Reg(n + 4), pc + 5, regs2, mem, tr, x.payload,
      y.payload);
    ValueKeeps(regs2, regs', Reg(n + 2), n + 5);
    RunThen(p, Running(pc, regs, mem, tr), 5, Running(pc + 5, regs2, mem, tr), k1,
      Running(pc + 5 + |eq.code|, regs', mem, tr));
    KeepsTransitive(regs, regs2, regs', n, n + 5);
    k := 5 + k1;
  }

  lemma {:induction false} ResultPartsRun(p: Program, c: Counters, pc: nat, regs: Regs, mem: Memory, tr: Trace,
      a: Operand, b: Operand, x: Value, y: Value)
    returns (regs': Regs)
    requires CodeAt(p.code, pc, FlagsEqual(c.temp, a, b) + Payloads(c.temp + 3, a, b)) && Below(a, c.temp)
    requires Below(b, c.temp)
    requires ValueOf(regs, a) == Some(x) && ValueOf(regs, b) == Some(y) && x.VResult? && y.VResult?
    ensures |FlagsEqual(c.temp, a, b) + Payloads(c.temp + 3, a, b)| == 5
    ensures Run(p, Running(pc, regs, mem, tr), 5) == Running(pc + 5, regs', mem, tr) && Keeps(regs, regs', c.temp)
    ensures ValueOf(regs', Reg(c.temp + 2)) == Some(VBool(x.ok == y.ok))
    ensures ValueOf(regs', Reg(c.temp + 3)) == Some(x.payload) && ValueOf(regs', Reg(c.temp + 4)) == Some(y.payload)
  {
    hide Run, FlagsEqual, Payloads, Keeps, ValueOf, CodeAt;
    var n := c.temp;
    CodeSplit(p.code, pc, FlagsEqual(n, a, b), Payloads(n + 3, a, b));
    var regs1 := FlagsRun(p, c, pc, regs, mem, tr, a, b, x, y);
    ValueKeeps(regs, regs1, a, n);
    ValueKeeps(regs, regs1, b, n);
    regs' := PayloadsRun(p, Temps(c, 3), pc + 3, regs1, mem, tr, a, b, x, y);
    ValueKeeps(regs1, regs', Reg(n + 2), n + 3);
    RunThen(p, Running(pc, regs, mem, tr), 3, Running(pc + 3, regs1, mem, tr), 2, Running(pc + 5, regs', mem, tr));
    KeepsTransitive(regs, regs1, regs', n, n + 3);
  }

  lemma StrCmpComputes(regs: Regs, mem: Memory, n: nat, a: Operand, b: Operand, x: string, y: string)
    requires ValueOf(regs, a) == Some(VStr(x)) && ValueOf(regs, b) == Some(VStr(y))
    ensures Compute(regs, mem, StrCmp(n, a, b)) == Some(Data(VInt(if x == y then 0 else 1)))
  {
  }

  lemma IcmpComputes(regs: Regs, mem: Memory, n: nat, a: Operand, b: Operand, x: Value, y: Value)
    requires ValueOf(regs, a) == Some(x) && ValueOf(regs, b) == Some(y) && EqResult(x, y).Some?
    ensures Compute(regs, mem, IcmpEq(n, a, b)) == Some(Data(EqResult(x, y).value))
  {
  }

  lemma ExtractComputes(regs: Regs, mem: Memory, n: nat, a: Operand, x: Value, f: FieldName)
    requires ValueOf(regs, a) == Some(x) && x.VResult?
    ensures Compute(regs, mem, Extract(n, a, f)) == Some(Data(if f.OkField? then VBool(x.ok) else x.payload))
  {
  }

  lemma XorComputes(regs: Regs, mem: Memory, n: nat, a: Operand, x: bool)
    requires ValueOf(regs, a) == Some(VBool(x))
    ensures Compute(regs, mem, Xor(n, a)) == Some(Data(VBool(!x)))
  {
  }

  lemma NegComputes(regs: Regs, mem: Memory, n: nat, a: Operand, x: int)
    requires ValueOf(regs, a) == Some(VInt(x)) && InInt64(-x)
    ensures Compute(regs, mem, Neg(n, a)) == Some(Data(VInt(-x)))
  {
  }

  lemma {:induction false} ArithComputes(regs: Regs, mem: Memory, n: nat, op: BinaryOp, t: Type, a: Operand,
      b: Operand, x: Value, y: Value)
    requires ValueOf(regs, a) == Some(x) && ValueOf(regs, b) == Some(y)
    requires IsArithmetic(op) || IsComparison(op)
    requires ApplyBinary(op, t, x, y).Some?
    ensures Compute(regs, mem, Arith(n, op, a, b)) == Some(Data(ApplyBinary(op, t, x, y).value))
  {
    assert ArithResult(op, x, y) == ApplyBinary(op, t, x, y);
  }

  lemma LoadComputes(regs: Regs, mem: Memory, n: nat, ptr: nat, cell: nat, path: seq<FieldName>, w: Value, v: Value)
    requires ptr in regs && regs[ptr] == Address(cell, path) && cell < |mem| && mem[cell] == Some(w)
    requires Project(w, path) == Some(v)
    ensures Compute(regs, mem, Load(n, ptr)) == Some(Data(v))
  {
  }

  lemma AndComputes(regs: Regs, mem: Memory, m: nat, a: Operand, b: Operand, x: bool, y: bool)
    requires ValueOf(regs, a) == Some(VBool(x)) && ValueOf(regs, b) == Some(VBool(y))
    ensures Compute(regs, mem, AndI1(m, a, b)) == Some(Data(VBool(x && y)))
  {
  }

  lemma {:induction false} FlagsRun(p: Program, c: Counters, pc: nat, regs: Regs, mem: Memory, tr: Trace, a: Operand,
      b: Operand, x: Value, y: Value)
    returns (regs': Regs)
    requires CodeAt(p.code, pc, FlagsEqual(c.temp, a, b)) && Below(a, c.temp) && Below(b, c.temp)
    requires ValueOf(regs, a) == Some(x) && ValueOf(regs, b) == Some(y) && x.VResult? && y.VResult?
    ensures |FlagsEqual(c.temp, a, b)| == 3
    ensures Run(p, Running(pc, regs, mem, tr), 3) == Running(pc + 3, regs', mem, tr)
    ensures ValueOf(regs', Reg(c.temp + 2)) == Some(VBool(x.ok == y.ok)) && Keeps(regs, regs', c.temp)
  {
    hide Run, Compute, Keeps;
    var n := c.temp;
    var i, j, h := Extract(n, a, OkField), Extract(n + 1, b, OkField), IcmpEq(n + 2, Reg(n), Reg(n + 1));
    assert FlagsEqual(n, a, b) == ([i] + [j]) + [h];
    CodeSplit(p.code, pc, [i] + [j], [h]);
    CodeSplit(p.code, pc, [i], [j]);
    var regs1 := regs[n := Data(VBool(x.ok))];
    ExtractComputes(regs, mem, n, a, x, OkField);
    JustCompute(p, c, pc, regs, mem, tr, i, Data(VBool(x.ok)));
    ValueKeeps(regs, regs1, b, n);
    ExtractComputes(regs1, mem, n + 1, b, y, OkField);
    ThenCompute(p, c, pc, regs, mem, tr, tr, 1, regs1, mem, [i], j, Data(VBool(y.ok)));
    var regs2 := regs1[n + 1 := Data(VBool(y.ok))];
    IcmpComputes(regs2, mem, n + 2, Reg(n), Reg(n + 1), VBool(x.ok), VBool(y.ok));
    ThenCompute(p, c, pc, regs, mem, tr, tr, 2, regs2, mem, [i] + [j], h, Data(VBool(x.ok == y.ok)));
    regs' := regs2[n + 2 := Data(VBool(x.ok == y.ok))];
  }

  lemma {:induction false} PayloadsRun(p: Program, c: Counters, pc: nat, regs: Regs, mem: Memory, tr: Trace,
      a: Operand, b: Operand, x: Value, y: Value)
    returns (regs': Regs)
    requires CodeAt(p.code, pc, Payloads(c.temp, a, b)) && Below(a, c.temp) && Below(b, c.temp)
    requires ValueOf(regs, a) == Some(x) && ValueOf(regs, b) == Some(y) && x.VResult? && y.VResult?
    ensures |Payloads(c.temp, a, b)| == 2
    ensures Run(p, Running(pc, regs, mem, tr), 2) == Running(pc + 2, regs', mem, tr)
    ensures ValueOf(regs', Reg(c.temp)) == Some(x.payload) && ValueOf(regs', Reg(c.temp + 1)) == Some(y.payload)
    ensures Keeps(regs, regs', c.temp)
  {
    hide Run, Compute, Keeps;
    var n := c.temp;
    var i, j := Extract(n, a, ValueField), Extract(n + 1, b, ValueField);
    assert Payloads(n, a, b) == [i] + [j];
    CodeSplit(p.code, pc, [i], [j]);
    var regs1 := regs[n := Data(x.payload)];
    ExtractComputes(regs, mem, n, a, x, ValueField);
    JustCompute(p, c, pc, regs, mem, tr, i, Data(x.payload));
    ValueKeeps(regs, regs1, b, n);
    ExtractComputes(regs1, mem, n + 1, b, y, ValueField);
    ThenCompute(p, c, pc, regs, mem, tr, tr, 1, regs1, mem, [i], j, Data(y.payload));
    regs' := regs1[n + 1 := Data(y.payload)];
  }

  lemma {:induction false} OperatorRuns(p: Program, c: Counters, op: BinaryOp, t: Type, a: Operand, b: Operand,
      pc: nat, regs: Regs, mem: Memory, tr: Trace, x: Value, y: Value)
    returns (k: nat, regs': Regs)
    requires !op.And? && !op.Or?
    requires EmitOperator(c, op, t, a, b).Some? && CodeAt(p.code, pc, EmitOperator(c, op, t, a, b).value.code)
    requires Below(a, c.temp) && Below(b, c.temp) && ValueOf(regs, a) == Some(x) && ValueOf(regs, b) == Some(y)
    requires ApplyBinary(op, t, x, y).Some?
    ensures Ran(p, c, EmitOperator(c, op, t, a, b).value, pc, regs, mem, tr, Val(ApplyBinary(op, t, x, y).value, tr),
        k, regs', mem)
  {
    hide Run, EmitEquality, Compute, Keeps;
    if op.Equal? {
      k, regs' := EqualityRuns(p, c, t, a, b, pc, regs, mem, tr, x, y);
    } else if op.NotEqual? {
      var eq := EmitEquality(c, t, a, b).value;
      var n := eq.next.temp;
      CodeSplit(p.code, pc, eq.code, [Xor(n, eq.out)]);
      var k1: nat;
      var regs1: Regs;
      k1, regs1 := EqualityRuns(p, c, t, a, b, pc, regs, mem, tr, x, y);
      var v := Data(VBool(!EqualAt(t, x, y).value));
      XorComputes(regs1, mem, n, eq.out, EqualAt(t, x, y).value);
      ThenCompute(p, c, pc, regs, mem, tr, tr, k1, regs1, mem, eq.code, Xor(n, eq.out), v);
      k, regs' := k1 + 1, regs1[n := v];
    } else {
      var v := Data(ApplyBinary(op, t, x, y).value);
      ArithComputes(regs, mem, c.temp, op, t, a, b, x, y);
      JustCompute(p, c, pc, regs, mem, tr, Arith(c.temp, op, a, b), v);
      k, regs' := 1, regs[c.temp := v];
    }
  }

  lemma RunZero(p: Program, s: State)
    ensures Run(p, s, 0) == s
  {
  }

  lemma {:induction false} ExprRuns(p: Program, slots: Slots, c: Counters, e: Expr, pc: nat, env: Env, regs: Regs,
      mem: Memory, tr: Trace)
    returns (k: nat, regs': Regs, mem': Memory)
    requires EmitExpr(slots, c, e).Some? && Ready(p, slots, c, pc, EmitExpr(slots, c, e).value.code, env, regs, mem)
    requires Eval(p.o, env, tr, e).Val?
    ensures Ran(p, c, EmitExpr(slots, c, e).value, pc, regs, mem, tr, Eval(p.o, env, tr, e), k, regs', mem')
    decreases e, 1
  {
    hide Run, Ready, Ran, Compute, Keeps;
    match e
    case Unary(_, _) => k, regs', mem' := UnaryRuns(p, slots, c, e, pc, env, regs, mem, tr);
    case Binary(op, _, _, _) =>
      if op.And? || op.Or? {
        k, regs', mem' := ShortCircuitRuns(p, slots, c, e, pc, env, regs, mem, tr);
      } else {
        k, regs', mem' := StrictRuns(p, slots, c, e, pc, env, regs, mem, tr);
      }
    case IfExpr(_, _, _) => k, regs', mem' := IfExprRuns(p, slots, c, e, pc, env, regs, mem, tr);
    case Call(_, _, _) => k, regs', mem' := CallRuns(p, slots, c, e, pc, env, regs, mem, tr);
    case Field(_, _) => k, regs', mem' := FieldRuns(p, slots, c, e, pc, env, regs, mem, tr);
    case Ok(_) => k, regs', mem' := OkRuns(p, slots, c, e, pc, env, regs, mem, tr);
    case ZAlloc(_, _) => k, regs', mem' := ZAllocRuns(p, slots, c, e, pc, env, regs, mem, tr);
    case _ => k, regs', mem' := LeafRuns(p, slots, c, e, pc, env, regs, mem, tr);
  }

  lemma {:induction false} LeafRuns(p: Program, slots: Slots, c: Counters, e: Expr, pc: nat, env: Env, regs: Regs,
      mem: Memory, tr: Trace)
    returns (k: nat, regs': Regs, mem': Memory)
    requires e.Int? || e.Bool? || e.Str? || e.Local? || e.Err?
    requires EmitExpr(slots, c, e).Some? && Ready(p, slots, c, pc, EmitExpr(slots, c, e).value.code, env, regs, mem)
    requires Eval(p.o, env, tr, e).Val?
    ensures Ran(p, c, EmitExpr(slots, c, e).value, pc, regs, mem, tr, Eval(p.o, env, tr, e), k, regs', mem')
  {
    hide Run, Holds, OneLabelEach;
    mem' := mem;
    if e.Int? || e.Bool? {
      k, regs' := 0, regs;
      RunZero(p, Running(pc, regs, mem, tr));
    } else {
      var i := EmitExpr(slots, c, e).value.code[0];
      var v := Data(Eval(p.o, env, tr, e).value);
      if e.Local? {
        var j := FindSlot(env, slots, regs, mem, e.name);
        assert Project(env[j].value, []) == Some(env[j].value);
      }
      assert EmitExpr(slots, c, e).value.code == [i];
      JustCompute(p, c, pc, regs, mem, tr, i, v);
      k, regs' := 1, regs[c.temp := v];
    }
  }

  lemma {:induction false} UnaryRuns(p: Program, slots: Slots, c: Counters, e: Expr, pc: nat, env: Env, regs: Regs,
      mem: Memory, tr: Trace)
    returns (k: nat, regs': Regs, mem': Memory)
    requires e.Unary? && EmitExpr(slots, c, e).Some?
    requires Ready(p, slots, c, pc, EmitExpr(slots, c, e).value.code, env, regs, mem)
    requires Eval(p.o, env, tr, e).Val?
    ensures Ran(p, c, EmitExpr(slots, c, e).value, pc, regs, mem, tr, Eval(p.o, env, tr, e), k, regs', mem')
    decreases e, 0
  {
    hide Run, Compute, Keeps, Holds, OneLabelEach, SlotsBelow;
    var v := EmitExpr(slots, c, e.operand).value;
    var n := v.next.temp;
    var i := if e.uop.Negate? then Neg(n, v.out) else Xor(n, v.out);
    CodeSplit(p.code, pc, v.code, [i]);
    var a := Eval(p.o, env, tr, e.operand);
    k, regs', mem' := ExprRuns(p, slots, c, e.operand, pc, env, regs, mem, tr);
    var x := Data(Eval(p.o, env, tr, e).value);
    if e.uop.Negate? {
      NegComputes(regs', mem', n, v.out, a.value.i);
    } else {
      XorComputes(regs', mem', n, v.out, a.value.b);
    }
    ThenCompute(p, c, pc, regs, mem, tr, a.trace, k, regs', mem', v.code, i, x);
    k, regs' := k + 1, regs'[n := x];
  }

  lemma {:induction false} StrictRuns(p: Program, slots: Slots, c: Counters, e: Expr, pc: nat, env: Env, regs: Regs,
      mem: Memory, tr: Trace)
    returns (k: nat, regs': Regs, mem': Memory)
    requires e.Binary? && !e.bop.And? && !e.bop.Or?
    requires EmitExpr(slots, c, e).Some? && Ready(p, slots, c, pc, EmitExpr(slots, c, e).value.code, env, regs, mem)
    requires Eval(p.o, env, tr, e).Val?
    ensures Ran(p, c, EmitExpr(slots, c, e).value, pc, regs, mem, tr, Eval(p.o, env, tr, e), k, regs', mem')
    decreases e, 0
  {
    hide Run, Compute, Keeps, Holds, OneLabelEach, EmitOperator, ValueOf, CodeAt, SlotsBelow, ApplyBinary, Below;
    var v := EmitExpr(slots, c, e.left).value;
    var w := EmitExpr(slots, v.next, e.right).value;
    var r := EmitOperator(w.next, e.bop, e.operands, v.out, w.out).value;
    CodeSplit(p.code, pc, v.code, w.code + r.code);
    CodeSplit(p.code, pc + |v.code|, w.code, r.code);
    assert EvalBinary(p.o, env, tr, e).Val?;
    var a := Eval(p.o, env, tr, e.left);
    var b := Eval(p.o, env, a.trace, e.right);
    var k1, regs1, mem1 := ExprRuns(p, slots, c, e.left, pc, env, regs, mem, tr);
    HoldsLater(env, slots, regs, mem, regs1, mem1, c.temp);
    SlotsBelowLater(slots, c.temp, v.next.temp);
    var k2, regs2, mem2 := ExprRuns(p, slots, v.next, e.right, pc + |v.code|, env, regs1, mem1, a.trace);
    ValueKeeps(regs1, regs2, v.out, v.next.temp);
    BelowLater(v.out, v.next.temp, w.next.temp);
    var k3, regs3 := OperatorRuns(p, w.next, e.bop, e.operands, v.out, w.out, pc + |v.code| + |w.code|, regs2, mem2,
      b.trace, a.value, b.value);
    RunThen(p, Running(pc, regs, mem, tr), k1, Running(pc + |v.code|, regs1, mem1, a.trace), k2,
      Running(pc + |v.code| + |w.code|, regs2, mem2, b.trace));
    RunThen(p, Running(pc, regs, mem, tr), k1 + k2, Running(pc + |v.code| + |w.code|, regs2, mem2, b.trace), k3,
      Running(pc + |v.code| + |w.code| + |r.code|, regs3, mem2, b.trace));
    KeepsTransitive(regs, regs1, regs2, c.temp, v.next.temp);
    KeepsTransitive(regs, regs2, regs3, c.temp, w.next.temp);
    k, regs', mem' := k1 + k2 + k3, regs3, mem2;
  }

  lemma SlotsBelowLater(slots: Slots, n: nat, m: nat)
    requires SlotsBelow(slots, n) && n <= m
    ensures SlotsBelow(slots, m)
  {
  }

  lemma BelowLater(v: Operand, n: nat, m: nat)
    requires Below(v, n) && n <= m
    ensures Below(v, m)
  {
  }

  lemma {:induction false} CallRuns(p: Program, slots: Slots, c: Counters, e: Expr, pc: nat, env: Env, regs: Regs,
      mem: Memory, tr: Trace)
    returns (k: nat, regs': Regs, mem': Memory)
    requires e.Call? && EmitExpr(slots, c, e).Some?
    requires Ready(p, slots, c, pc, EmitExpr(slots, c, e).value.code, env, regs, mem)
    requires Eval(p.o, env, tr, e).Val?
    ensures Ran(p, c, EmitExpr(slots, c, e).value, pc, regs, mem, tr, Eval(p.o, env, tr, e), k, regs', mem')
    decreases e, 0
  {
    hide Run, Compute, Keeps, Holds, OneLabelEach;
    var vs := EmitArgs(slots, c, e.args).value;
    var n := vs.next.temp;
    var call := CallFn(if e.ret.TVoid? then None else Some(n), e.target, vs.outs);
    CodeSplit(p.code, pc, vs.code, [call]);
    var a := EvalArgs(p.o, env, tr, e.args);
    var k1, regs1, mem1 := ArgsRun(p, slots, c, e.args, pc, env, regs, mem, tr);
    var r := Eval(p.o, env, tr, e);
    regs' := if e.ret.TVoid? then regs1 else regs1[n := Data(r.value)];
    RunCall(p, pc + |vs.code|, regs1, mem1, a.trace, call, a.values);
    RunThen(p, Running(pc, regs, mem, tr), k1, Running(pc + |vs.code|, regs1, mem1, a.trace), 1,
      Running(pc + |vs.code| + 1, regs', mem1, r.trace));
    KeepsNew(regs, regs1, c.temp, n, Data(r.value));
    k, mem' := k1 + 1, mem1;
  }

  lemma {:induction false} RunCall(p: Program, pc: nat, regs: Regs, mem: Memory, tr: Trace, i: Instr, vs: seq<Value>)
    requires i.CallFn? && CodeAt(p.code, pc, [i]) && ValuesOf(regs, i.args) == Some(vs)
    ensures
      var a := ACall(i.target, vs);
      var v := if i.dest.None? then VUnit else p.o(tr, a);
      Run(p, Running(pc, regs, mem, tr), 1) ==
        Running(pc + 1, if i.dest.None? then regs else regs[i.dest.value := Data(v)], mem, tr + [Event(a, v)])
  {
    hide Run, Compute;
    CodeIndex(p.code, pc, [i], 0);
    RunOne(p, Running(pc, regs, mem, tr));
  }

  lemma {:induction false} ArgsRun(p: Program, slots: Slots, c: Counters, args: seq<Expr>, pc: nat, env: Env,
      regs: Regs, mem: Memory, tr: Trace)
    returns (k: nat, regs': Regs, mem': Memory)
    requires EmitArgs(slots, c, args).Some?
    requires Ready(p, slots, c, pc, EmitArgs(slots, c, args).value.code, env, regs, mem)
    requires EvalArgs(p.o, env, tr, args).Vals?
    ensures
      var em, r := EmitArgs(slots, c, args).value, EvalArgs(p.o, env, tr, args);
      && Run(p, Running(pc, regs, mem, tr), k) == Running(pc + |em.code|, regs', mem', r.trace)
      && ValuesOf(regs', em.outs) == Some(r.values)
      && Keeps(regs, regs', c.temp) && mem <= mem'
    decreases args, 0
  {
    hide Run, Compute, Keeps, Holds, OneLabelEach, EmitExpr, Eval;
    if args == [] {
      k, regs', mem' := 0, regs, mem;
      RunZero(p, Running(pc, regs, mem, tr));
      KeepsRefl(regs, c.temp);
    } else {
      var v := EmitExpr(slots, c, args[0]).value;
      var rest := EmitArgs(slots, v.next, args[1..]).value;
      CodeSplit(p.code, pc, v.code, rest.code);
      var a := Eval(p.o, env, tr, args[0]);
      var k1, regs1, mem1 := ExprRuns(p, slots, c, args[0], pc, env, regs, mem, tr);
      HoldsLater(env, slots, regs, mem, regs1, mem1, c.temp);
      SlotsBelowLater(slots, c.temp, v.next.temp);
      var b := EvalArgs(p.o, env, a.trace, args[1..]);
      var k2, regs2, mem2 := ArgsRun(p, slots, v.next, args[1..], pc + |v.code|, env, regs1, mem1, a.trace);
      ValueKeeps(regs1, regs2, v.out, v.next.temp);
      var outs := [v.out] + rest.outs;
      assert outs[0] == v.out && outs[1..] == rest.outs;
      RunThen(p, Running(pc, regs, mem, tr), k1, Running(pc + |v.code|, regs1, mem1, a.trace), k2,
        Running(pc + |v.code| + |rest.code|, regs2, mem2, b.trace));
      KeepsTransitive(regs, regs1, regs2, c.temp, v.next.temp);
      k, regs', mem' := k1 + k2, regs2, mem2;
    }
  }

  lemma {:induction false} OkRuns(p: Program, slots: Slots, c: Counters, e: Expr, pc: nat, env: Env, regs: Regs,
      mem: Memory, tr: Trace)
    returns (k: nat, regs': Regs, mem': Memory)
    requires e.Ok? && EmitExpr(slots, c, e).Some?
    requires Ready(p, slots, c, pc, EmitExpr(slots, c, e).value.code, env, regs, mem)
    requires Eval(p.o, env, tr, e).Val?
    ensures Ran(p, c, EmitExpr(slots, c, e).value, pc, regs, mem, tr, Eval(p.o, env, tr, e), k, regs', mem')
    decreases e, 0
  {
    hide Run, Keeps, Holds, OneLabelEach, SlotsBelow;
    var v := EmitExpr(slots, c, e.inner).value;
    var n := v.next.temp;
    var i, j := InsertFlag(n, true, VUnit), InsertPayload(n + 1, n, v.out);
    assert EmitExpr(slots, c, e).value.code == (v.code + [i]) + [j];
    CodeSplit(p.code, pc, v.code + [i], [j]);
    CodeSplit(p.code, pc, v.code, [i]);
    var a := Eval(p.o, env, tr, e.inner);
    var k1, regs1, mem1 := ExprRuns(p, slots, c, e.inner, pc, env, regs, mem, tr);
    var flag, whole := Data(VResult(true, VUnit)), Data(VResult(true, a.value));
    ThenCompute(p, c, pc, regs, mem, tr, a.trace, k1, regs1, mem1, v.code, i, flag);
    var regs2 := regs1[n := flag];
    assert ValueOf(regs2, v.out) == Some(a.value);
    ThenCompute(p, c, pc, regs, mem, tr, a.trace, k1 + 1, regs2, mem1, v.code + [i], j, whole);
    k, regs', mem' := k1 + 2, regs2[n + 1 := whole], mem1;
  }

  lemma {:induction false} FieldRuns(p: Program, slots: Slots, c: Counters, e: Expr, pc: nat, env: Env, regs: Regs,
      mem: Memory, tr: Trace)
    returns (k: nat, regs': Regs, mem': Memory)
    requires e.Field? && EmitExpr(slots, c, e).Some?
    requires Ready(p, slots, c, pc, EmitExpr(slots, c, e).value.code, env, regs, mem)
    requires Eval(p.o, env, tr, e).Val?
    ensures Ran(p, c, EmitExpr(slots, c, e).value, pc, regs, mem, tr, Eval(p.o, env, tr, e), k, regs', mem')
    decreases e, 0, 1
  {
    hide Run, Compute, Keeps, Holds, OneLabelEach, EmitAddress;
    var a := EmitAddress(slots, c, e).value;
    var n := a.next.temp;
    CodeSplit(p.code, pc, a.code, [Load(n, a.ptr)]);
    var k1, regs1, mem1, cell, path, w := AddressRuns(p, slots, c, e, pc, env, regs, mem, tr);
    var r := Eval(p.o, env, tr, e);
    LoadComputes(regs1, mem1, n, a.ptr, cell, path, w, r.value);
    ThenCompute(p, c, pc, regs, mem, tr, r.trace, k1, regs1, mem1, a.code, Load(n, a.ptr), Data(r.value));
    k, regs', mem' := k1 + 1, regs1[n := Data(r.value)], mem1;
  }

  /** The address code leaves a pointer to (a part of) a cell that holds the value. */
  lemma {:induction false} AddressRuns(p: Program, slots: Slots, c: Counters, e: Expr, pc: nat, env: Env, regs: Regs,
      mem: Memory, tr: Trace)
    returns (k: nat, regs': Regs, mem': Memory, cell: nat, path: seq<FieldName>, w: Value)
    requires EmitAddress(slots, c, e).Some?
    requires Ready(p, slots, c, pc, EmitAddress(slots, c, e).value.code, env, regs, mem)
    requires Eval(p.o, env, tr, e).Val?
    ensures
      var a, r := EmitAddress(slots, c, e).value, Eval(p.o, env, tr, e);
      && Run(p, Running(pc, regs, mem, tr), k) == Running(pc + |a.code|, regs', mem', r.trace)
      && a.ptr in regs' && regs'[a.ptr] == Address(cell, path) && cell < |mem'| && mem'[cell] == Some(w)
      && Project(w, path) == Some(r.value)
      && Keeps(regs, regs', c.temp) && mem <= mem'
    decreases e, if e.Field? then 0 else 2, 0
  {
    hide Run, Compute, Keeps, OneLabelEach, EmitExpr;
    if e.Local? {
      var j := FindSlot(env, slots, regs, mem, e.name);
      k, regs', mem', cell, path, w := 0, regs, mem, regs[slots[j].reg].cell, [], env[j].value;
      RunZero(p, Running(pc, regs, mem, tr));
      KeepsRefl(regs, c.temp);
    } else if e.Field? {
      k, regs', mem', cell, path, w := FieldAddressRuns(p, slots, c, e, pc, env, regs, mem, tr);
    } else {
      var v := EmitExpr(slots, c, e).value;
      var n := v.next.temp;
      CodeSplit(p.code, pc, v.code, Spill(v.out, n));
      var r := Eval(p.o, env, tr, e);
      var k1, regs1, mem1 := ExprRuns(p, slots, c, e, pc, env, regs, mem, tr);
      RunSpill(p, pc + |v.code|, regs1, mem1, r.trace, v.out, n, r.value);
      k, regs', mem', cell, path, w := k1 + 2, regs1[n := Address(|mem1|, [])], mem1 + [Some(r.value)], |mem1|, [],
        r.value;
      RunThen(p, Running(pc, regs, mem, tr), k1, Running(pc + |v.code|, regs1, mem1, r.trace), 2,
        Running(pc + |v.code| + 2, regs', mem', r.trace));
      KeepsNew(regs, regs1, c.temp, n, Address(|mem1|, []));
    }
  }

  lemma {:induction false} FieldAddressRuns(p: Program, slots: Slots, c: Counters, e: Expr, pc: nat, env: Env,
      regs: Regs, mem: Memory, tr: Trace)
    returns (k: nat, regs': Regs, mem': Memory, cell: nat, path: seq<FieldName>, w: Value)
    requires e.Field? && EmitAddress(slots, c, e).Some?
    requires Ready(p, slots, c, pc, EmitAddress(slots, c, e).value.code, env, regs, mem)
    requires Eval(p.o, env, tr, e).Val?
    ensures
      var a, r := EmitAddress(slots, c, e).value, Eval(p.o, env, tr, e);
      && Run(p, Running(pc, regs, mem, tr), k) == Running(pc + |a.code|, regs', mem', r.trace)
      && a.ptr in regs' && regs'[a.ptr] == Address(cell, path) && cell < |mem'| && mem'[cell] == Some(w)
      && Project(w, path) == Some(r.value)
      && Keeps(regs, regs', c.temp) && mem <= mem'
    decreases e, -1
  {
    hide Run, Keeps, Holds, OneLabelEach, EmitExpr, Project;
    var a := EmitAddress(slots, c, e.base).value;
    var n := a.next.temp;
    var i := Gep(n, a.ptr, e.field);
    CodeSplit(p.code, pc, a.code, [i]);
    var r := Eval(p.o, env, tr, e.base);
    k, regs', mem', cell, path, w := AddressRuns(p, slots, c, e.base, pc, env, regs, mem, tr);
    ProjectAppend(w, path, e.field);
    var v := Address(cell, path + [e.field]);
    ThenCompute(p, c, pc, regs, mem, tr, r.trace, k, regs', mem', a.code, i, v);
    k, regs', path := k + 1, regs'[n := v], path + [e.field];
  }

  lemma {:induction false} ZAllocRuns(p: Program, slots: Slots, c: Counters, e: Expr, pc: nat, env: Env, regs: Regs,
      mem: Memory, tr: Trace)
    returns (k: nat, regs': Regs, mem': Memory)
    requires e.ZAlloc? && EmitExpr(slots, c, e).Some?
    requires Ready(p, slots, c, pc, EmitExpr(slots, c, e).value.code, env, regs, mem)
    requires Eval(p.o, env, tr, e).Val?
    ensures Ran(p, c, EmitExpr(slots, c, e).value, pc, regs, mem, tr, Eval(p.o, env, tr, e), k, regs', mem')
  {
    hide Run, Keeps, Holds, OneLabelEach, Compute, CodeAt, SizeOf, Update;
    var j := FindSlot(env, slots, regs, mem, e.zone);
    var ptr := slots[j].reg;
    assert ptr < c.temp;
    k, mem' := 4, mem;
    regs' := ZAllocCodeRuns(p, c, pc, regs, mem, tr, e.allocType, ptr, regs[ptr].cell, env[j].value);
    SizeOfLength(c.temp, e.allocType);
  }

  lemma {:induction false} ZAllocCodeRuns(p: Program, c: Counters, pc: nat, regs: Regs, mem: Memory, tr: Trace,
      t: Type, ptr: nat, cell: nat, h: Value)
    returns (regs': Regs)
    requires CodeAt(p.code, pc,
        SizeOf(c.temp, t) + [Load(c.temp + 2, ptr), ZoneAlloc(c.temp + 3, Reg(c.temp + 2), Reg(c.temp + 1))])
    requires ptr < c.temp && PointsTo(regs, ptr, cell) && cell < |mem| && mem[cell] == Some(h)
    ensures
      var a := AZoneAlloc(h, VSize(t));
      && Run(p, Running(pc, regs, mem, tr), 4) == Running(pc + 4, regs', mem, tr + [Event(a, p.o(tr, a))])
      && ValueOf(regs', Reg(c.temp + 3)) == Some(p.o(tr, a)) && Keeps(regs, regs', c.temp)
  {
    hide Run, Keeps, Compute, CodeAt, SizeOf;
    var n, a := c.temp, AZoneAlloc(h, VSize(t));
    var i3, i4 := Load(n + 2, ptr), ZoneAlloc(n + 3, Reg(n + 2), Reg(n + 1));
    SizeOfLength(n, t);
    assert SizeOf(n, t) + [i3, i4] == (SizeOf(n, t) + [i3]) + [i4];
    CodeSplit(p.code, pc, SizeOf(n, t) + [i3], [i4]);
    CodeSplit(p.code, pc, SizeOf(n, t), [i3]);
    var regs2 := SizeOfRuns(p, c, pc, regs, mem, tr, t);
    KeepsPointer(regs, regs2, n, ptr, cell);
    var regs3 := regs2[n + 2 := Data(h)];
    LoadComputes(regs2, mem, n + 2, ptr, cell, [], h, h);
    ThenCompute(p, c, pc, regs, mem, tr, tr, 2, regs2, mem, SizeOf(n, t), i3, Data(h));
    regs' := regs3[n + 3 := Data(p.o(tr, a))];
    RunZoneAlloc(p, pc + 3, regs3, mem, tr, i4, h, VSize(t));
    RunThen(p, Running(pc, regs, mem, tr), 3, Running(pc + 3, regs3, mem, tr), 1,
      Running(pc + 4, regs', mem, tr + [Event(a, p.o(tr, a))]));
    KeepsNew(regs, regs3, n, n + 3, Data(p.o(tr, a)));
  }

  lemma SizeOfLength(n: nat, t: Type)
    ensures |SizeOf(n, t)| == 2
  {
  }

  lemma {:induction false} SizeOfRuns(p: Program, c: Counters, pc: nat, regs: Regs, mem: Memory, tr: Trace, t: Type)
    returns (regs': Regs)
    requires CodeAt(p.code, pc, SizeOf(c.temp, t))
    ensures Run(p, Running(pc, regs, mem, tr), 2) == Running(pc + 2, regs', mem, tr)
    ensures ValueOf(regs', Reg(c.temp + 1)) == Some(VSize(t)) && Keeps(regs, regs', c.temp)
  {
    hide Run, Keeps;
    var n := c.temp;
    var i, j := SizeGep(n, t), PtrToInt(n + 1, n);
    assert SizeOf(n, t) == [i] + [j];
    CodeSplit(p.code, pc, [i], [j]);
    var regs1 := regs[n := Data(VSize(t))];
    JustCompute(p, c, pc, regs, mem, tr, i, Data(VSize(t)));
    ThenCompute(p, c, pc, regs, mem, tr, tr, 1, regs1, mem, [i], j, Data(VSize(t)));
    regs' := regs1[n + 1 := Data(VSize(t))];
  }

  lemma {:induction false} RunZoneAlloc(p: Program, pc: nat, regs: Regs, mem: Memory, tr: Trace, i: Instr, h: Value,
      n: Value)
    requires i.ZoneAlloc? && CodeAt(p.code, pc, [i]) && ValueOf(regs, i.zone) == Some(h)
    requires ValueOf(regs, i.size) == Some(n)
    ensures
      var a := AZoneAlloc(h, n);
      Run(p, Running(pc, regs, mem, tr), 1) == Running(pc + 1, regs[i.r := Data(p.o(tr, a))], mem,
        tr + [Event(a, p.o(tr, a))])
  {
    hide Run, Compute;
    CodeIndex(p.code, pc, [i], 0);
    RunOne(p, Running(pc, regs, mem, tr));
  }

  /** A fresh result cell, then the expression that chooses the path. */
  lemma {:induction false} CellThenExpr(p: Program, slots: Slots, c: Counters, e: Expr, pc: nat, env: Env, regs: Regs,
      mem: Memory, tr: Trace, rest: seq<Instr>)
    returns (k: nat, regs': Regs, mem': Memory)
    requires EmitExpr(slots, Labels(Temps(c, 1), 3), e).Some?
    requires Ready(p, slots, c, pc, [Alloca(c.temp)] + (EmitExpr(slots, Labels(Temps(c, 1), 3), e).value.code + rest),
        env, regs, mem)
    requires Eval(p.o, env, tr, e).Val?
    ensures
      var v, r := EmitExpr(slots, Labels(Temps(c, 1), 3), e).value, Eval(p.o, env, tr, e);
      && Run(p, Running(pc, regs, mem, tr), k) == Running(pc + 1 + |v.code|, regs', mem', r.trace)
      && ValueOf(regs', v.out) == Some(r.value) && Keeps(regs, regs', c.temp)
      && PointsTo(regs', c.temp, |mem|) && mem <= mem' && |mem| < |mem'|
      && Ready(p, slots, v.next, pc + 1 + |v.code|, rest, env, regs', mem')
    decreases e, 2
  {
    hide Run, Compute, Keeps, OneLabelEach, EmitExpr, Eval;
    var c1 := Labels(Temps(c, 1), 3);
    var v := EmitExpr(slots, c1, e).value;
    CodeSplit(p.code, pc, [Alloca(c.temp)], v.code + rest);
    CodeSplit(p.code, pc + 1, v.code, rest);
    var regs1, mem1 := regs[c.temp := Address(|mem|, [])], mem + [None];
    RunAlloca(p, pc, regs, mem, tr, c.temp);
    KeepsRefl(regs, c.temp);
    KeepsNew(regs, regs, c.temp, c.temp, Address(|mem|, []));
    HoldsLater(env, slots, regs, mem, regs1, mem1, c.temp);
    var k1, regs2, mem2 := ExprRuns(p, slots, c1, e, pc + 1, env, regs1, mem1, tr);
    var r := Eval(p.o, env, tr, e);
    RunThen(p, Running(pc, regs, mem, tr), 1, Running(pc + 1, regs1, mem1, tr), k1,
      Running(pc + 1 + |v.code|, regs2, mem2, r.trace));
    KeepsTransitive(regs, regs1, regs2, c.temp, c1.temp);
    HoldsLater(env, slots, regs, mem, regs2, mem2, c.temp);
    KeepsPointer(regs1, regs2, c1.temp, c.temp, |mem|);
    k, regs', mem' := 1 + k1, regs2, mem2;
  }

  lemma KeepsPointer(regs: Regs, regs': Regs, n: nat, r: nat, cell: nat)
    requires Keeps(regs, regs', n) && r < n && PointsTo(regs, r, cell)
    ensures PointsTo(regs', r, cell)
  {
  }

  /** One path: an expression, its value stored to the cell, and the read at the join. */
  lemma {:induction false} ArmRuns(p: Program, slots: Slots, c: Counters, e: Expr, pc: nat, join: nat, env: Env,
      regs: Regs, mem: Memory, tr: Trace, ptr: nat, cell: nat, merge: nat, n: nat)
    returns (k: nat, regs': Regs, mem': Memory)
    requires EmitExpr(slots, c, e).Some? && Ready(p, slots, c, pc, EmitExpr(slots, c, e).value.code, env, regs, mem)
    requires CodeAt(p.code, pc + |EmitExpr(slots, c, e).value.code|,
        StoreAndGo(EmitExpr(slots, c, e).value.out, ptr, merge))
    requires CodeAt(p.code, join, Join(ptr, merge, n)) && EmitExpr(slots, c, e).value.next.temp <= n
    requires ptr < c.temp && PointsTo(regs, ptr, cell) && cell < |mem|
    requires Eval(p.o, env, tr, e).Val?
    ensures
      var r := Eval(p.o, env, tr, e);
      && Run(p, Running(pc, regs, mem, tr), k) == Running(join + 2, regs', mem', r.trace)
      && ValueOf(regs', Reg(n)) == Some(r.value) && Keeps(regs, regs', c.temp)
      && mem[..cell] <= mem'
    decreases e, 2
  {
    hide Run, Compute, Keeps, OneLabelEach, EmitExpr, Eval, StoreAndGo, Join;
    var v := EmitExpr(slots, c, e).value;
    var r := Eval(p.o, env, tr, e);
    var k1, regs1, mem1 := ExprRuns(p, slots, c, e, pc, env, regs, mem, tr);
    KeepsPointer(regs, regs1, c.temp, ptr, cell);
    RunToJoin(p, pc + |v.code|, join, regs1, mem1, r.trace, v.out, ptr, r.value, cell, merge, n);
    k, regs', mem' := k1 + 3, regs1[n := Data(r.value)], mem1[cell := Some(r.value)];
    RunThen(p, Running(pc, regs, mem, tr), k1, Running(pc + |v.code|, regs1, mem1, r.trace), 3,
      Running(join + 2, regs', mem', r.trace));
    KeepsNew(regs, regs1, c.temp, n, Data(r.value));
  }

  /** Where the pieces after the condition of an if-expression stand. */
  lemma {:induction false} IfExprLayout(code: seq<Instr>, q: nat, v: Operand, t: seq<Instr>, tOut: Operand,
      f: seq<Instr>, fOut: Operand, cell: nat, yes: nat, no: nat, merge: nat, n: nat)
    requires CodeAt(code, q,
        BranchTo(v, yes, no, yes) + (t + (StoreAndGo(tOut, cell, merge) + ([Label(no)] +
        (f + (StoreAndGo(fOut, cell, merge) + Join(cell, merge, n)))))))
    ensures CodeAt(code, q, [CondBr(v, yes, no)]) && CodeAt(code, q + 1, [Label(yes)])
    ensures CodeAt(code, q + 2, t) && CodeAt(code, q + 2 + |t|, StoreAndGo(tOut, cell, merge))
    ensures CodeAt(code, q + 4 + |t|, [Label(no)]) && CodeAt(code, q + 5 + |t|, f)
    ensures CodeAt(code, q + 5 + |t| + |f|, StoreAndGo(fOut, cell, merge))
    ensures CodeAt(code, q + 7 + |t| + |f|, Join(cell, merge, n))
  {
    hide CodeAt, BranchTo, StoreAndGo, Join;
    var p5 := f + (StoreAndGo(fOut, cell, merge) + Join(cell, merge, n));
    var p4 := [Label(no)] + p5;
    var p3 := StoreAndGo(tOut, cell, merge) + p4;
    PieceLengths(v, cell, n, yes, no, yes, merge);
    PieceLengths(tOut, cell, n, yes, no, yes, merge);
    PieceLengths(fOut, cell, n, yes, no, yes, merge);
    CodeSplit(code, q, BranchTo(v, yes, no, yes), t + p3);
    BranchParts(code, q, v, yes, no, yes);
    CodeSplit(code, q + 2, t, p3);
    CodeSplit(code, q + 2 + |t|, StoreAndGo(tOut, cell, merge), p4);
    CodeSplit(code, q + 4 + |t|, [Label(no)], p5);
    CodeSplit(code, q + 5 + |t|, f, StoreAndGo(fOut, cell, merge) + Join(cell, merge, n));
    CodeSplit(code, q + 5 + |t| + |f|, StoreAndGo(fOut, cell, merge), Join(cell, merge, n));
  }

  lemma {:induction false} IfExprRuns(p: Program, slots: Slots, c: Counters, e: Expr, pc: nat, env: Env, regs: Regs,
      mem: Memory, tr: Trace)
    returns (k: nat, regs': Regs, mem': Memory)
    requires e.IfExpr? && EmitIfExpr(slots, c, e).Some?
    requires Ready(p, slots, c, pc, EmitIfExpr(slots, c, e).value.code, env, regs, mem)
    requires Eval(p.o, env, tr, e).Val?
    ensures Ran(p, c, EmitIfExpr(slots, c, e).value, pc, regs, mem, tr, Eval(p.o, env, tr, e), k, regs', mem')
    decreases e, 0
  {
    hide Run, Compute, Keeps, OneLabelEach, EmitExpr, StoreAndGo, Join, BranchTo, Holds, PointsTo, SlotsBelow, CodeAt,
      ValueOf;
    var cell, yes, no, merge := c.temp, c.lab, c.lab + 1, c.lab + 2;
    var v := EmitExpr(slots, Labels(Temps(c, 1), 3), e.cond).value;
    var t := EmitExpr(slots, v.next, e.thenExpr).value;
    var f := EmitExpr(slots, t.next, e.elseExpr).value;
    var n := f.next.temp;
    var rest :=
      BranchTo(v.out, yes, no, yes) + (t.code + (StoreAndGo(t.out, cell, merge) + ([Label(no)] +
      (f.code + (StoreAndGo(f.out, cell, merge) + Join(cell, merge, n))))));
    var a, r := Eval(p.o, env, tr, e.cond), Eval(p.o, env, tr, e);
    var k1, regs1, mem1 := CellThenExpr(p, slots, c, e.cond, pc, env, regs, mem, tr, rest);
    var q := pc + 1 + |v.code|;
    IfExprLayout(p.code, q, v.out, t.code, t.out, f.code, f.out, cell, yes, no, merge, n);
    var s1, join := Running(q, regs1, mem1, a.trace), q + 7 + |t.code| + |f.code|;
    SlotsBelowLater(slots, v.next.temp, t.next.temp);
    var at, arm, c2 := if a.value.b then q + 2 else q + 5 + |t.code|, if a.value.b then e.thenExpr else e.elseExpr,
      if a.value.b then v.next else t.next;
    RunBranch(p, q, regs1, mem1, a.trace, v.out, yes, no, a.value.b, at - 1);
    var k2: nat;
    k2, regs', mem' := ArmRuns(p, slots, c2, arm, at, join, env, regs1, mem1, a.trace, cell, |mem|, merge, n);
    RunThen(p, s1, 1, Running(at, regs1, mem1, a.trace), k2, Running(join + 2, regs', mem', r.trace));
    RunThen(p, Running(pc, regs, mem, tr), k1, s1, 1 + k2, Running(join + 2, regs', mem', r.trace));
    KeepsTransitive(regs, regs1, regs', c.temp, c2.temp);
    k := k1 + (1 + k2);
    assert mem1[..|mem|] == mem;
    PieceLengths(v.out, cell, n, yes, no, yes, merge);
    PieceLengths(t.out, cell, n, yes, no, yes, merge);
    PieceLengths(f.out, cell, n, yes, no, yes, merge);
  }

  lemma PieceLengths(v: Operand, cell: nat, n: nat, l: nat, other: nat, next: nat, merge: nat)
    ensures |BranchTo(v, l, other, next)| == 2 && |StoreAndGo(v, cell, merge)| == 2 && |Join(cell, merge, n)| == 2
    ensures |JumpInto(l)| == 2
  {
  }

  /** Where the pieces after the left operand of `&&` or `||` stand. */
  lemma {:induction false} ShortCircuitLayout(code: seq<Instr>, q: nat, v: Operand, w: seq<Instr>, out: Operand,
      x: Operand, cell: nat, l: nat, other: nat, rhs: nat, short: nat, merge: nat, n: nat)
    requires CodeAt(code, q,
        BranchTo(v, l, other, rhs) + (w + (StoreAndGo(out, cell, merge) + ([Label(short)] +
        (StoreAndGo(x, cell, merge) + Join(cell, merge, n))))))
    ensures CodeAt(code, q, [CondBr(v, l, other)]) && CodeAt(code, q + 1, [Label(rhs)])
    ensures CodeAt(code, q + 2, w) && CodeAt(code, q + 2 + |w|, StoreAndGo(out, cell, merge))
    ensures CodeAt(code, q + 4 + |w|, [Label(short)]) && CodeAt(code, q + 5 + |w|, StoreAndGo(x, cell, merge))
    ensures CodeAt(code, q + 7 + |w|, Join(cell, merge, n))
  {
    hide CodeAt, BranchTo, StoreAndGo, Join;
    var p4 := StoreAndGo(x, cell, merge) + Join(cell, merge, n);
    var p3 := StoreAndGo(out, cell, merge) + ([Label(short)] + p4);
    PieceLengths(v, cell, n, l, other, rhs, merge);
    PieceLengths(out, cell, n, l, other, rhs, merge);
    PieceLengths(x, cell, n, l, other, rhs, merge);
    CodeSplit(code, q, BranchTo(v, l, other, rhs), w + p3);
    BranchParts(code, q, v, l, other, rhs);
    CodeSplit(code, q + 2, w, p3);
    CodeSplit(code, q + 2 + |w|, StoreAndGo(out, cell, merge), [Label(short)] + p4);
    CodeSplit(code, q + 4 + |w|, [Label(short)], p4);
    CodeSplit(code, q + 5 + |w|, StoreAndGo(x, cell, merge), Join(cell, merge, n));
  }

  lemma {:induction false} ShortCircuitRuns(p: Program, slots: Slots, c: Counters, e: Expr, pc: nat, env: Env,
      regs: Regs, mem: Memory, tr: Trace)
    returns (k: nat, regs': Regs, mem': Memory)
    requires e.Binary? && (e.bop.And? || e.bop.Or?)
    requires EmitShortCircuit(slots, c, e).Some?
    requires Ready(p, slots, c, pc, EmitShortCircuit(slots, c, e).value.code, env, regs, mem)
    requires Eval(p.o, env, tr, e).Val?
    ensures Ran(p, c, EmitShortCircuit(slots, c, e).value, pc, regs, mem, tr, Eval(p.o, env, tr, e), k, regs', mem')
    decreases e, 0
  {
    hide Run, Compute, Keeps, OneLabelEach, EmitExpr, StoreAndGo, Join, BranchTo, Holds, PointsTo, SlotsBelow, CodeAt;
    var cell, rhs, short, merge := c.temp, c.lab, c.lab + 1, c.lab + 2;
    var v := EmitExpr(slots, Labels(Temps(c, 1), 3), e.left).value;
    var w := EmitExpr(slots, v.next, e.right).value;
    var n, and := w.next.temp, e.bop.And?;
    var l, other := if and then rhs else short, if and then short else rhs;
    var x := ConstBool(!and);
    var rest :=
      BranchTo(v.out, l, other, rhs) + (w.code + (StoreAndGo(w.out, cell, merge) + ([Label(short)] +
      (StoreAndGo(x, cell, merge) + Join(cell, merge, n)))));
    assert EmitShortCircuit(slots, c, e).value.code == [Alloca(cell)] + (v.code + rest);
    assert Eval(p.o, env, tr, e) == EvalBinary(p.o, env, tr, e);
    var a, r := Eval(p.o, env, tr, e.left), Eval(p.o, env, tr, e);
    var k1, regs1, mem1 := CellThenExpr(p, slots, c, e.left, pc, env, regs, mem, tr, rest);
    var q := pc + 1 + |v.code|;
    ShortCircuitLayout(p.code, q, v.out, w.code, w.out, x, cell, l, other, rhs, short, merge, n);
    var s1, join := Running(q, regs1, mem1, a.trace), q + 7 + |w.code|;
    var at := if a.value.b == and then q + 2 else q + 5 + |w.code|;
    RunBranch(p, q, regs1, mem1, a.trace, v.out, l, other, a.value.b, at - 1);
    var k2: nat;
    if a.value.b == and {
      k2, regs', mem' := ArmRuns(p, slots, v.next, e.right, at, join, env, regs1, mem1, a.trace, cell, |mem|, merge, n);
      KeepsTransitive(regs, regs1, regs', c.temp, v.next.temp);
    } else {
      RunToJoin(p, at, join, regs1, mem1, a.trace, x, cell, r.value, |mem|, merge, n);
      k2, regs', mem' := 3, regs1[n := Data(r.value)], mem1[|mem| := Some(r.value)];
      KeepsNew(regs, regs1, c.temp, n, Data(r.value));
    }
    RunThen(p, s1, 1, Running(at, regs1, mem1, a.trace), k2, Running(join + 2, regs', mem', r.trace));
    RunThen(p, Running(pc, regs, mem, tr), k1, s1, 1 + k2, Running(join + 2, regs', mem', r.trace));
    k := k1 + (1 + k2);
    assert mem1[..|mem|] == mem;
    PieceLengths(v.out, cell, n, l, other, rhs, merge);
    PieceLengths(w.out, cell, n, l, other, rhs, merge);
    PieceLengths(x, cell, n, l, other, rhs, merge);
  }
}
