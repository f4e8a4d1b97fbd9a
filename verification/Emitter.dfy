/** The emitter as the backend runs it: an object whose counters, scope and output stream the
    methods update. Each method appends exactly the code of its function in Backend. */
module Emitter {
  import opened Ir
  import opened Values
  import opened Machine
  import opened Backend

  lemma Glue(s: seq<Instr>, a: seq<Instr>, b: seq<Instr>)
    ensures (s + a) + b == s + (a + b)
  {
  }

  lemma {:induction false} Glue3(s: seq<Instr>, a: seq<Instr>, b: seq<Instr>, c: seq<Instr>)
    ensures ((s + a) + b) + c == s + (a + (b + c))
  {
    Glue(s + a, b, c);
    Glue(s, a, b + c);
  }

  lemma {:induction false} Glue5(s: seq<Instr>, a: seq<Instr>, b: seq<Instr>, c: seq<Instr>, d: seq<Instr>,
      e: seq<Instr>)
    ensures ((((s + a) + b) + c) + d) + e == s + (a + (b + (c + (d + e))))
  {
    Glue3((s + a) + b, c, d, e);
    Glue3(s, a, b, c + (d + e));
  }

  lemma {:induction false} IfExprGlue(s: seq<Instr>, a: seq<Instr>, b: seq<Instr>, c: seq<Instr>, d: seq<Instr>,
      e: seq<Instr>, f: seq<Instr>, g: seq<Instr>, h: seq<Instr>, i: seq<Instr>)
    ensures ((((((s + a) + b) + c) + (d + e)) + f) + (g + h)) + i ==
      s + (a + (b + (c + (d + (e + (f + (g + (h + i))))))))
  {
    Glue5(((s + a) + b) + c, d + e, f, g + h, i, []);
    Nothing(i);
    Nothing(((((((s + a) + b) + c) + (d + e)) + f) + (g + h)) + i);
    Glue(d, e, f + ((g + h) + i));
    Glue(g, h, i);
    Glue3(s, a, b, c + (d + (e + (f + (g + (h + i))))));
    Glue((s + a) + b, c, d + (e + (f + (g + (h + i)))));
  }

  lemma Nothing(s: seq<Instr>)
    ensures s + [] == s
  {
  }

  /** Code emitted before a rest. */
  function Prepend(code: seq<Instr>, rest: Option<EmittedStmt>): Option<EmittedStmt> {
    if rest.None? then None else Some(rest.value.(code := code + rest.value.code))
  }

  class FunctionEmitter {
    var nextTemp: nat
    var nextLabel: nat
    var terminated: bool
    var slots: Slots
    var stream: seq<Instr>

    constructor ()
      ensures State() == Counters(0, 0, false) && slots == [] && stream == []
    {
      nextTemp, nextLabel, terminated, slots, stream := 0, 0, false, [], [];
    }

    ghost function State(): Counters
      reads this
    {
      Counters(nextTemp, nextLabel, terminated)
    }

    method NextTemp() returns (r: nat)
      modifies this`nextTemp
      ensures r == old(nextTemp) && nextTemp == r + 1
    {
      r := nextTemp;
      nextTemp := nextTemp + 1;
    }

    method NextLabel() returns (l: nat)
      modifies this`nextLabel
      ensures l == old(nextLabel) && nextLabel == l + 1
    {
      l := nextLabel;
      nextLabel := nextLabel + 1;
    }

    method Put(i: Instr)
      modifies this`stream
      ensures stream == old(stream) + [i]
    {
      stream := stream + [i];
    }

    /** A label opens a block. */
    method PutLabel(l: nat)
      modifies this`stream, this`terminated
      ensures stream == old(stream) + [Label(l)] && !terminated
    {
      stream := stream + [Label(l)];
      terminated := false;
    }

    /** A branch, `ret` or `unreachable` closes it. */
    method PutTerminator(i: Instr)
      modifies this`stream, this`terminated
      ensures stream == old(stream) + [i] && terminated
    {
      stream := stream + [i];
      terminated := true;
    }

    method PutAlloca() returns (r: nat)
      modifies this`nextTemp, this`stream
      ensures r == old(nextTemp) && nextTemp == r + 1 && stream == old(stream) + [Alloca(r)]
    {
      r := NextTemp();
      Put(Alloca(r));
    }

    method PutLoad(ptr: nat) returns (v: Operand)
      modifies this`nextTemp, this`stream
      ensures v == Reg(old(nextTemp)) && nextTemp == old(nextTemp) + 1
      ensures stream == old(stream) + [Load(old(nextTemp), ptr)]
    {
      var r := NextTemp();
      Put(Load(r, ptr));
      v := Reg(r);
    }

    method PutBranch(v: Operand, l: nat, other: nat, next: nat)
      modifies this`stream, this`terminated
      ensures stream == old(stream) + BranchTo(v, l, other, next) && !terminated
    {
      PutTerminator(CondBr(v, l, other));
      PutLabel(next);
    }

    method PutStoreAndGo(v: Operand, cell: nat, l: nat)
      modifies this`stream, this`terminated
      ensures stream == old(stream) + StoreAndGo(v, cell, l) && terminated
    {
      Put(Store(v, cell));
      PutTerminator(Br(l));
    }

    method PutJumpInto(l: nat)
      modifies this`stream, this`terminated
      ensures stream == old(stream) + JumpInto(l) && !terminated
    {
      PutTerminator(Br(l));
      PutLabel(l);
    }

    method PutJoin(cell: nat, merge: nat) returns (v: Operand)
      modifies this`nextTemp, this`stream, this`terminated
      ensures v == Reg(old(nextTemp)) && nextTemp == old(nextTemp) + 1 && !terminated
      ensures stream == old(stream) + Join(cell, merge, old(nextTemp))
    {
      PutLabel(merge);
      v := PutLoad(cell);
    }

    /** The flags compared, then the payloads, in the three registers from r on. */
    method PutResultParts(a: Operand, b: Operand) returns (r: nat)
      modifies this`nextTemp, this`stream
      ensures r == old(nextTemp) + 2 && nextTemp == r + 3
      ensures stream == (old(stream) + FlagsEqual(r - 2, a, b)) + Payloads(r + 1, a, b)
    {
      var leftOk := NextTemp();
      Put(Extract(leftOk, a, OkField));
      var rightOk := NextTemp();
      Put(Extract(rightOk, b, OkField));
      r := NextTemp();
      Put(IcmpEq(r, Reg(leftOk), Reg(rightOk)));
      assert stream == old(stream) + FlagsEqual(leftOk, a, b);
      var leftValue := NextTemp();
      Put(Extract(leftValue, a, ValueField));
      var rightValue := NextTemp();
      Put(Extract(rightValue, b, ValueField));
    }

    method LowerEquality(t: Type, a: Operand, b: Operand) returns (v: Option<Operand>)
      modifies this`nextTemp, this`stream
      ensures
        var r := EmitEquality(old(State()), t, a, b);
        && (v.Some? <==> r.Some?)
        && (r.Some? ==> v == Some(r.value.out) && State() == r.value.next && stream == old(stream) + r.value.code)
      decreases t, 1
    {
      if t.TVoid? {
        v := None;
      } else if t.TStr? {
        var n := NextTemp();
        Put(StrCmp(n, a, b));
        var m := NextTemp();
        Put(IcmpEq(m, Reg(n), ConstInt(0)));
        v := Some(Reg(m));
      } else if t.TResult? {
        v := LowerResultEquality(t, a, b);
      } else {
        var n := NextTemp();
        Put(IcmpEq(n, a, b));
        v := Some(Reg(n));
      }
    }

    method LowerResultEquality(t: Type, a: Operand, b: Operand) returns (v: Option<Operand>)
      requires t.TResult?
      modifies this`nextTemp, this`stream
      ensures
        var r := EmitEquality(old(State()), t, a, b);
        && (v.Some? <==> r.Some?)
        && (r.Some? ==> v == Some(r.value.out) && State() == r.value.next && stream == old(stream) + r.value.code)
      decreases t, 0
    {
      hide FlagsEqual, Payloads, EmitEquality;
      ResultEquality(State(), t, a, b);
      ghost var s0, c, n := stream, State(), nextTemp;
      var parts := PutResultParts(a, b);
      ghost var eq := EmitEquality(Temps(c, 5), t.inner, Reg(n + 3), Reg(n + 4));
      var same := LowerEquality(t.inner, Reg(parts + 1), Reg(parts + 2));
      if same.None? {
        return None;
      }
      var m := NextTemp();
      Put(AndI1(m, Reg(parts), same.value));
      Glue3(s0 + FlagsEqual(n, a, b), Payloads(n + 3, a, b), eq.value.code, [AndI1(m, Reg(parts), same.value)]);
      Glue(s0, FlagsEqual(n, a, b), Payloads(n + 3, a, b) + (eq.value.code + [AndI1(m, Reg(parts), same.value)]));
      v := Some(Reg(m));
    }

    method LowerExpression(e: Expr) returns (v: Option<Operand>)
      requires !terminated
      modifies this`nextTemp, this`nextLabel, this`terminated, this`stream
      ensures
        var r := EmitExpr(slots, old(State()), e);
        && (v.Some? <==> r.Some?)
        && (r.Some? ==> v == Some(r.value.out) && State() == r.value.next && stream == old(stream) + r.value.code)
      decreases e, 1
    {
      match e
      case Int(n) =>
        Nothing(stream);
        v := Some(ConstInt(n));
      case Bool(b) =>
        Nothing(stream);
        v := Some(ConstBool(b));
      case Str(s) =>
        var r := NextTemp();
        Put(StrAddr(r, s));
        v := Some(Reg(r));
      case Local(x) =>
        var p := SlotOf(slots, x);
        if p.None? {
          return None;
        }
        var w := PutLoad(p.value);
        v := Some(w);
      case Unary(op, a) =>
        ghost var s0, em := stream, EmitExpr(slots, State(), a);
        v := LowerExpression(a);
        if v.Some? {
          var r := NextTemp();
          var i := if op.Negate? then Neg(r, v.value) else Xor(r, v.value);
          Put(i);
          Glue(s0, em.value.code, [i]);
          v := Some(Reg(r));
        }
      case Binary(op, _, _, _) =>
        if op.And? || op.Or? {
          v := LowerShortCircuit(e);
        } else {
          v := LowerStrict(e);
        }
      case IfExpr(_, _, _) => v := LowerIfExpression(e);
      case Call(_, _, _) => v := LowerCall(e);
      case Field(_, _) =>
        ghost var s0, em := stream, EmitAddress(slots, State(), e);
        var p := LowerAddress(e);
        if p.None? {
          return None;
        }
        var w := PutLoad(p.value);
        Glue(s0, em.value.code, [Load(w.r, p.value)]);
        v := Some(w);
      case Ok(_) => v := LowerOk(e);
      case Err(t) =>
        if !t.TResult? {
          return None;
        }
        var r := NextTemp();
        Put(InsertFlag(r, false, Zero(t.inner)));
        v := Some(Reg(r));
      case ZAlloc(t, z) => v := LowerZoneAlloc(t, z);
    }

    method LowerOk(e: Expr) returns (v: Option<Operand>)
      requires e.Ok? && !terminated
      modifies this`nextTemp, this`nextLabel, this`terminated, this`stream
      ensures
        var r := EmitExpr(slots, old(State()), e);
        && (v.Some? <==> r.Some?)
        && (r.Some? ==> v == Some(r.value.out) && State() == r.value.next && stream == old(stream) + r.value.code)
      decreases e, 0
    {
      ghost var s0, em := stream, EmitExpr(slots, State(), e.inner);
      v := LowerExpression(e.inner);
      if v.Some? {
        var flag := NextTemp();
        Put(InsertFlag(flag, true, VUnit));
        var full := NextTemp();
        Put(InsertPayload(full, flag, v.value));
        ghost var two := [InsertFlag(flag, true, VUnit), InsertPayload(full, flag, v.value)];
        assert stream == (s0 + em.value.code) + two;
        Glue(s0, em.value.code, two);
        v := Some(Reg(full));
      }
    }

    method LowerZoneAlloc(t: Type, z: Name) returns (v: Option<Operand>)
      requires !terminated
      modifies this`nextTemp, this`stream
      ensures
        var r := EmitExpr(slots, old(State()), ZAlloc(t, z));
        && (v.Some? <==> r.Some?)
        && (r.Some? ==> v == Some(r.value.out) && State() == r.value.next && stream == old(stream) + r.value.code)
    {
      ghost var s0 := stream;
      var size := NextTemp();
      Put(SizeGep(size, t));
      var bytes := NextTemp();
      Put(PtrToInt(bytes, size));
      assert stream == s0 + SizeOf(size, t);
      var p := SlotOf(slots, z);
      if p.None? {
        return None;
      }
      var zone := PutLoad(p.value);
      var r := NextTemp();
      Put(ZoneAlloc(r, zone, Reg(bytes)));
      ghost var two := [Load(zone.r, p.value), ZoneAlloc(r, zone, Reg(bytes))];
      assert stream == (s0 + SizeOf(size, t)) + two;
      Glue(s0, SizeOf(size, t), two);
      v := Some(Reg(r));
    }

    /** Both operands of a strict operator, then its instructions. */
    method LowerStrict(e: Expr) returns (v: Option<Operand>)
      requires e.Binary? && !e.bop.And? && !e.bop.Or? && !terminated
      modifies this`nextTemp, this`nextLabel, this`terminated, this`stream
      ensures
        var r := EmitExpr(slots, old(State()), e);
        && (v.Some? <==> r.Some?)
        && (r.Some? ==> v == Some(r.value.out) && State() == r.value.next && stream == old(stream) + r.value.code)
      decreases e, 0
    {
      ghost var s0, em := stream, EmitExpr(slots, State(), e.left);
      var a := LowerExpression(e.left);
      if a.None? {
        return None;
      }
      ghost var s1, em' := stream, EmitExpr(slots, State(), e.right);
      var b := LowerExpression(e.right);
      if b.None? {
        return None;
      }
      ghost var c := State();
      v := LowerOperator(e.bop, e.operands, a.value, b.value);
      if v.Some? {
        ghost var op := EmitOperator(c, e.bop, e.operands, a.value, b.value).value;
        Glue(s1, em'.value.code, op.code);
        Glue(s0, em.value.code, em'.value.code + op.code);
      }
    }

    method LowerOperator(op: BinaryOp, t: Type, a: Operand, b: Operand) returns (v: Option<Operand>)
      modifies this`nextTemp, this`stream
      ensures
        var r := EmitOperator(old(State()), op, t, a, b);
        && (v.Some? <==> r.Some?)
        && (r.Some? ==> v == Some(r.value.out) && State() == r.value.next && stream == old(stream) + r.value.code)
    {
      if op.Equal? || op.NotEqual? {
        ghost var s0, eq := stream, EmitEquality(State(), t, a, b);
        v := LowerEquality(t, a, b);
        if v.Some? && op.NotEqual? {
          var r := NextTemp();
          Put(Xor(r, v.value));
          Glue(s0, eq.value.code, [Xor(r, v.value)]);
          v := Some(Reg(r));
        }
      } else {
        var r := NextTemp();
        Put(Arith(r, op, a, b));
        v := Some(Reg(r));
      }
    }

    method LowerShortCircuit(e: Expr) returns (v: Option<Operand>)
      requires e.Binary? && !terminated
      modifies this`nextTemp, this`nextLabel, this`terminated, this`stream
      ensures
        var r := EmitShortCircuit(slots, old(State()), e);
        && (v.Some? <==> r.Some?)
        && (r.Some? ==> v == Some(r.value.out) && State() == r.value.next && stream == old(stream) + r.value.code)
      decreases e, 0
    {
      hide EmitExpr, BranchTo, StoreAndGo, Join;
      ghost var s0 := stream;
      var cell := PutAlloca();
      var rhs := NextLabel();
      var short := NextLabel();
      var merge := NextLabel();
      ghost var em := EmitExpr(slots, State(), e.left);
      var a := LowerExpression(e.left);
      if a.None? {
        return None;
      }
      ghost var branch := if e.bop.And? then BranchTo(a.value, rhs, short, rhs) else BranchTo(a.value, short, rhs, rhs);
      if e.bop.And? {
        PutBranch(a.value, rhs, short, rhs);
      } else {
        PutBranch(a.value, short, rhs, rhs);
      }
      ghost var em' := EmitExpr(slots, State(), e.right);
      var b := LowerExpression(e.right);
      if b.None? {
        return None;
      }
      PutStoreAndGo(b.value, cell, merge);
      PutLabel(short);
      PutStoreAndGo(ConstBool(!e.bop.And?), cell, merge);
      ghost var n := nextTemp;
      var w := PutJoin(cell, merge);
      v := Some(w);
      ghost var p := StoreAndGo(ConstBool(!e.bop.And?), cell, merge);
      Glue3(s0, [Alloca(cell)], em.value.code,
        branch + (em'.value.code + (StoreAndGo(b.value, cell, merge) + ([Label(short)] + (p + Join(cell, merge, n))))));
      Glue5((s0 + [Alloca(cell)]) + em.value.code, branch, em'.value.code, StoreAndGo(b.value, cell, merge),
        [Label(short)], p + Join(cell, merge, n));
      Glue(((((s0 + [Alloca(cell)]) + em.value.code) + branch) + em'.value.code) +
           StoreAndGo(b.value, cell, merge) + [Label(short)], p, Join(cell, merge, n));
    }

    /** One arm of an if-expression: its value goes into the result cell. */
    method LowerArm(e: Expr, cell: nat, merge: nat) returns (ok: bool)
      requires !terminated
      modifies this`nextTemp, this`nextLabel, this`terminated, this`stream
      ensures
        var r := EmitExpr(slots, old(State()), e);
        && (ok <==> r.Some?)
        && (ok ==> State() == Closed(r.value.next))
        && (ok ==> stream == old(stream) + (r.value.code + StoreAndGo(r.value.out, cell, merge)))
      decreases e, 2
    {
      hide EmitExpr, StoreAndGo;
      ghost var s0, em := stream, EmitExpr(slots, State(), e);
      var v := LowerExpression(e);
      if v.None? {
        return false;
      }
      PutStoreAndGo(v.value, cell, merge);
      Glue(s0, em.value.code, StoreAndGo(v.value, cell, merge));
      ok := true;
    }

    method LowerIfExpression(e: Expr) returns (v: Option<Operand>)
      requires e.IfExpr? && !terminated
      modifies this`nextTemp, this`nextLabel, this`terminated, this`stream
      ensures
        var r := EmitIfExpr(slots, old(State()), e);
        && (v.Some? <==> r.Some?)
        && (r.Some? ==> v == Some(r.value.out) && State() == r.value.next && stream == old(stream) + r.value.code)
      decreases e, 0
    {
      hide EmitExpr, BranchTo, StoreAndGo, Join;
      ghost var s0 := stream;
      var cell := PutAlloca();
      var yes := NextLabel();
      var no := NextLabel();
      var merge := NextLabel();
      ghost var em := EmitExpr(slots, State(), e.cond);
      var a := LowerExpression(e.cond);
      if a.None? {
        return None;
      }
      PutBranch(a.value, yes, no, yes);
      ghost var t := EmitExpr(slots, State(), e.thenExpr);
      var yesOk := LowerArm(e.thenExpr, cell, merge);
      if !yesOk {
        return None;
      }
      PutLabel(no);
      ghost var f := EmitExpr(slots, State(), e.elseExpr);
      var noOk := LowerArm(e.elseExpr, cell, merge);
      if !noOk {
        return None;
      }
      ghost var n := nextTemp;
      var w := PutJoin(cell, merge);
      v := Some(w);
      IfExprGlue(s0, [Alloca(cell)], em.value.code, BranchTo(a.value, yes, no, yes), t.value.code,
        StoreAndGo(t.value.out, cell, merge),
        [Label(no)], f.value.code, StoreAndGo(f.value.out, cell, merge), Join(cell, merge, n));
    }

    method LowerCall(e: Expr) returns (v: Option<Operand>)
      requires e.Call? && !terminated
      modifies this`nextTemp, this`nextLabel, this`terminated, this`stream
      ensures
        var r := EmitExpr(slots, old(State()), e);
        && (v.Some? <==> r.Some?)
        && (r.Some? ==> v == Some(r.value.out) && State() == r.value.next && stream == old(stream) + r.value.code)
      decreases e, 0
    {
      if |e.args| > (if e.target.Builtin? then MAX_BUILTIN_ARGS else MAX_CALL_ARGS) {
        return None;
      }
      ghost var s0, em := stream, EmitArgs(slots, State(), e.args);
      var outs := LowerArguments(e.args);
      if outs.None? {
        return None;
      }
      if e.ret.TVoid? {
        Put(CallFn(None, e.target, outs.value));
        Glue(s0, em.value.code, [CallFn(None, e.target, outs.value)]);
        v := Some(Void);
      } else {
        var r := NextTemp();
        Put(CallFn(Some(r), e.target, outs.value));
        Glue(s0, em.value.code, [CallFn(Some(r), e.target, outs.value)]);
        v := Some(Reg(r));
      }
    }

    method LowerArguments(args: seq<Expr>) returns (outs: Option<seq<Operand>>)
      requires !terminated
      modifies this`nextTemp, this`nextLabel, this`terminated, this`stream
      ensures
        var r := EmitArgs(slots, old(State()), args);
        && (outs.Some? <==> r.Some?)
        && (r.Some? ==> outs == Some(r.value.outs) && State() == r.value.next && stream == old(stream) + r.value.code)
      decreases args, 0
    {
      var done: seq<Operand> := [];
      ghost var c0, code := State(), [];
      Nothing(stream);
      PrependNothing(EmitArgs(slots, c0, args));
      assert args[0..] == args;
      for i := 0 to |args|
        invariant slots == old(slots) && !terminated && stream == old(stream) + code
        invariant EmitArgs(slots, c0, args) == PrependArgs(code, done, EmitArgs(slots, State(), args[i..]))
      {
        ghost var em, rest := EmitExpr(slots, State(), args[i]), EmitArgs(slots, State(), args[i..]);
        assert args[i..][0] == args[i] && args[i..][1..] == args[i + 1..];
        var v := LowerExpression(args[i]);
        if v.None? {
          return None;
        }
        Glue(old(stream), code, em.value.code);
        PrependTwice(code, done, em.value.code, v.value, EmitArgs(slots, State(), args[i + 1..]));
        code := code + em.value.code;
        done := done + [v.value];
      }
      assert args[|args|..] == [];
      Nothing(code);
      assert done + [] == done;
      outs := Some(done);
    }

    method LowerAddress(e: Expr) returns (p: Option<nat>)
      requires !terminated
      modifies this`nextTemp, this`nextLabel, this`terminated, this`stream
      ensures
        var r := EmitAddress(slots, old(State()), e);
        && (p.Some? <==> r.Some?)
        && (r.Some? ==> p == Some(r.value.ptr) && State() == r.value.next && stream == old(stream) + r.value.code)
      decreases e, if e.Field? then 0 else 2
    {
      ghost var s0 := stream;
      if e.Local? {
        Nothing(stream);
        p := SlotOf(slots, e.name);
      } else if e.Field? {
        ghost var em := EmitAddress(slots, State(), e.base);
        p := LowerAddress(e.base);
        if p.Some? {
          var r := NextTemp();
          Put(Gep(r, p.value, e.field));
          Glue(s0, em.value.code, [Gep(r, p.value, e.field)]);
          p := Some(r);
        }
      } else {
        ghost var em := EmitExpr(slots, State(), e);
        var v := LowerExpression(e);
        if v.None? {
          return None;
        }
        var r := PutAlloca();
        Put(Store(v.value, r));
        assert stream == (s0 + em.value.code) + Spill(v.value, r);
        Glue(s0, em.value.code, Spill(v.value, r));
        p := Some(r);
      }
    }

    /** The jump that closes a block unless its last statement already did. */
    method PutBrIfOpen(l: nat)
      modifies this`stream, this`terminated
      ensures stream == old(stream) + BrIfOpen(old(State()), l) && terminated
    {
      Nothing(stream);
      if !terminated {
        PutTerminator(Br(l));
      }
    }

    /** A statement after a terminator starts a block of its own. */
    method BeginBlockIfNeeded()
      modifies this`nextLabel, this`stream, this`terminated
      ensures State() == Reopen(old(State())).1 && stream == old(stream) + Reopen(old(State())).0 && !terminated
    {
      Nothing(stream);
      if terminated {
        var l := NextLabel();
        PutLabel(l);
      }
    }

    /** The statements of a block; a block with a scope of its own drops its bindings. */
    method EmitBlock(ss: seq<Stmt>, createsScope: bool) returns (ok: bool)
      modifies this
      ensures
        var r := EmitStmts(old(slots), old(State()), ss);
        && (ok <==> r.Some?)
        && (ok ==> State() == r.value.next && stream == old(stream) + r.value.code)
        && (ok ==> slots == if createsScope then old(slots) else r.value.slots)
      decreases ss, 0
    {
      hide EmitStmt, Reopen;
      var outer := slots;
      ghost var c0, code := State(), [];
      Nothing(stream);
      assert ss[0..] == ss;
      PrependEmpty(EmitStmts(slots, c0, ss));
      for i := 0 to |ss|
        invariant stream == old(stream) + code
        invariant EmitStmts(outer, c0, ss) == Prepend(code, EmitStmts(slots, State(), ss[i..]))
      {
        assert ss[i..][0] == ss[i] && ss[i..][1..] == ss[i + 1..];
        ghost var pre, s1 := Reopen(State()).0, slots;
        BeginBlockIfNeeded();
        ghost var em := EmitStmt(slots, State(), ss[i]);
        ok := EmitStatement(ss[i]);
        if !ok {
          return;
        }
        Glue3(old(stream), code, pre, em.value.code);
        PrependMore(code, pre, em.value.code, EmitStmts(slots, State(), ss[i + 1..]));
        code := code + (pre + em.value.code);
      }
      assert ss[|ss|..] == [];
      Nothing(code);
      if createsScope {
        slots := outer;
      }
      ok := true;
    }

    method EmitStatement(s: Stmt) returns (ok: bool)
      requires !terminated
      modifies this
      ensures
        var r := EmitStmt(old(slots), old(State()), s);
        && (ok <==> r.Some?)
        && (ok ==> State() == r.value.next && stream == old(stream) + r.value.code && slots == r.value.slots)
      decreases s, 1
    {
      hide EmitExpr, EmitStmts, EmitIf, EmitWhile, EmitFor;
      match s
      case Let(x, e) => ok := EmitLet(s);
      case Assign(x, e) => ok := EmitAssign(s);
      case Return(e) => ok := EmitReturn(s);
      case ExprStmt(e) =>
        var v := LowerExpression(e);
        ok := v.Some?;
      case Free(e) =>
        ghost var s0, em := stream, EmitExpr(slots, State(), e);
        var v := LowerExpression(e);
        ok := v.Some?;
        if ok {
          Put(FreeCall(v.value));
          Glue(s0, em.value.code, [FreeCall(v.value)]);
        }
      case Zone(_, _) => ok := EmitZone(s);
      case IfThen(_, _) => ok := EmitIfStatement(s);
      case IfElse(_, _, _) => ok := EmitIfStatement(s);
      case While(_, _) => ok := EmitWhileStatement(s);
      case Loop(_) => ok := EmitLoop(s);
      case For(_, _, _, _) => ok := EmitForStatement(s);
    }

    method EmitLet(s: Stmt) returns (ok: bool)
      requires s.Let? && !terminated
      modifies this
      ensures
        var r := EmitStmt(old(slots), old(State()), s);
        && (ok <==> r.Some?)
        && (ok ==> State() == r.value.next && stream == old(stream) + r.value.code && slots == r.value.slots)
    {
      hide EmitExpr;
      ghost var s0, em := stream, EmitExpr(slots, State(), s.init);
      var v := LowerExpression(s.init);
      if v.None? {
        return false;
      }
      var cell := PutAlloca();
      Put(Store(v.value, cell));
      assert stream == (s0 + em.value.code) + Spill(v.value, cell);
      Glue(s0, em.value.code, Spill(v.value, cell));
      slots := [Slot(s.name, cell)] + slots;
      ok := true;
    }

    method EmitAssign(s: Stmt) returns (ok: bool)
      requires s.Assign? && !terminated
      modifies this
      ensures
        var r := EmitStmt(old(slots), old(State()), s);
        && (ok <==> r.Some?)
        && (ok ==> State() == r.value.next && stream == old(stream) + r.value.code && slots == r.value.slots)
    {
      hide EmitExpr;
      ghost var s0, em := stream, EmitExpr(slots, State(), s.rhs);
      var ptr := SlotOf(slots, s.name);
      var v := LowerExpression(s.rhs);
      if ptr.None? || v.None? {
        return false;
      }
      Put(Store(v.value, ptr.value));
      Glue(s0, em.value.code, [Store(v.value, ptr.value)]);
      ok := true;
    }

    method EmitReturn(s: Stmt) returns (ok: bool)
      requires s.Return? && !terminated
      modifies this
      ensures
        var r := EmitStmt(old(slots), old(State()), s);
        && (ok <==> r.Some?)
        && (ok ==> State() == r.value.next && stream == old(stream) + r.value.code && slots == r.value.slots)
    {
      hide EmitExpr;
      if s.result.None? {
        PutTerminator(Ret(Void));
        return true;
      }
      ghost var s0, em := stream, EmitExpr(slots, State(), s.result.value);
      var v := LowerExpression(s.result.value);
      if v.None? {
        return false;
      }
      PutTerminator(Ret(v.value));
      Glue(s0, em.value.code, [Ret(v.value)]);
      ok := true;
    }

    method EmitZone(s: Stmt) returns (ok: bool)
      requires s.Zone? && !terminated
      modifies this
      ensures
        var r := EmitStmt(old(slots), old(State()), s);
        && (ok <==> r.Some?)
        && (ok ==> State() == r.value.next && stream == old(stream) + r.value.code && slots == r.value.slots)
      decreases s, 0
    {
      hide EmitStmts;
      var outer := slots;
      ghost var s0 := stream;
      var cell := PutAlloca();
      var handle := NextTemp();
      Put(ZoneEnter(handle));
      Put(Store(Reg(handle), cell));
      assert stream == s0 + ZoneOpen(cell);
      slots := [Slot(s.zone, cell)] + slots;
      ghost var b := EmitStmts(slots, State(), s.body);
      ok := EmitBlock(s.body, true);
      slots := outer;
      if ok {
        Glue(s0, ZoneOpen(cell), b.value.code);
      }
    }

    method EmitIfStatement(s: Stmt) returns (ok: bool)
      requires (s.IfThen? || s.IfElse?) && !terminated
      modifies this
      ensures
        var r := EmitIf(old(slots), old(State()), s);
        && (ok <==> r.Some?)
        && (ok ==> State() == r.value.next && stream == old(stream) + r.value.code && slots == r.value.slots)
      decreases s, 0
    {
      hide EmitExpr, EmitStmts, BranchTo, BrIfOpen;
      ghost var s0 := stream;
      var yes := NextLabel();
      var no := NextLabel();
      var merge := NextLabel();
      ghost var em := EmitExpr(slots, State(), s.cond);
      var v := LowerExpression(s.cond);
      if v.None? {
        return false;
      }
      PutBranch(v.value, yes, if s.IfThen? then merge else no, yes);
      ghost var t := EmitStmts(slots, State(), s.thenBlock);
      ok := EmitBlock(s.thenBlock, true);
      if !ok {
        return false;
      }
      PutBrIfOpen(merge);
      ghost var branch, goT := BranchTo(v.value, yes, if s.IfThen? then merge else no, yes),
        BrIfOpen(t.value.next, merge);
      ghost var s4 := stream;
      if s.IfElse? {
        PutLabel(no);
        ghost var f := EmitStmts(slots, State(), s.elseBlock);
        ok := EmitBlock(s.elseBlock, true);
        if !ok {
          return false;
        }
        PutBrIfOpen(merge);
        PutLabel(merge);
        ghost var goF := BrIfOpen(f.value.next, merge);
        ghost var tail := [Label(no)] + (f.value.code + (goF + [Label(merge)]));
        Glue3(s4 + [Label(no)], f.value.code, goF, [Label(merge)]);
        Glue(s4, [Label(no)], f.value.code + (goF + [Label(merge)]));
        Glue5(s0, em.value.code, branch, t.value.code, goT, tail);
      } else {
        PutLabel(merge);
        Glue5(s0, em.value.code, branch, t.value.code, goT, [Label(merge)]);
      }
      ok := true;
    }

    method EmitWhileStatement(s: Stmt) returns (ok: bool)
      requires s.While? && !terminated
      modifies this
      ensures
        var r := EmitWhile(old(slots), old(State()), s);
        && (ok <==> r.Some?)
        && (ok ==> State() == r.value.next && stream == old(stream) + r.value.code && slots == r.value.slots)
      decreases s, 0
    {
      hide EmitExpr, EmitStmts, BranchTo, BrIfOpen, JumpInto;
      ghost var s0 := stream;
      var top := NextLabel();
      var body := NextLabel();
      var end := NextLabel();
      PutJumpInto(top);
      ghost var em := EmitExpr(slots, State(), s.cond);
      var v := LowerExpression(s.cond);
      if v.None? {
        return false;
      }
      PutBranch(v.value, body, end, body);
      ghost var b := EmitStmts(slots, State(), s.body);
      ok := EmitBlock(s.body, true);
      if !ok {
        return false;
      }
      PutBrIfOpen(top);
      PutLabel(end);
      Glue5(s0 + JumpInto(top), em.value.code, BranchTo(v.value, body, end, body), b.value.code,
        BrIfOpen(b.value.next, top), [Label(end)]);
      Glue(s0, JumpInto(top),
        em.value.code + (BranchTo(v.value, body, end, body) +
        (b.value.code + (BrIfOpen(b.value.next, top) + [Label(end)]))));
    }

    method EmitLoop(s: Stmt) returns (ok: bool)
      requires s.Loop? && !terminated
      modifies this
      ensures
        var r := EmitStmt(old(slots), old(State()), s);
        && (ok <==> r.Some?)
        && (ok ==> State() == r.value.next && stream == old(stream) + r.value.code && slots == r.value.slots)
      decreases s, 0
    {
      hide EmitStmts, BrIfOpen, JumpInto;
      ghost var s0 := stream;
      var top := NextLabel();
      var end := NextLabel();
      PutJumpInto(top);
      ghost var b := EmitStmts(slots, State(), s.body);
      ok := EmitBlock(s.body, true);
      if !ok {
        return false;
      }
      PutBrIfOpen(top);
      PutLabel(end);
      Glue3(s0 + JumpInto(top), b.value.code, BrIfOpen(b.value.next, top), [Label(end)]);
      Glue(s0, JumpInto(top), b.value.code + (BrIfOpen(b.value.next, top) + [Label(end)]));
    }

    /** The cells, the bounds and the jump to the test of a range loop. */
    method EmitForEntry(s: Stmt, top: nat, iter: nat)
      returns (ok: bool, ghost a: Option<Emitted>, ghost b: Option<Emitted>)
      requires s.For? && !terminated
      modifies this`nextTemp, this`nextLabel, this`terminated, this`stream
      ensures a == EmitExpr(slots, old(State()), s.start)
      ensures a.Some? ==> b == EmitExpr(slots, a.value.next, s.end)
      ensures ok <==> a.Some? && b.Some?
      ensures ok ==> State() == b.value.next
      ensures ok ==>
        stream == old(stream) + (a.value.code + (b.value.code +
                  (ForInit(a.value.out, b.value.out, iter, iter + 1) + JumpInto(top))))
    {
      hide EmitExpr;
      ghost var s0 := stream;
      a := EmitExpr(slots, State(), s.start);
      b := None;
      var lo := LowerExpression(s.start);
      if lo.None? {
        return false, a, b;
      }
      b := EmitExpr(slots, State(), s.end);
      var hi := LowerExpression(s.end);
      if hi.None? {
        return false, a, b;
      }
      ghost var s2 := stream;
      Put(Store(lo.value, iter));
      Put(Store(hi.value, iter + 1));
      assert stream == s2 + ForInit(lo.value, hi.value, iter, iter + 1);
      PutJumpInto(top);
      Glue3(s0 + a.value.code, b.value.code, ForInit(lo.value, hi.value, iter, iter + 1), JumpInto(top));
      Glue(s0, a.value.code, b.value.code + (ForInit(lo.value, hi.value, iter, iter + 1) + JumpInto(top)));
      ok := true;
    }

    method PutForTest(iter: nat, limit: nat, body: nat, end: nat)
      modifies this`nextTemp, this`stream, this`terminated
      ensures nextTemp == old(nextTemp) + 3 && !terminated
      ensures stream ==
        (old(stream) + ForTest(iter, limit, old(nextTemp))) + BranchTo(Reg(old(nextTemp) + 2), body, end, body)
    {
      var i := PutLoad(iter);
      var n := PutLoad(limit);
      var r := NextTemp();
      Put(Arith(r, Less, i, n));
      assert stream == old(stream) + ForTest(iter, limit, old(nextTemp));
      PutBranch(Reg(r), body, end, body);
    }

    method PutForStep(iter: nat, top: nat)
      modifies this`nextTemp, this`stream, this`terminated
      ensures stream == old(stream) + ForStep(old(State()), iter, top).0 && terminated
      ensures nextTemp == ForStep(old(State()), iter, top).1.temp
    {
      Nothing(stream);
      if !terminated {
        var i := PutLoad(iter);
        var r := NextTemp();
        Put(Arith(r, Add, i, ConstInt(1)));
        assert stream == old(stream) + ForNext(i.r, iter);
        PutStoreAndGo(Reg(r), iter, top);
        Glue(old(stream), ForNext(i.r, iter), StoreAndGo(Reg(r), iter, top));
      }
    }

    method EmitForStatement(s: Stmt) returns (ok: bool)
      requires s.For? && !terminated
      modifies this
      ensures
        var r := EmitFor(old(slots), old(State()), s);
        && (ok <==> r.Some?)
        && (ok ==> State() == r.value.next && stream == old(stream) + r.value.code && slots == r.value.slots)
      decreases s, 0
    {
      hide EmitExpr, EmitStmts, BranchTo, JumpInto, ForInit, ForTest;
      var outer := slots;
      ghost var s0 := stream;
      var iter := PutAlloca();
      var limit := PutAlloca();
      assert stream == s0 + [Alloca(iter), Alloca(limit)];
      var top := NextLabel();
      var body := NextLabel();
      var end := NextLabel();
      ghost var a, b;
      ok, a, b := EmitForEntry(s, top, iter);
      if !ok {
        return false;
      }
      slots := [Slot(s.name, iter)] + slots;
      ghost var n := nextTemp;
      PutForTest(iter, limit, body, end);
      ghost var inner := EmitStmts(slots, State(), s.body);
      ok := EmitBlock(s.body, true);
      slots := outer;
      if !ok {
        return false;
      }
      PutForStep(iter, top);
      PutLabel(end);
      ForGlue(s0, [Alloca(iter), Alloca(limit)], a.value.code, b.value.code,
        ForInit(a.value.out, b.value.out, iter, limit), JumpInto(top),
        ForTest(iter, limit, n), BranchTo(Reg(n + 2), body, end, body), inner.value.code,
          ForStep(inner.value.next, iter, top).0, [Label(end)]);
    }

    /** A whole function, from a fresh emitter. */
    method EmitBody(names: seq<Name>, ret: Type, body: seq<Stmt>) returns (ok: bool)
      requires State() == Counters(0, 0, false) && slots == [] && stream == []
      modifies this
      ensures ok <==> EmitFunction(names, ret, body).Some?
      ensures ok ==> stream == EmitFunction(names, ret, body).value
    {
      hide EmitStmts;
      for i := 0 to |names|
        invariant State() == Counters(i, 0, false) && (stream, slots) == EmitParams(names, i)
      {
        ghost var s0 := stream;
        var cell := PutAlloca();
        Put(StoreArg(i, cell));
        assert stream == s0 + [Alloca(i), StoreArg(i, i)];
        slots := [Slot(names[i], cell)] + slots;
      }
      ghost var entry, b := stream, EmitStmts(slots, State(), body);
      ok := EmitBlock(body, false);
      if !ok {
        return;
      }
      Nothing(stream);
      Nothing(b.value.code);
      if !terminated {
        PutTerminator(if ret.TVoid? then Ret(Void) else Unreachable);
        Glue(entry, b.value.code, [if ret.TVoid? then Ret(Void) else Unreachable]);
      }
    }
  }

  lemma ResultEquality(c: Counters, t: Type, a: Operand, b: Operand)
    requires t.TResult?
    ensures
      var n := c.temp;
      var eq := EmitEquality(Temps(c, 5), t.inner, Reg(n + 3), Reg(n + 4));
      EmitEquality(c, t, a, b) == if eq.None? then None else
        Some(Emitted(FlagsEqual(n, a, b) + (Payloads(n + 3, a, b) +
          (eq.value.code + [AndI1(eq.value.next.temp, Reg(n + 2), eq.value.out)])),
          Reg(eq.value.next.temp), Temps(eq.value.next, 1)))
  {
  }

  lemma {:induction false} PrependEmpty(rest: Option<EmittedStmt>)
    ensures Prepend([], rest) == rest
  {
    if rest.Some? {
      assert [] + rest.value.code == rest.value.code;
    }
  }

  lemma {:induction false} PrependMore(code: seq<Instr>, pre: seq<Instr>, more: seq<Instr>, rest: Option<EmittedStmt>)
    ensures rest.Some? ==>
      Prepend(code + (pre + more), rest) == Prepend(code, Some(rest.value.(code := pre + (more + rest.value.code))))
  {
    if rest.Some? {
      Glue(code, pre + more, rest.value.code);
      Glue(pre, more, rest.value.code);
    }
  }

  lemma {:induction false} ForGlue(s: seq<Instr>, a: seq<Instr>, b: seq<Instr>, c: seq<Instr>, d: seq<Instr>,
      e: seq<Instr>, f: seq<Instr>, g: seq<Instr>, h: seq<Instr>, i: seq<Instr>, j: seq<Instr>)
    ensures ((((((s + a) + (b + (c + (d + e)))) + f) + g) + h) + i) + j ==
      s + (a + (b + (c + (d + (e + (f + (g + (h + (i + j)))))))))
  {
    var t := f + (g + (h + (i + j)));
    Glue5((s + a) + (b + (c + (d + e))), f, g, h, i, j);
    Glue(s + a, b + (c + (d + e)), t);
    Glue(b, c + (d + e), t);
    Glue(c, d + e, t);
    Glue(d, e, t);
    Glue(s, a, b + (c + (d + (e + t))));
  }

  function PrependArgs(code: seq<Instr>, outs: seq<Operand>, rest: Option<EmittedArgs>): Option<EmittedArgs> {
    if rest.None? then None
    else Some(EmittedArgs(code + rest.value.code, outs + rest.value.outs, rest.value.next))
  }

  lemma {:induction false} PrependNothing(rest: Option<EmittedArgs>)
    ensures PrependArgs([], [], rest) == rest
  {
    if rest.Some? {
      assert [] + rest.value.code == rest.value.code && [] + rest.value.outs == rest.value.outs;
    }
  }

  lemma {:induction false} PrependTwice(code: seq<Instr>, outs: seq<Operand>, more: seq<Instr>, v: Operand,
      rest: Option<EmittedArgs>)
    ensures PrependArgs(code + more, outs + [v], rest) == PrependArgs(code, outs, PrependArgs(more, [v], rest))
  {
    if rest.Some? {
      Glue(code, more, rest.value.code);
      assert (outs + [v]) + rest.value.outs == outs + ([v] + rest.value.outs);
    }
  }
}
