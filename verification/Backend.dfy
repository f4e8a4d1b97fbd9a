/** Emission of LLVM text for a function of the fragment (src/backend/llvm_text.c), as a
    function of the counters it threads. None stands for a diagnosed failure. */
module Backend {
  import opened Ir
  import opened Values
  import opened Machine

  /** A local's name and the register that holds the address of its stack cell. */
  datatype Slot = Slot(name: Name, reg: nat)

  /** The bindings in scope, innermost first. */
  type Slots = seq<Slot>

  /** next_temp, next_label and current_block_terminated. */
  datatype Counters = Counters(temp: nat, lab: nat, terminated: bool)

  datatype Emitted = Emitted(code: seq<Instr>, out: Operand, next: Counters)

  datatype EmittedAddress = EmittedAddress(code: seq<Instr>, ptr: nat, next: Counters)

  datatype EmittedArgs = EmittedArgs(code: seq<Instr>, outs: seq<Operand>, next: Counters)

  datatype EmittedStmt = EmittedStmt(code: seq<Instr>, slots: Slots, next: Counters)

  const MAX_BUILTIN_ARGS: nat := 4
  const MAX_CALL_ARGS: nat := 32

  function SlotOf(slots: Slots, x: Name): (r: Option<nat>)
    ensures r.Some? ==> exists i :: 0 <= i < |slots| && slots[i] == Slot(x, r.value)
  {
    if slots == [] then None
    else if slots[0].name == x then Some(slots[0].reg)
    else SlotOf(slots[1..], x)
  }

  function Temps(c: Counters, n: nat): Counters { c.(temp := c.temp + n) }

  function Labels(c: Counters, n: nat): Counters { c.(lab := c.lab + n) }

  /** An operand that names no register allocated later. */
  predicate Below(v: Operand, temp: nat) { v.Reg? ==> v.r < temp }

  /** A conditional branch and the label that follows it in the stream. */
  function BranchTo(v: Operand, l: nat, other: nat, next: nat): seq<Instr> {
    [CondBr(v, l, other), Label(next)]
  }

  function StoreAndGo(v: Operand, cell: nat, l: nat): seq<Instr> {
    [Store(v, cell), Br(l)]
  }

  function Join(cell: nat, merge: nat, n: nat): seq<Instr> {
    [Label(merge), Load(n, cell)]
  }

  function Spill(v: Operand, n: nat): seq<Instr> {
    [Alloca(n), Store(v, n)]
  }

  function JumpInto(l: nat): seq<Instr> {
    [Br(l), Label(l)]
  }

  function SizeOf(n: nat, t: Type): seq<Instr> {
    [SizeGep(n, t), PtrToInt(n + 1, n)]
  }

  function FlagsEqual(n: nat, a: Operand, b: Operand): seq<Instr> {
    [Extract(n, a, OkField), Extract(n + 1, b, OkField), IcmpEq(n + 2, Reg(n), Reg(n + 1))]
  }

  function Payloads(n: nat, a: Operand, b: Operand): seq<Instr> {
    [Extract(n, a, ValueField), Extract(n + 1, b, ValueField)]
  }

  function EmitEquality(c: Counters, t: Type, a: Operand, b: Operand): (r: Option<Emitted>)
    ensures r.Some? ==> c.temp < r.value.next.temp && r.value.out == Reg(r.value.next.temp - 1)
    ensures r.Some? ==> r.value.next == c.(temp := r.value.next.temp)
    decreases t
  {
    var n := c.temp;
    match t
    case TVoid => None
    case TStr => Some(Emitted([StrCmp(n, a, b), IcmpEq(n + 1, Reg(n), ConstInt(0))], Reg(n + 1), Temps(c, 2)))
    case TResult(inner) =>
      var eq :- EmitEquality(Temps(c, 5), inner, Reg(n + 3), Reg(n + 4));
      var m := eq.next.temp;
      var code := FlagsEqual(n, a, b) + (Payloads(n + 3, a, b) + (eq.code + [AndI1(m, Reg(n + 2), eq.out)]));
      Some(Emitted(code, Reg(m), Temps(eq.next, 1)))
    case _ => Some(Emitted([IcmpEq(n, a, b)], Reg(n), Temps(c, 1)))
  }

  function EmitExpr(slots: Slots, c: Counters, e: Expr): (r: Option<Emitted>)
    ensures r.Some? ==>
      c.temp <= r.value.next.temp && c.lab <= r.value.next.lab && Below(r.value.out, r.value.next.temp)
    ensures r.Some? ==> r.value.next.terminated == c.terminated
    decreases e, 1
  {
    match e
    case Int(n) => Some(Emitted([], ConstInt(n), c))
    case Bool(b) => Some(Emitted([], ConstBool(b), c))
    case Str(s) => Some(Emitted([StrAddr(c.temp, s)], Reg(c.temp), Temps(c, 1)))
    case Local(x) =>
      var p :- SlotOf(slots, x);
      Some(Emitted([Load(c.temp, p)], Reg(c.temp), Temps(c, 1)))
    case Unary(op, a) =>
      var v :- EmitExpr(slots, c, a);
      var n := v.next.temp;
      Some(Emitted(v.code + [if op.Negate? then Neg(n, v.out) else Xor(n, v.out)], Reg(n), Temps(v.next, 1)))
    case Binary(op, t, l, r) =>
      if op.And? || op.Or? then EmitShortCircuit(slots, c, e)
      else
        var v :- EmitExpr(slots, c, l);
        var w :- EmitExpr(slots, v.next, r);
        var op' :- EmitOperator(w.next, op, t, v.out, w.out);
        Some(Emitted(v.code + (w.code + op'.code), op'.out, op'.next))
    case IfExpr(_, _, _) => EmitIfExpr(slots, c, e)
    case Call(target, ret, args) =>
      if |args| > (if target.Builtin? then MAX_BUILTIN_ARGS else MAX_CALL_ARGS) then None
      else
        var vs :- EmitArgs(slots, c, args);
        var n := vs.next.temp;
        if ret.TVoid? then Some(Emitted(vs.code + [CallFn(None, target, vs.outs)], Void, vs.next))
        else Some(Emitted(vs.code + [CallFn(Some(n), target, vs.outs)], Reg(n), Temps(vs.next, 1)))
    case Field(_, _) =>
      var a :- EmitAddress(slots, c, e);
      Some(Emitted(a.code + [Load(a.next.temp, a.ptr)], Reg(a.next.temp), Temps(a.next, 1)))
    case Ok(inner) =>
      var v :- EmitExpr(slots, c, inner);
      var n := v.next.temp;
      Some(Emitted(v.code + [InsertFlag(n, true, VUnit), InsertPayload(n + 1, n, v.out)], Reg(n + 1), Temps(v.next, 2)))
    case Err(t) =>
      if !t.TResult? then None
      else Some(Emitted([InsertFlag(c.temp, false, Zero(t.inner))], Reg(c.temp), Temps(c, 1)))
    case ZAlloc(t, z) =>
      var p :- SlotOf(slots, z);
      var n := c.temp;
      Some(Emitted(SizeOf(n, t) + [Load(n + 2, p), ZoneAlloc(n + 3, Reg(n + 2), Reg(n + 1))], Reg(n + 3), Temps(c, 4)))
  }

  /** The instructions of a strict binary operator on two operands. */
  function EmitOperator(c: Counters, op: BinaryOp, t: Type, v: Operand, w: Operand): (r: Option<Emitted>)
    ensures r.Some? ==> c.temp < r.value.next.temp && r.value.out == Reg(r.value.next.temp - 1)
    ensures r.Some? ==> r.value.next == c.(temp := r.value.next.temp)
  {
    if op.Equal? then EmitEquality(c, t, v, w)
    else if op.NotEqual? then
      var eq :- EmitEquality(c, t, v, w);
      var n := eq.next.temp;
      Some(Emitted(eq.code + [Xor(n, eq.out)], Reg(n), Temps(eq.next, 1)))
    else Some(Emitted([Arith(c.temp, op, v, w)], Reg(c.temp), Temps(c, 1)))
  }

  /** `&&` and `||` through a result cell. */
  function EmitShortCircuit(slots: Slots, c: Counters, e: Expr): (r: Option<Emitted>)
    requires e.Binary?
    ensures r.Some? ==>
      c.temp <= r.value.next.temp && c.lab <= r.value.next.lab && Below(r.value.out, r.value.next.temp)
    ensures r.Some? ==> r.value.next.terminated == c.terminated
    decreases e, 0
  {
    var cell, rhs, short, merge := c.temp, c.lab, c.lab + 1, c.lab + 2;
    var v :- EmitExpr(slots, Labels(Temps(c, 1), 3), e.left);
    var w :- EmitExpr(slots, v.next, e.right);
    var n := w.next.temp;
    var branch := if e.bop.And? then BranchTo(v.out, rhs, short, rhs) else BranchTo(v.out, short, rhs, rhs);
    Some(Emitted(
      [Alloca(cell)] + (v.code + (branch + (w.code + (StoreAndGo(w.out, cell, merge) + ([Label(short)] +
        (StoreAndGo(ConstBool(!e.bop.And?), cell, merge) + Join(cell, merge, n))))))),
      Reg(n), Temps(w.next, 1)))
  }

  function EmitIfExpr(slots: Slots, c: Counters, e: Expr): (r: Option<Emitted>)
    requires e.IfExpr?
    ensures r.Some? ==>
      c.temp <= r.value.next.temp && c.lab <= r.value.next.lab && Below(r.value.out, r.value.next.temp)
    ensures r.Some? ==> r.value.next.terminated == c.terminated
    decreases e, 0
  {
    var cell, yes, no, merge := c.temp, c.lab, c.lab + 1, c.lab + 2;
    var v :- EmitExpr(slots, Labels(Temps(c, 1), 3), e.cond);
    var t :- EmitExpr(slots, v.next, e.thenExpr);
    var f :- EmitExpr(slots, t.next, e.elseExpr);
    var n := f.next.temp;
    Some(Emitted(
      [Alloca(cell)] + (v.code + (BranchTo(v.out, yes, no, yes) + (t.code + (StoreAndGo(t.out, cell, merge) +
        ([Label(no)] + (f.code + (StoreAndGo(f.out, cell, merge) + Join(cell, merge, n)))))))),
      Reg(n), Temps(f.next, 1)))
  }

  /** The address of a local or of a field; any other value is put into a fresh cell. */
  function EmitAddress(slots: Slots, c: Counters, e: Expr): (r: Option<EmittedAddress>)
    ensures r.Some? ==> c.temp <= r.value.next.temp && c.lab <= r.value.next.lab
    ensures r.Some? ==> r.value.next.terminated == c.terminated
    decreases e, if e.Field? then 0 else 2
  {
    if e.Local? then
      var p :- SlotOf(slots, e.name);
      Some(EmittedAddress([], p, c))
    else if e.Field? then
      var a :- EmitAddress(slots, c, e.base);
      Some(EmittedAddress(a.code + [Gep(a.next.temp, a.ptr, e.field)], a.next.temp, Temps(a.next, 1)))
    else
      var v :- EmitExpr(slots, c, e);
      var n := v.next.temp;
      Some(EmittedAddress(v.code + Spill(v.out, n), n, Temps(v.next, 1)))
  }

  function EmitArgs(slots: Slots, c: Counters, args: seq<Expr>): (r: Option<EmittedArgs>)
    ensures r.Some? ==>
      c.temp <= r.value.next.temp && c.lab <= r.value.next.lab && r.value.next.terminated == c.terminated
    ensures r.Some? ==> forall i :: 0 <= i < |r.value.outs| ==> Below(r.value.outs[i], r.value.next.temp)
    decreases args, 0
  {
    if args == [] then Some(EmittedArgs([], [], c))
    else
      var v :- EmitExpr(slots, c, args[0]);
      var rest :- EmitArgs(slots, v.next, args[1..]);
      Some(EmittedArgs(v.code + rest.code, [v.out] + rest.outs, rest.next))
  }

  function ZoneOpen(n: nat): seq<Instr> {
    [Alloca(n), ZoneEnter(n + 1), Store(Reg(n + 1), n)]
  }

  function Open(c: Counters): Counters { c.(terminated := false) }

  function Closed(c: Counters): Counters { c.(terminated := true) }

  /** The jump that closes a block unless its last statement already did. */
  function BrIfOpen(c: Counters, l: nat): seq<Instr> {
    if c.terminated then [] else [Br(l)]
  }

  /** A statement after a terminator starts a block of its own. */
  function Reopen(c: Counters): (seq<Instr>, Counters) {
    if c.terminated then ([Label(c.lab)], Open(Labels(c, 1))) else ([], c)
  }

  function EmitStmts(slots: Slots, c: Counters, ss: seq<Stmt>): (r: Option<EmittedStmt>)
    ensures r.Some? ==> c.temp <= r.value.next.temp && c.lab <= r.value.next.lab
    decreases ss, 0
  {
    if ss == [] then Some(EmittedStmt([], slots, c))
    else
      var (pre, c1) := Reopen(c);
      var s :- EmitStmt(slots, c1, ss[0]);
      var rest :- EmitStmts(s.slots, s.next, ss[1..]);
      Some(EmittedStmt(pre + (s.code + rest.code), rest.slots, rest.next))
  }

  function EmitStmt(slots: Slots, c: Counters, s: Stmt): (r: Option<EmittedStmt>)
    ensures r.Some? ==> c.temp <= r.value.next.temp && c.lab <= r.value.next.lab
    decreases s, 1
  {
    match s
    case Let(x, e) =>
      var v :- EmitExpr(slots, c, e);
      var n := v.next.temp;
      Some(EmittedStmt(v.code + Spill(v.out, n), [Slot(x, n)] + slots, Temps(v.next, 1)))
    case Assign(x, e) =>
      var p :- SlotOf(slots, x);
      var v :- EmitExpr(slots, c, e);
      Some(EmittedStmt(v.code + [Store(v.out, p)], slots, v.next))
    case Return(e) =>
      if e.None? then Some(EmittedStmt([Ret(Void)], slots, Closed(c)))
      else
        var v :- EmitExpr(slots, c, e.value);
        Some(EmittedStmt(v.code + [Ret(v.out)], slots, Closed(v.next)))
    case ExprStmt(e) =>
      var v :- EmitExpr(slots, c, e);
      Some(EmittedStmt(v.code, slots, v.next))
    case Free(e) =>
      var v :- EmitExpr(slots, c, e);
      Some(EmittedStmt(v.code + [FreeCall(v.out)], slots, v.next))
    case Zone(z, body) =>
      var n := c.temp;
      var b :- EmitStmts([Slot(z, n)] + slots, Temps(c, 2), body);
      Some(EmittedStmt(ZoneOpen(n) + b.code, slots, b.next))
    case IfThen(_, _) => EmitIf(slots, c, s)
    case IfElse(_, _, _) => EmitIf(slots, c, s)
    case While(_, _) => EmitWhile(slots, c, s)
    case Loop(body) =>
      var top, end := c.lab, c.lab + 1;
      var b :- EmitStmts(slots, Labels(c, 2), body);
      Some(EmittedStmt(JumpInto(top) + (b.code + (BrIfOpen(b.next, top) + [Label(end)])), slots, Open(b.next)))
    case For(_, _, _, _) => EmitFor(slots, c, s)
  }

  function EmitIf(slots: Slots, c: Counters, s: Stmt): (r: Option<EmittedStmt>)
    requires s.IfThen? || s.IfElse?
    ensures r.Some? ==> c.temp <= r.value.next.temp && c.lab <= r.value.next.lab
    decreases s, 0
  {
    var yes, no, merge := c.lab, c.lab + 1, c.lab + 2;
    var v :- EmitExpr(slots, Labels(c, 3), s.cond);
    var t :- EmitStmts(slots, v.next, s.thenBlock);
    var toMerge := BrIfOpen(t.next, merge);
    if s.IfThen? then
      Some(EmittedStmt(
        v.code + (BranchTo(v.out, yes, merge, yes) + (t.code + (toMerge + [Label(merge)]))),
        slots, Open(t.next)))
    else
      var f :- EmitStmts(slots, Open(t.next), s.elseBlock);
      Some(EmittedStmt(
        v.code + (BranchTo(v.out, yes, no, yes) + (t.code + (toMerge +
          ([Label(no)] + (f.code + (BrIfOpen(f.next, merge) + [Label(merge)])))))),
        slots, Open(f.next)))
  }

  function EmitWhile(slots: Slots, c: Counters, s: Stmt): (r: Option<EmittedStmt>)
    requires s.While?
    ensures r.Some? ==> c.temp <= r.value.next.temp && c.lab <= r.value.next.lab
    decreases s, 0
  {
    var top, body, end := c.lab, c.lab + 1, c.lab + 2;
    var v :- EmitExpr(slots, Labels(c, 3), s.cond);
    var b :- EmitStmts(slots, v.next, s.body);
    Some(EmittedStmt(
      JumpInto(top) + (v.code + (BranchTo(v.out, body, end, body) +
        (b.code + (BrIfOpen(b.next, top) + [Label(end)])))),
      slots, Open(b.next)))
  }

  function ForInit(a: Operand, b: Operand, iter: nat, limit: nat): seq<Instr> {
    [Store(a, iter), Store(b, limit)]
  }

  function ForTest(iter: nat, limit: nat, n: nat): seq<Instr> {
    [Load(n, iter), Load(n + 1, limit), Arith(n + 2, Less, Reg(n), Reg(n + 1))]
  }

  function ForNext(n: nat, iter: nat): seq<Instr> {
    [Load(n, iter), Arith(n + 1, Add, Reg(n), ConstInt(1))]
  }

  /** The step of the loop variable, in the block that ends the body. */
  function ForStep(c: Counters, iter: nat, top: nat): (seq<Instr>, Counters) {
    if c.terminated then ([], c)
    else
      var n := c.temp;
      (ForNext(n, iter) + StoreAndGo(Reg(n + 1), iter, top), Temps(c, 2))
  }

  function EmitFor(slots: Slots, c: Counters, s: Stmt): (r: Option<EmittedStmt>)
    requires s.For?
    ensures r.Some? ==> c.temp <= r.value.next.temp && c.lab <= r.value.next.lab
    decreases s, 0
  {
    var iter, limit := c.temp, c.temp + 1;
    var top, body, end := c.lab, c.lab + 1, c.lab + 2;
    var a :- EmitExpr(slots, Labels(Temps(c, 2), 3), s.start);
    var b :- EmitExpr(slots, a.next, s.end);
    var n := b.next.temp;
    var inner :- EmitStmts([Slot(s.name, iter)] + slots, Temps(b.next, 3), s.body);
    var (step, last) := ForStep(inner.next, iter, top);
    Some(EmittedStmt(
      [Alloca(iter), Alloca(limit)] + (a.code + (b.code +
        (ForInit(a.out, b.out, iter, limit) + (JumpInto(top) + (ForTest(iter, limit, n) +
        (BranchTo(Reg(n + 2), body, end, body) + (inner.code + (step + [Label(end)])))))))),
      slots, Open(last)))
  }

  /** The entry code: one cell per parameter, in order. */
  function EmitParams(names: seq<Name>, i: nat): (seq<Instr>, Slots)
    requires i <= |names|
    decreases i
  {
    if i == 0 then ([], [])
    else
      var (code, slots) := EmitParams(names, i - 1);
      (code + [Alloca(i - 1), StoreArg(i - 1, i - 1)], [Slot(names[i - 1], i - 1)] + slots)
  }

  function EmitFunction(names: seq<Name>, ret: Type, body: seq<Stmt>): Option<seq<Instr>> {
    var (entry, slots) := EmitParams(names, |names|);
    var b :- EmitStmts(slots, Counters(|names|, 0, false), body);
    var last := if b.next.terminated then [] else if ret.TVoid? then [Ret(Void)] else [Unreachable];
    Some(entry + (b.code + last))
  }
}
