/** The target of the backend: a stream of labels and LLVM instructions over registers and
    stack cells, and the machine that runs it. Falling into a label is a crash, as LLVM
    requires every block to end in a terminator. */
module Machine {
  import opened Ir
  import opened Values

  datatype Operand = ConstInt(n: int) | ConstBool(b: bool) | Void | Reg(r: nat)

  /** A register holds data or the address of (a part of) a stack cell. */
  datatype RegValue = Data(v: Value) | Address(cell: nat, path: seq<FieldName>)

  datatype Instr =
    | Label(l: nat)
    | Alloca(r: nat)
    | StoreArg(arg: nat, ptr: nat)
    | Store(v: Operand, ptr: nat)
    | Load(r: nat, ptr: nat)
    | StrAddr(r: nat, s: string)
    | Neg(r: nat, a: Operand)
    | Xor(r: nat, a: Operand)
    | Arith(r: nat, op: BinaryOp, a: Operand, b: Operand)
    | IcmpEq(r: nat, a: Operand, b: Operand)
    | StrCmp(r: nat, a: Operand, b: Operand)
    | AndI1(r: nat, a: Operand, b: Operand)
    | InsertFlag(r: nat, flag: bool, zero: Value)
    | InsertPayload(r: nat, aggregate: nat, v: Operand)
    | Extract(r: nat, v: Operand, field: FieldName)
    | Gep(r: nat, ptr: nat, field: FieldName)
    | CallFn(dest: Option<nat>, target: Target, args: seq<Operand>)
    | ZoneEnter(r: nat)
    | SizeGep(r: nat, ty: Type)
    | PtrToInt(r: nat, src: nat)
    | ZoneAlloc(r: nat, zone: Operand, size: Operand)
    | FreeCall(v: Operand)
    | Br(l: nat)
    | CondBr(v: Operand, l: nat, other: nat)
    | Ret(v: Operand)
    | Unreachable

  type Regs = map<nat, RegValue>
  type Memory = seq<Option<Value>>

  datatype State =
    | Running(pc: nat, regs: Regs, mem: Memory, trace: Trace)
    | Done(value: Value, trace: Trace)
    | Crashed

  /** The code of a function, its callees and its arguments. */
  datatype Program = Program(code: seq<Instr>, o: Oracle, args: seq<Value>)

  /** Two's-complement wrap-around, as LLVM's plain add, sub and mul do. */
  function Wrap(i: int): (r: int)
    ensures InInt64(r)
    ensures InInt64(i) ==> r == i
  {
    (i - INT64_MIN) % 0x1_0000_0000_0000_0000 + INT64_MIN
  }

  function ValueOf(regs: Regs, v: Operand): Option<Value> {
    match v
    case ConstInt(n) => Some(VInt(n))
    case ConstBool(b) => Some(VBool(b))
    case Void => Some(VUnit)
    case Reg(r) => if r in regs && regs[r].Data? then Some(regs[r].v) else None
  }

  function ValuesOf(regs: Regs, vs: seq<Operand>): Option<seq<Value>> {
    if vs == [] then Some([])
    else
      var v :- ValueOf(regs, vs[0]);
      var rest :- ValuesOf(regs, vs[1..]);
      Some([v] + rest)
  }

  /** The part of a cell that a chain of field addresses selects. */
  function Project(v: Value, path: seq<FieldName>): Option<Value>
    decreases path
  {
    if path == [] then Some(v)
    else
      var inner :- FieldOf(v, path[0]);
      Project(inner, path[1..])
  }

  function ArithResult(op: BinaryOp, v: Value, w: Value): Option<Value> {
    if !(v.VInt? && w.VInt?) then None
    else if IsComparison(op) then Some(VBool(Compare(op, v.i, w.i)))
    else
      match op
      case Add => Some(VInt(Wrap(v.i + w.i)))
      case Sub => Some(VInt(Wrap(v.i - w.i)))
      case Mul => Some(VInt(Wrap(v.i * w.i)))
      case Div => if w.i == 0 then None else Checked(TruncDiv(v.i, w.i))
      case Mod => if w.i == 0 || !InInt64(TruncDiv(v.i, w.i)) then None else Checked(TruncMod(v.i, w.i))
      case _ => None
  }

  function EqResult(v: Value, w: Value): Option<Value> {
    if v.VInt? && w.VInt? then Some(VBool(v.i == w.i))
    else if v.VBool? && w.VBool? then Some(VBool(v.b == w.b))
    else if v.VPtr? && w.VPtr? then Some(VBool(v.address == w.address))
    else None
  }

  function FindLabel(code: seq<Instr>, l: nat): (i: Option<nat>)
    ensures i.Some? ==> i.value < |code| && code[i.value] == Label(l)
    ensures i.None? ==> forall j :: 0 <= j < |code| ==> code[j] != Label(l)
  {
    if code == [] then None
    else if code[0] == Label(l) then Some(0)
    else
      var i :- FindLabel(code[1..], l);
      Some(i + 1)
  }

  /** The value an instruction gives its register; None for the other instructions, for
      undefined operands and for undefined operations. */
  function Compute(regs: Regs, mem: Memory, i: Instr): Option<RegValue> {
    match i
    case Load(_, ptr) =>
      if ptr in regs && regs[ptr].Address? && regs[ptr].cell < |mem| && mem[regs[ptr].cell].Some? then
        var v :- Project(mem[regs[ptr].cell].value, regs[ptr].path);
        Some(Data(v))
      else None
    case StrAddr(_, s) => Some(Data(VStr(s)))
    case Neg(_, a) =>
      var v :- ValueOf(regs, a);
      if v.VInt? then Some(Data(VInt(Wrap(-v.i)))) else None
    case Xor(_, a) =>
      var v :- ValueOf(regs, a);
      if v.VBool? then Some(Data(VBool(!v.b))) else None
    case Arith(_, op, a, b) =>
      var v :- ValueOf(regs, a);
      var w :- ValueOf(regs, b);
      var r :- ArithResult(op, v, w);
      Some(Data(r))
    case IcmpEq(_, a, b) =>
      var v :- ValueOf(regs, a);
      var w :- ValueOf(regs, b);
      var r :- EqResult(v, w);
      Some(Data(r))
    case StrCmp(_, a, b) =>
      var v :- ValueOf(regs, a);
      var w :- ValueOf(regs, b);
      if v.VStr? && w.VStr? then Some(Data(VInt(if v.s == w.s then 0 else 1))) else None
    case AndI1(_, a, b) =>
      var v :- ValueOf(regs, a);
      var w :- ValueOf(regs, b);
      if v.VBool? && w.VBool? then Some(Data(VBool(v.b && w.b))) else None
    case InsertFlag(_, flag, zero) => Some(Data(VResult(flag, zero)))
    case InsertPayload(_, aggregate, a) =>
      var v :- ValueOf(regs, a);
      var w :- ValueOf(regs, Reg(aggregate));
      if w.VResult? then Some(Data(VResult(w.ok, v))) else None
    case Extract(_, a, field) =>
      var v :- ValueOf(regs, a);
      var w :- FieldOf(v, field);
      Some(Data(w))
    case Gep(_, ptr, field) =>
      if ptr in regs && regs[ptr].Address? then Some(Address(regs[ptr].cell, regs[ptr].path + [field])) else None
    case SizeGep(_, ty) => Some(Data(VSize(ty)))
    case PtrToInt(_, src) =>
      var v :- ValueOf(regs, Reg(src));
      Some(Data(v))
    case _ => None
  }

  function Goto(p: Program, l: nat, regs: Regs, mem: Memory, tr: Trace): State {
    var i := FindLabel(p.code, l);
    if i.None? then Crashed else Running(i.value + 1, regs, mem, tr)
  }

  function Write(mem: Memory, regs: Regs, ptr: nat, v: Value): Option<Memory> {
    if ptr in regs && regs[ptr].Address? && regs[ptr].path == [] && regs[ptr].cell < |mem| then
      Some(mem[regs[ptr].cell := Some(v)])
    else None
  }

  function Step(p: Program, s: State): State {
    if !s.Running? then s
    else if |p.code| <= s.pc then Crashed
    else
      match p.code[s.pc]
      case Label(_) => Crashed
      case Alloca(r) => Running(s.pc + 1, s.regs[r := Address(|s.mem|, [])], s.mem + [None], s.trace)
      case StoreArg(arg, ptr) =>
        if |p.args| <= arg then Crashed
        else
          var mem := Write(s.mem, s.regs, ptr, p.args[arg]);
          if mem.None? then Crashed else Running(s.pc + 1, s.regs, mem.value, s.trace)
      case Store(a, ptr) =>
        var v := ValueOf(s.regs, a);
        if v.None? then Crashed
        else
          var mem := Write(s.mem, s.regs, ptr, v.value);
          if mem.None? then Crashed else Running(s.pc + 1, s.regs, mem.value, s.trace)
      case CallFn(dest, target, args) =>
        var vs := ValuesOf(s.regs, args);
        if vs.None? then Crashed
        else
          var a := ACall(target, vs.value);
          var v := if dest.None? then VUnit else p.o(s.trace, a);
          var regs := if dest.None? then s.regs else s.regs[dest.value := Data(v)];
          Running(s.pc + 1, regs, s.mem, s.trace + [Event(a, v)])
      case ZoneEnter(r) =>
        var v := p.o(s.trace, AZoneEnter);
        Running(s.pc + 1, s.regs[r := Data(v)], s.mem, s.trace + [Event(AZoneEnter, v)])
      case ZoneAlloc(r, zone, size) =>
        var z, n := ValueOf(s.regs, zone), ValueOf(s.regs, size);
        if z.None? || n.None? then Crashed
        else
          var a := AZoneAlloc(z.value, n.value);
          var v := p.o(s.trace, a);
          Running(s.pc + 1, s.regs[r := Data(v)], s.mem, s.trace + [Event(a, v)])
      case FreeCall(a) =>
        var v := ValueOf(s.regs, a);
        if v.None? then Crashed
        else Running(s.pc + 1, s.regs, s.mem, s.trace + [Event(AFree(v.value), VUnit)])
      case Br(l) => Goto(p, l, s.regs, s.mem, s.trace)
      case CondBr(c, l, other) =>
        var v := ValueOf(s.regs, c);
        if !(v.Some? && v.value.VBool?) then Crashed
        else Goto(p, if v.value.b then l else other, s.regs, s.mem, s.trace)
      case Ret(a) =>
        var v := ValueOf(s.regs, a);
        if v.None? then Crashed else Done(v.value, s.trace)
      case Unreachable => Crashed
      case i =>
        var v := Compute(s.regs, s.mem, i);
        if v.None? then Crashed else Running(s.pc + 1, s.regs[i.r := v.value], s.mem, s.trace)
  }

  function Run(p: Program, s: State, k: nat): State
    decreases k
  {
    if k == 0 then s else Run(p, Step(p, s), k - 1)
  }

  lemma {:induction false} RunAdd(p: Program, s: State, j: nat, k: nat)
    ensures Run(p, s, j + k) == Run(p, Run(p, s, j), k)
    decreases j
  {
    if j != 0 {
      RunAdd(p, Step(p, s), j - 1, k);
    }
  }

  lemma {:induction false} RunEnded(p: Program, s: State, k: nat)
    requires !s.Running?
    ensures Run(p, s, k) == s
    decreases k
  {
    if k != 0 {
      RunEnded(p, s, k - 1);
    }
  }
}
