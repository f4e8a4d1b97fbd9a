/** The typed intermediate representation (include/cnegative/ir.h), restricted to the
    scalar fragment: int, bool, str and `result` values, zones, calls and all structured
    statements. Pointers, slices, arrays and structs are outside the fragment. */
module Ir {

  datatype Option<+T> = None | Some(value: T) {
    predicate IsFailure() { None? }
    function PropagateFailure<U>(): Option<U> requires None? { None }
    function Extract(): T requires Some? { value }
  }

  datatype Type = TInt | TBool | TStr | TVoid | TPtr | TResult(inner: Type)

  /** A local is either named by the program or by lowering (`__cn_try_N`, `__cn_zone_N`). */
  datatype Name = User(id: string) | Gen(prefix: string, index: nat)

  datatype UnaryOp = Negate | Not

  datatype BinaryOp =
    | Add | Sub | Mul | Div | Mod
    | Equal | NotEqual | Less | LessEqual | Greater | GreaterEqual
    | And | Or

  datatype FieldName = OkField | ValueField

  /** CN_IR_CALL_BUILTIN against CN_IR_CALL_LOCAL / CN_IR_CALL_MODULE. */
  datatype Target = Builtin(modName: string, fn: string) | Function(modName: string, fn: string)

  const ZONE_RELEASE: Target := Builtin("", "__zone_release")

  /** `Binary.operands` is the type of the left operand, which selects the comparison the
      backend emits; `Call.ret` is the callee's return type. */
  datatype Expr =
    | Int(n: int)
    | Bool(b: bool)
    | Str(s: string)
    | Local(name: Name)
    | Unary(uop: UnaryOp, operand: Expr)
    | Binary(bop: BinaryOp, operands: Type, left: Expr, right: Expr)
    | IfExpr(cond: Expr, thenExpr: Expr, elseExpr: Expr)
    | Call(target: Target, ret: Type, args: seq<Expr>)
    | Field(base: Expr, field: FieldName)
    | Ok(inner: Expr)
    | Err(resultType: Type)
    | ZAlloc(allocType: Type, zone: Name)

  datatype Stmt =
    | Let(name: Name, init: Expr)
    | Assign(name: Name, rhs: Expr)
    | Return(result: Option<Expr>)
    | ExprStmt(expr: Expr)
    | Free(pointer: Expr)
    | Zone(zone: Name, body: seq<Stmt>)
    | IfThen(cond: Expr, thenBlock: seq<Stmt>)
    | IfElse(cond: Expr, thenBlock: seq<Stmt>, elseBlock: seq<Stmt>)
    | While(cond: Expr, body: seq<Stmt>)
    | Loop(body: seq<Stmt>)
    | For(name: Name, start: Expr, end: Expr, body: seq<Stmt>)
}

/** Run-time values, the observable trace, and the arithmetic shared by every level. */
module Values {
  import opened Ir

  /** An err carries the zero payload that `zeroinitializer` gives it; VSize is an opaque
      byte size of a type. */
  datatype Value =
    | VInt(i: int)
    | VBool(b: bool)
    | VStr(s: string)
    | VUnit
    | VPtr(address: nat)
    | VSize(ty: Type)
    | VResult(ok: bool, payload: Value)

  datatype Action =
    | ACall(target: Target, args: seq<Value>)
    | AZoneEnter
    | AZoneAlloc(zone: Value, size: Value)
    | AFree(pointer: Value)

  /** What the outside world sees: an action and the value it gave back. */
  datatype Event = Event(action: Action, result: Value)

  type Trace = seq<Event>

  /** Callees, the allocator and the terminal: any function of the history. */
  type Oracle = (Trace, Action) -> Value

  const INT64_MIN: int := -0x8000_0000_0000_0000
  const INT64_MAX: int := 0x7FFF_FFFF_FFFF_FFFF

  predicate InInt64(i: int) { INT64_MIN <= i <= INT64_MAX }

  /** Division that truncates toward zero (section 6.5.5 of ISO/IEC 9899:2011, LLVM sdiv). */
  function TruncDiv(a: int, b: int): int
    requires b != 0
  {
    if a >= 0 then (if b > 0 then a / b else -(a / -b))
    else (if b > 0 then -(-a / b) else -a / -b)
  }

  function TruncMod(a: int, b: int): int
    requires b != 0
  {
    a - b * TruncDiv(a, b)
  }

  function Zero(t: Type): Value {
    match t
    case TInt => VInt(0)
    case TBool => VBool(false)
    case TStr => VPtr(0)
    case TVoid => VUnit
    case TPtr => VPtr(0)
    case TResult(inner) => VResult(false, Zero(inner))
  }

  /** None: not an int64, an undefined outcome. */
  function Checked(i: int): Option<Value> {
    if InInt64(i) then Some(VInt(i)) else None
  }

  function ApplyUnary(op: UnaryOp, v: Value): Option<Value> {
    match op
    case Negate => if v.VInt? then Checked(-v.i) else None
    case Not => if v.VBool? then Some(VBool(!v.b)) else None
  }

  predicate IsComparison(op: BinaryOp) {
    op.Less? || op.LessEqual? || op.Greater? || op.GreaterEqual?
  }

  predicate IsArithmetic(op: BinaryOp) {
    op.Add? || op.Sub? || op.Mul? || op.Div? || op.Mod?
  }

  function Compare(op: BinaryOp, a: int, b: int): bool
    requires IsComparison(op)
  {
    if op == Less then a < b
    else if op == LessEqual then a <= b
    else if op == Greater then a > b
    else a >= b
  }

  function Arithmetic(op: BinaryOp, a: int, b: int): Option<Value>
    requires IsArithmetic(op)
  {
    match op
    case Add => Checked(a + b)
    case Sub => Checked(a - b)
    case Mul => Checked(a * b)
    case Div => if b == 0 then None else Checked(TruncDiv(a, b))
    case Mod => if b == 0 || !InInt64(TruncDiv(a, b)) then None else Checked(TruncMod(a, b))
  }

  /** Equality at a type: strings by content, results by flag and payload. */
  function EqualAt(t: Type, v: Value, w: Value): Option<bool> {
    match t
    case TInt => if v.VInt? && w.VInt? then Some(v.i == w.i) else None
    case TBool => if v.VBool? && w.VBool? then Some(v.b == w.b) else None
    case TStr => if v.VStr? && w.VStr? then Some(v.s == w.s) else None
    case TPtr => if v.VPtr? && w.VPtr? then Some(v.address == w.address) else None
    case TVoid => None
    case TResult(inner) =>
      if v.VResult? && w.VResult? then
        var same :- EqualAt(inner, v.payload, w.payload);
        Some((v.ok == w.ok) && same)
      else None
  }

  /** Every operator but the short-circuit ones. */
  function ApplyBinary(op: BinaryOp, t: Type, v: Value, w: Value): Option<Value>
    requires op != And && op != Or
  {
    if op == Equal then
      var same :- EqualAt(t, v, w);
      Some(VBool(same))
    else if op == NotEqual then
      var same :- EqualAt(t, v, w);
      Some(VBool(!same))
    else if !(v.VInt? && w.VInt?) then None
    else if IsComparison(op) then Some(VBool(Compare(op, v.i, w.i)))
    else Arithmetic(op, v.i, w.i)
  }

  function FieldOf(v: Value, f: FieldName): Option<Value> {
    if !v.VResult? then None
    else if f == OkField then Some(VBool(v.ok))
    else Some(v.payload)
  }
}
