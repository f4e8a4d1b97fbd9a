/** The expression grammar (src/parse/parser.c:386-849): what recursive descent over a token
    sequence makes of it. None stands for a diagnosed error. */
module Parser {
  import opened Ir

  predicate IsDigit(c: char) { '0' <= c <= '9' }

  type Numeral = s: string | forall k :: 0 <= k < |s| ==> IsDigit(s[k])

  datatype Token =
    | IntLiteral(digits: Numeral)
    | StringLiteral(text: string)
    | Identifier(name: string)
    | True | False | NullKeyword | ErrKeyword | OkKeyword | IfKeyword | ElseKeyword | AddrKeyword | DerefKeyword
    | LParen | RParen | LBracket | RBracket | LBrace | RBrace
    | Comma | Dot | Range | Semicolon | Colon
    | Bang | Operator(op: BinaryOp)
    | EndOfFile

  datatype PExpr =
    | PInt(n: nat)
    | PBool(b: bool)
    | PString(s: string)
    | PNull
    | PErr
    | PName(name: string)
    | PUnary(uop: UnaryOp, operand: PExpr)
    | PAddr(target: PExpr)
    | PDeref(target: PExpr)
    | PBinary(bop: BinaryOp, left: PExpr, right: PExpr)
    | POk(value: PExpr)
    | PCall(callee: PExpr, args: seq<PExpr>)
    | PIndex(base: PExpr, index: PExpr)
    | PSlice(base: PExpr, start: Option<PExpr>, end: Option<PExpr>)
    | PField(base: PExpr, field: string)
    | PArray(items: seq<PExpr>)
    | PRepeat(item: PExpr, count: PExpr)
    | PIf(cond: PExpr, thenExpr: PExpr, elseExpr: PExpr)
    | PStruct(owner: Option<string>, typeName: string, first: PInit, rest: seq<PInit>)

  /** A field of a struct literal, which has at least one. */
  datatype PInit = PInit(field: string, value: PExpr)

  /** The grammar levels, loosest first: expression, the six binary chains, unary, postfix and
      primary. */
  const EXPRESSION: nat := 0
  const LOOSEST_CHAIN: nat := 1
  const TIGHTEST_CHAIN: nat := 6
  const UNARY: nat := 7
  const POSTFIX: nat := 8
  const PRIMARY: nat := 9

  /** The chain an operator belongs to. */
  function LevelOf(op: BinaryOp): (l: nat)
    ensures LOOSEST_CHAIN <= l <= TIGHTEST_CHAIN
  {
    match op
    case Or => 1
    case And => 2
    case Equal => 3
    case NotEqual => 3
    case Less => 4
    case LessEqual => 4
    case Greater => 4
    case GreaterEqual => 4
    case Add => 5
    case Sub => 5
    case Mul => 6
    case Div => 6
    case Mod => 6
  }

  function At(ts: seq<Token>, i: nat): Token {
    if i < |ts| then ts[i] else EndOfFile
  }

  function DigitValue(c: char): nat
    requires IsDigit(c)
  {
    c as int - '0' as int
  }

  /** The decimal value, digit by digit. */
  function Decimal(digits: Numeral): nat {
    if digits == [] then 0 else Decimal(digits[..|digits| - 1]) * 10 + DigitValue(digits[|digits| - 1])
  }

  datatype Parsed = Parsed(e: PExpr, next: nat)

  datatype ParsedItems = ParsedItems(items: seq<PExpr>, next: nat)

  datatype ParsedInits = ParsedInits(inits: seq<PInit>, next: nat)

  /** `name {` with a field name and a colon behind it starts a struct literal. */
  predicate StartsLocal(ts: seq<Token>, i: nat) {
    At(ts, i + 1) == LBrace && At(ts, i + 2).Identifier? && At(ts, i + 3) == Colon
  }

  /** So does `module.name {`. */
  predicate StartsQualified(ts: seq<Token>, i: nat) {
    && At(ts, i + 1) == Dot && At(ts, i + 2).Identifier?
    && At(ts, i + 3) == LBrace && At(ts, i + 4).Identifier? && At(ts, i + 5) == Colon
  }

  function ParseExpression(ts: seq<Token>, i: nat): (r: Option<Parsed>)
    ensures r.Some? ==> i < r.value.next <= |ts|
    decreases |ts| - i, 20
  {
    if At(ts, i) == OkKeyword then
      var v :- ParseExpression(ts, i + 1);
      Some(Parsed(POk(v.e), v.next))
    else ParseChain(ts, i, LOOSEST_CHAIN)
  }

  function ParseChain(ts: seq<Token>, i: nat, level: nat): (r: Option<Parsed>)
    requires LOOSEST_CHAIN <= level <= UNARY
    ensures r.Some? ==> i < r.value.next <= |ts|
    decreases |ts| - i, 19 - level
  {
    if level == UNARY then ParseUnary(ts, i)
    else
      var first :- ParseChain(ts, i, level + 1);
      ChainTail(ts, first.next, level, first.e)
  }

  /** The operators of one level and their right operands, folded to the left. */
  function ChainTail(ts: seq<Token>, i: nat, level: nat, left: PExpr): (r: Option<Parsed>)
    requires LOOSEST_CHAIN <= level <= TIGHTEST_CHAIN && i <= |ts|
    ensures r.Some? ==> i <= r.value.next <= |ts|
    decreases |ts| - i, 1
  {
    if At(ts, i).Operator? && LevelOf(ts[i].op) == level then
      var right :- ParseChain(ts, i + 1, level + 1);
      ChainTail(ts, right.next, level, PBinary(ts[i].op, left, right.e))
    else Some(Parsed(left, i))
  }

  function ParseUnary(ts: seq<Token>, i: nat): (r: Option<Parsed>)
    ensures r.Some? ==> i < r.value.next <= |ts|
    decreases |ts| - i, 4
  {
    var t := At(ts, i);
    if t == Operator(Sub) || t == Bang then
      var v :- ParseUnary(ts, i + 1);
      Some(Parsed(PUnary(if t == Bang then Not else Negate, v.e), v.next))
    else if t == AddrKeyword then
      var v :- ParseUnary(ts, i + 1);
      Some(Parsed(PAddr(v.e), v.next))
    else if t == DerefKeyword then
      var v :- ParseUnary(ts, i + 1);
      Some(Parsed(PDeref(v.e), v.next))
    else ParsePostfix(ts, i)
  }

  function ParsePostfix(ts: seq<Token>, i: nat): (r: Option<Parsed>)
    ensures r.Some? ==> i < r.value.next <= |ts|
    decreases |ts| - i, 3
  {
    var first :- ParsePrimary(ts, i);
    PostfixTail(ts, first.next, first.e)
  }

  /** The calls, indexes, slices and fields behind a primary. */
  function PostfixTail(ts: seq<Token>, i: nat, e: PExpr): (r: Option<Parsed>)
    requires i <= |ts|
    ensures r.Some? ==> i <= r.value.next <= |ts|
    decreases |ts| - i, 1
  {
    var t := At(ts, i);
    if t == LParen || t == LBracket || t == Dot then
      var step :- PostfixStep(ts, i, e);
      PostfixTail(ts, step.next, step.e)
    else Some(Parsed(e, i))
  }

  function PostfixStep(ts: seq<Token>, i: nat, e: PExpr): (r: Option<Parsed>)
    requires i < |ts|
    ensures r.Some? ==> i < r.value.next <= |ts|
    decreases |ts| - i, 0
  {
    if ts[i] == LParen then
      if At(ts, i + 1) == RParen then Some(Parsed(PCall(e, []), i + 2))
      else
        var args :- ParseItems(ts, i + 1);
        if At(ts, args.next) != RParen then None else Some(Parsed(PCall(e, args.items), args.next + 1))
    else if ts[i] == LBracket then
      if At(ts, i + 1) == Range then ParseSliceEnd(ts, i + 2, e, None)
      else
        var start :- ParseExpression(ts, i + 1);
        if At(ts, start.next) == Range then ParseSliceEnd(ts, start.next + 1, e, Some(start.e))
        else if At(ts, start.next) != RBracket then None
        else Some(Parsed(PIndex(e, start.e), start.next + 1))
    else if ts[i] == Dot then
      var f := At(ts, i + 1);
      if f.Identifier? then Some(Parsed(PField(e, f.name), i + 2))
      else if f == OkKeyword then Some(Parsed(PField(e, "ok"), i + 2))
      else None
    else None
  }

  function ParseSliceEnd(ts: seq<Token>, i: nat, e: PExpr, start: Option<PExpr>): (r: Option<Parsed>)
    requires i <= |ts|
    ensures r.Some? ==> i < r.value.next <= |ts|
    decreases |ts| - i, 21
  {
    if At(ts, i) == RBracket then Some(Parsed(PSlice(e, start, None), i + 1))
    else
      var end :- ParseExpression(ts, i);
      if At(ts, end.next) != RBracket then None else Some(Parsed(PSlice(e, start, Some(end.e)), end.next + 1))
  }

  /** One or more expressions between commas. */
  function ParseItems(ts: seq<Token>, i: nat): (r: Option<ParsedItems>)
    ensures r.Some? ==> i < r.value.next <= |ts|
    decreases |ts| - i, 21
  {
    var first :- ParseExpression(ts, i);
    ItemsTail(ts, first.next, [first.e])
  }

  function ItemsTail(ts: seq<Token>, i: nat, done: seq<PExpr>): (r: Option<ParsedItems>)
    requires i <= |ts|
    ensures r.Some? ==> i <= r.value.next <= |ts|
    decreases |ts| - i, 1
  {
    if At(ts, i) != Comma then Some(ParsedItems(done, i))
    else
      var e :- ParseExpression(ts, i + 1);
      ItemsTail(ts, e.next, done + [e.e])
  }

  function ParsePrimary(ts: seq<Token>, i: nat): (r: Option<Parsed>)
    ensures r.Some? ==> i < r.value.next <= |ts|
    decreases |ts| - i, 2
  {
    match At(ts, i)
    case IntLiteral(digits) => Some(Parsed(PInt(Decimal(digits)), i + 1))
    case True => Some(Parsed(PBool(true), i + 1))
    case False => Some(Parsed(PBool(false), i + 1))
    case StringLiteral(s) => Some(Parsed(PString(s), i + 1))
    case NullKeyword => Some(Parsed(PNull, i + 1))
    case ErrKeyword => Some(Parsed(PErr, i + 1))
    case IfKeyword => ParseIf(ts, i + 1)
    case Identifier(x) => ParseName(ts, i)
    case LBracket => ParseArray(ts, i + 1)
    case LParen =>
      var e :- ParseExpression(ts, i + 1);
      if At(ts, e.next) != RParen then None else Some(Parsed(e.e, e.next + 1))
    case _ => None
  }

  /** A name, or the struct literal it starts. */
  function ParseName(ts: seq<Token>, i: nat): (r: Option<Parsed>)
    requires At(ts, i).Identifier?
    ensures r.Some? ==> i < r.value.next <= |ts|
    decreases |ts| - i, 1
  {
    if StartsQualified(ts, i) then ParseStruct(ts, i + 4, Some(ts[i].name), ts[i + 2].name)
    else if StartsLocal(ts, i) then ParseStruct(ts, i + 2, None, ts[i].name)
    else Some(Parsed(PName(ts[i].name), i + 1))
  }

  /** Behind the `{` of a struct literal. */
  function ParseStruct(ts: seq<Token>, i: nat, owner: Option<string>, typeName: string): (r: Option<Parsed>)
    requires i <= |ts|
    ensures r.Some? ==> i < r.value.next <= |ts|
    decreases |ts| - i, 23
  {
    var all :- ParseInits(ts, i, []);
    if all.inits == [] then None else Some(Parsed(PStruct(owner, typeName, all.inits[0], all.inits[1..]), all.next))
  }

  /** Fields up to and with the `}`; the commas between them may be missing. */
  function ParseInits(ts: seq<Token>, i: nat, done: seq<PInit>): (r: Option<ParsedInits>)
    requires i <= |ts|
    ensures r.Some? ==> i < r.value.next <= |ts|
    decreases |ts| - i, 22
  {
    if At(ts, i) == RBrace then Some(ParsedInits(done, i + 1))
    else if !At(ts, i).Identifier? || At(ts, i + 1) != Colon then None
    else
      var v :- ParseExpression(ts, i + 2);
      ParseInits(ts, if At(ts, v.next) == Comma then v.next + 1 else v.next, done + [PInit(ts[i].name, v.e)])
  }

  function ParseArray(ts: seq<Token>, i: nat): (r: Option<Parsed>)
    requires i <= |ts|
    ensures r.Some? ==> i < r.value.next <= |ts|
    decreases |ts| - i, 22
  {
    if At(ts, i) == RBracket then Some(Parsed(PArray([]), i + 1))
    else
      var first :- ParseExpression(ts, i);
      if At(ts, first.next) == Semicolon then
        var count :- ParseExpression(ts, first.next + 1);
        if At(ts, count.next) != RBracket then None else Some(Parsed(PRepeat(first.e, count.e), count.next + 1))
      else
        var all :- ItemsTail(ts, first.next, [first.e]);
        if At(ts, all.next) != RBracket then None else Some(Parsed(PArray(all.items), all.next + 1))
  }

  /** Behind `if`: a condition and two branches; `else if` needs no braces. */
  function ParseIf(ts: seq<Token>, i: nat): (r: Option<Parsed>)
    requires i <= |ts|
    ensures r.Some? ==> i < r.value.next <= |ts|
    decreases |ts| - i, 22
  {
    var c :- ParseExpression(ts, i);
    var t :- ParseBranch(ts, c.next);
    if At(ts, t.next) != ElseKeyword then None
    else
      var f :- if At(ts, t.next + 1) == IfKeyword then ParseIf(ts, t.next + 2) else ParseBranch(ts, t.next + 1);
      Some(Parsed(PIf(c.e, t.e, f.e), f.next))
  }

  function ParseBranch(ts: seq<Token>, i: nat): (r: Option<Parsed>)
    requires i <= |ts|
    ensures r.Some? ==> i < r.value.next <= |ts|
    decreases |ts| - i, 23
  {
    if At(ts, i) != LBrace then None
    else
      var e :- ParseExpression(ts, i + 1);
      if At(ts, e.next) != RBrace then None else Some(Parsed(e.e, e.next + 1))
  }
}
