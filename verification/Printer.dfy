/** Expressions written with parentheses only where the grammar levels require them. */
module Printer {
  import opened Ir
  import opened Parser

  function DigitChar(d: nat): (c: char)
    requires d < 10
    ensures IsDigit(c) && DigitValue(c) == d
  {
    '0' + d as char
  }

  function Digits(n: nat): Numeral {
    if n < 10 then [DigitChar(n)] else Digits(n / 10) + [DigitChar(n % 10)]
  }

  lemma {:induction false} DecimalDigits(n: nat)
    ensures Decimal(Digits(n)) == n
  {
    var ds := Digits(n);
    if n < 10 {
      assert ds[..0] == [];
    } else {
      DecimalDigits(n / 10);
      assert ds[..|ds| - 1] == Digits(n / 10);
    }
  }

  /** The level of the grammar that produces an expression. */
  function Level(e: PExpr): (l: nat)
    ensures l <= PRIMARY
  {
    match e
    case POk(_) => EXPRESSION
    case PBinary(op, _, _) => LevelOf(op)
    case PUnary(_, _) => UNARY
    case PAddr(_) => UNARY
    case PDeref(_) => UNARY
    case PCall(_, _) => POSTFIX
    case PIndex(_, _) => POSTFIX
    case PSlice(_, _, _) => POSTFIX
    case PField(_, _) => POSTFIX
    case _ => PRIMARY
  }

  function Print(e: PExpr, level: nat): seq<Token>
    decreases e, 1
  {
    if Level(e) < level then [LParen] + (Bare(e) + [RParen]) else Bare(e)
  }

  function PrefixToken(e: PExpr): Token
    requires e.PUnary? || e.PAddr? || e.PDeref?
  {
    if e.PAddr? then AddrKeyword else if e.PDeref? then DerefKeyword
    else if e.uop == Not then Bang else Operator(Sub)
  }

  function FieldToken(f: string): Token {
    if f == "ok" then OkKeyword else Identifier(f)
  }

  function Bare(e: PExpr): seq<Token>
    decreases e, 0
  {
    match e
    case PInt(n) => [IntLiteral(Digits(n))]
    case PBool(b) => [if b then True else False]
    case PString(s) => [StringLiteral(s)]
    case PNull => [NullKeyword]
    case PErr => [ErrKeyword]
    case PName(x) => [Identifier(x)]
    case PUnary(_, a) => [PrefixToken(e)] + Print(a, UNARY)
    case PAddr(a) => [PrefixToken(e)] + Print(a, UNARY)
    case PDeref(a) => [PrefixToken(e)] + Print(a, UNARY)
    case PBinary(op, l, r) => Print(l, LevelOf(op)) + ([Operator(op)] + Print(r, LevelOf(op) + 1))
    case POk(v) => [OkKeyword] + Print(v, EXPRESSION)
    case PCall(c, args) => Print(c, POSTFIX) + ([LParen] + (PrintItems(args) + [RParen]))
    case PIndex(b, i) => Print(b, POSTFIX) + ([LBracket] + (Print(i, EXPRESSION) + [RBracket]))
    case PSlice(b, s, t) => Print(b,
      POSTFIX) + ([LBracket] + (PrintBound(s) + ([Range] + (PrintBound(t) + [RBracket]))))
    case PField(b, f) => Print(b, POSTFIX) + [Dot, FieldToken(f)]
    case PArray(items) => [LBracket] + (PrintItems(items) + [RBracket])
    case PRepeat(x, n) => [LBracket] + (Print(x, EXPRESSION) + ([Semicolon] + (Print(n, EXPRESSION) + [RBracket])))
    case PIf(c, t, f) => [IfKeyword] + (Print(c, EXPRESSION) + (PrintBranch(t) + ([ElseKeyword] + PrintElse(f))))
    case PStruct(o, n, x, rest) => TypeTokens(o, n) + ([LBrace] + (PrintInit(x) + (PrintRest(rest) + [RBrace])))
  }

  function TypeTokens(owner: Option<string>, name: string): seq<Token> {
    if owner.None? then [Identifier(name)] else [Identifier(owner.value), Dot, Identifier(name)]
  }

  function PrintInit(x: PInit): seq<Token>
    decreases x
  {
    [Identifier(x.field)] + ([Colon] + Print(x.value, EXPRESSION))
  }

  function PrintRest(xs: seq<PInit>): seq<Token>
    decreases xs
  {
    if xs == [] then [] else [Comma] + (PrintInit(xs[0]) + PrintRest(xs[1..]))
  }

  function PrintBound(b: Option<PExpr>): seq<Token>
    decreases b, 2
  {
    if b.None? then [] else Print(b.value, EXPRESSION)
  }

  function PrintBranch(e: PExpr): seq<Token>
    decreases e, 2
  {
    [LBrace] + (Print(e, EXPRESSION) + [RBrace])
  }

  function PrintElse(e: PExpr): seq<Token>
    decreases e, 3
  {
    if e.PIf? then Bare(e) else PrintBranch(e)
  }

  function PrintItems(es: seq<PExpr>): seq<Token>
    decreases es, 0
  {
    if es == [] then []
    else if |es| == 1 then Print(es[0], EXPRESSION)
    else Print(es[0], EXPRESSION) + ([Comma] + PrintItems(es[1..]))
  }

  /** The first token tells a prefixed expression and `ok` from the others. */
  predicate Prefixes(t: Token) { t == Operator(Sub) || t == Bang || t == AddrKeyword || t == DerefKeyword }

  lemma {:induction false} FirstToken(e: PExpr, level: nat)
    ensures Print(e, level) != []
    ensures Print(e, level)[0] == OkKeyword ==> level == EXPRESSION && e.POk?
    ensures Prefixes(Print(e, level)[0]) ==> level <= UNARY
    ensures Print(e, level)[0] !in {RParen, RBracket, Range, Colon}
    decreases e, 1
  {
    if Level(e) >= level {
      match e
      case PBinary(op, l, _) => FirstToken(l, LevelOf(op));
      case PCall(c, _) => FirstToken(c, POSTFIX);
      case PIndex(b, _) => FirstToken(b, POSTFIX);
      case PSlice(b, _, _) => FirstToken(b, POSTFIX);
      case PField(b, _) => FirstToken(b, POSTFIX);
      case _ =>
    }
  }

  /** No expression has a colon behind its first token, so no branch that holds one looks like
      the fields of a struct literal. */
  lemma {:induction false} SecondToken(e: PExpr, level: nat)
    ensures Print(e, level) != [] && (|Print(e, level)| > 1 ==> Print(e, level)[1] != Colon)
    decreases e, if Level(e) < level then 1 else 0
  {
    FirstToken(e, level);
    if Level(e) < level {
      FirstToken(e, EXPRESSION);
      assert Print(e, level)[1] == (Bare(e) + [RParen])[0];
    } else {
      match e
      case PUnary(_, a) => FirstToken(a, UNARY);
      case PAddr(a) => FirstToken(a, UNARY);
      case PDeref(a) => FirstToken(a, UNARY);
      case POk(v) => FirstToken(v, EXPRESSION);
      case PBinary(op, l, r) => SecondToken(l, LevelOf(op));
      case PCall(c, _) => SecondToken(c, POSTFIX);
      case PIndex(b, _) => SecondToken(b, POSTFIX);
      case PSlice(b, _, _) => SecondToken(b, POSTFIX);
      case PField(b, _) => SecondToken(b, POSTFIX);
      case PArray(items) => SecondOfArray(items);
      case PRepeat(x, _) => FirstToken(x, EXPRESSION);
      case PIf(c, _, _) => FirstToken(c, EXPRESSION);
      case _ =>
    }
  }

  lemma SecondOfArray(items: seq<PExpr>)
    ensures ([LBracket] + (PrintItems(items) + [RBracket]))[1] != Colon
  {
    hide Print;
    if items != [] {
      FirstToken(items[0], EXPRESSION);
    }
  }
}
