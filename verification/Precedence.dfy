/** How operators bind: the chain of operator classes, written out, decides the tree of any
    expression without parentheses (src/parse/parser.c:708-829). */
module Precedence {
  import opened Ir
  import opened Parser
  import opened Printer
  import opened ParserProof

  /** From the loosest class to the tightest. */
  const CLASSES: seq<set<BinaryOp>> := [
    {Or},
    {And},
    {Equal, NotEqual},
    {Less, LessEqual, Greater, GreaterEqual},
    {Add, Sub},
    {Mul, Div, Mod}
  ]

  predicate InClass(p: BinaryOp, i: int) { 0 <= i < 6 && p in CLASSES[i] }

  /** q binds tighter than p. */
  ghost predicate Tighter(q: BinaryOp, p: BinaryOp) { exists i, j :: InClass(p, i) && InClass(q, j) && i < j }

  predicate Atom(e: PExpr) { e.PName? || e.PInt? || e.PBool? || e.PString? || e.PNull? || e.PErr? }

  function AtomToken(e: PExpr): Token
    requires Atom(e)
  {
    match e
    case PName(x) => Identifier(x)
    case PInt(n) => IntLiteral(Digits(n))
    case PBool(b) => if b then True else False
    case PString(s) => StringLiteral(s)
    case PNull => NullKeyword
    case PErr => ErrKeyword
  }

  /** Right operands bind tighter than their operator, left operands not looser. */
  ghost predicate Levelled(e: PExpr) {
    Atom(e) ||
    (e.PBinary? && Levelled(e.left) && Levelled(e.right) &&
     (e.left.PBinary? ==> !Tighter(e.bop, e.left.bop)) && (e.right.PBinary? ==> Tighter(e.right.bop, e.bop)))
  }

  /** Operands and operators in order, without parentheses. */
  function Inorder(e: PExpr): seq<Token> {
    if Atom(e) then [AtomToken(e)]
    else if e.PBinary? then Inorder(e.left) + [Operator(e.bop)] + Inorder(e.right)
    else []
  }

  /** Nothing that goes on with an expression or makes a struct literal of its last name. */
  predicate Closes(t: Token) { !t.Operator? && t != LParen && t != LBracket && t != LBrace && t != Dot }

  lemma {:induction false} ClassOf(p: BinaryOp, i: int)
    ensures InClass(p, i) <==> i + 1 == LevelOf(p)
  {
  }

  lemma {:induction false} TighterIsHigher(q: BinaryOp, p: BinaryOp)
    ensures Tighter(q, p) <==> LevelOf(p) < LevelOf(q)
  {
    hide LevelOf, InClass;
    forall i, r
      ensures InClass(r, i) <==> i + 1 == LevelOf(r)
    {
      ClassOf(r, i);
    }
    assert InClass(p, LevelOf(p) - 1) && InClass(q, LevelOf(q) - 1);
  }

  lemma AtomPrints(e: PExpr, level: nat)
    requires Atom(e) && level <= PRIMARY
    ensures Print(e, level) == Inorder(e) == [AtomToken(e)]
  {
  }

  lemma BinaryPrints(e: PExpr, level: nat)
    requires e.PBinary? && level <= LevelOf(e.bop)
    ensures
      Print(e, level) == Print(e.left, LevelOf(e.bop)) + [Operator(e.bop)] + Print(e.right, LevelOf(e.bop) + 1)
  {
  }

  lemma {:induction false} LevelledPrints(e: PExpr, level: nat)
    requires Levelled(e) && level <= Level(e)
    ensures Print(e, level) == Inorder(e)
    decreases e
  {
    hide Tighter, Print, LevelOf;
    if e.PBinary? {
      if e.left.PBinary? {
        TighterIsHigher(e.bop, e.left.bop);
      }
      if e.right.PBinary? {
        TighterIsHigher(e.right.bop, e.bop);
      }
      LevelledPrints(e.left, LevelOf(e.bop));
      LevelledPrints(e.right, LevelOf(e.bop) + 1);
      BinaryPrints(e, level);
    } else {
      AtomPrints(e, level);
    }
  }

  /** The operands and operators of a levelled tree parse to that tree. */
  lemma {:induction false} LevelledParses(before: seq<Token>, e: PExpr, after: seq<Token>)
    requires Levelled(e) && Closes(At(after, 0))
    ensures ParseExpression(before + Inorder(e) + after, |before|) == Some(Parsed(e, |before| + |Inorder(e)|))
  {
    hide ParseExpression, Print;
    LevelledPrints(e, EXPRESSION);
    ClearAt(after, 0);
    RoundTrip(before, e, after);
  }

  /** `a p b q c` groups to the right exactly if q is in a later class than p. */
  lemma {:induction false} ThreeOperands(before: seq<Token>, a: PExpr, p: BinaryOp, b: PExpr, q: BinaryOp, c: PExpr,
      after: seq<Token>)
    requires Atom(a) && Atom(b) && Atom(c) && Closes(At(after, 0))
    ensures
      var ts := [AtomToken(a), Operator(p), AtomToken(b), Operator(q), AtomToken(c)];
      var e := if Tighter(q, p) then PBinary(p, a, PBinary(q, b, c)) else PBinary(q, PBinary(p, a, b), c);
      ParseExpression(before + ts + after, |before|) == Some(Parsed(e, |before| + 5))
  {
    hide ParseExpression, Tighter, Levelled, Inorder;
    var right := PBinary(q, b, c);
    var left := PBinary(p, a, b);
    var e := if Tighter(q, p) then PBinary(p, a, right) else PBinary(q, left, c);
    Pair(p, a, b);
    Pair(q, b, c);
    if Tighter(q, p) {
      Grouped(p, a, right);
      assert [AtomToken(a)] + [Operator(p)] + Inorder(right) == [AtomToken(a), Operator(p)] + Inorder(right);
    } else {
      Grouped(q, left, c);
    }
    LevelledParses(before, e, after);
    assert Inorder(e) == [AtomToken(a), Operator(p), AtomToken(b), Operator(q), AtomToken(c)];
  }

  lemma Pair(p: BinaryOp, a: PExpr, b: PExpr)
    requires Atom(a) && Atom(b)
    ensures Levelled(a) && Levelled(b) && Levelled(PBinary(p, a, b))
    ensures Inorder(a) == [AtomToken(a)] && Inorder(b) == [AtomToken(b)]
    ensures Inorder(PBinary(p, a, b)) == [AtomToken(a), Operator(p), AtomToken(b)]
  {
  }

  lemma Grouped(p: BinaryOp, l: PExpr, r: PExpr)
    requires Levelled(l) && Levelled(r)
    requires (l.PBinary? ==> !Tighter(p, l.bop)) && (r.PBinary? ==> Tighter(r.bop, p))
    ensures Levelled(PBinary(p, l, r)) && Inorder(PBinary(p, l, r)) == Inorder(l) + [Operator(p)] + Inorder(r)
  {
  }

  /** A prefix operator takes the operand behind it and not the chain. */
  lemma {:induction false} PrefixBinds(before: seq<Token>, not: bool, a: PExpr, q: BinaryOp, b: PExpr,
      after: seq<Token>)
    requires Atom(a) && Atom(b) && Closes(At(after, 0))
    ensures
      var ts := [if not then Bang else Operator(Sub), AtomToken(a), Operator(q), AtomToken(b)];
      var e := PBinary(q, PUnary(if not then Not else Negate, a), b);
      ParseExpression(before + ts + after, |before|) == Some(Parsed(e, |before| + 4))
  {
    hide ParseExpression, Print, LevelOf;
    var u := PUnary(if not then Not else Negate, a);
    var e := PBinary(q, u, b);
    ClearAt(after, 0);
    BinaryPrints(e, EXPRESSION);
    PrefixPrints(u, LevelOf(q));
    AtomPrints(a, UNARY);
    AtomPrints(b, LevelOf(q) + 1);
    RoundTrip(before, e, after);
    assert Print(e, EXPRESSION) == [if not then Bang else Operator(Sub), AtomToken(a), Operator(q), AtomToken(b)];
  }

  lemma PrefixPrints(e: PExpr, level: nat)
    requires e.PUnary? && level <= UNARY
    ensures Print(e, level) == [if e.uop == Not then Bang else Operator(Sub)] + Print(e.operand, UNARY)
  {
  }

  // What each other form of expression is written as

  predicate Atoms(es: seq<PExpr>) { forall i :: 0 <= i < |es| ==> Atom(es[i]) }

  /** One form over names and literals. */
  predicate Simple(e: PExpr) {
    match e
    case POk(a) => Atom(a)
    case PAddr(a) => Atom(a)
    case PDeref(a) => Atom(a)
    case PCall(a, args) => Atom(a) && |args| <= 2 && Atoms(args)
    case PIndex(a, b) => Atom(a) && Atom(b)
    case PSlice(a, b, c) => Atom(a) && (b.Some? ==> Atom(b.value)) && (c.Some? ==> Atom(c.value))
    case PField(a, _) => Atom(a)
    case PArray(items) => |items| <= 2 && Atoms(items)
    case PRepeat(a, b) => Atom(a) && Atom(b)
    case PIf(a, b, c) => Atom(a) && Atom(b) && Atom(c)
    case PStruct(_, _, x, rest) => Atom(x.value) && rest == []
    case _ => false
  }

  function Listed(es: seq<PExpr>): seq<Token>
    requires |es| <= 2 && Atoms(es)
  {
    if es == [] then [] else if |es| == 1 then [AtomToken(es[0])] else [AtomToken(es[0]), Comma, AtomToken(es[1])]
  }

  function Bounded(b: Option<PExpr>): seq<Token>
    requires b.Some? ==> Atom(b.value)
  {
    if b.None? then [] else [AtomToken(b.value)]
  }

  function Spelled(e: PExpr): seq<Token>
    requires Simple(e)
  {
    match e
    case POk(a) => [OkKeyword, AtomToken(a)]
    case PAddr(a) => [AddrKeyword, AtomToken(a)]
    case PDeref(a) => [DerefKeyword, AtomToken(a)]
    case PCall(a, args) => [AtomToken(a), LParen] + Listed(args) + [RParen]
    case PIndex(a, b) => [AtomToken(a), LBracket, AtomToken(b), RBracket]
    case PSlice(a, b, c) => [AtomToken(a), LBracket] + Bounded(b) + [Range] + Bounded(c) + [RBracket]
    case PField(a, f) => [AtomToken(a), Dot, if f == "ok" then OkKeyword else Identifier(f)]
    case PArray(items) => [LBracket] + Listed(items) + [RBracket]
    case PRepeat(a, b) => [LBracket, AtomToken(a), Semicolon, AtomToken(b), RBracket]
    case PIf(a, b, c) =>
      [IfKeyword, AtomToken(a), LBrace, AtomToken(b), RBrace, ElseKeyword, LBrace, AtomToken(c), RBrace]
    case PStruct(owner, name, x, _) =>
      (if owner.Some? then [Identifier(owner.value), Dot] else []) +
      [Identifier(name), LBrace, Identifier(x.field), Colon, AtomToken(x.value), RBrace]
  }

  lemma {:induction false} ListedPrints(es: seq<PExpr>)
    requires |es| <= 2 && Atoms(es)
    ensures PrintItems(es) == Listed(es)
  {
    hide Print;
    if es != [] {
      AtomPrints(es[0], EXPRESSION);
      if |es| == 2 {
        AtomPrints(es[1], EXPRESSION);
        assert PrintItems(es[1..]) == [AtomToken(es[1])];
      }
    }
  }

  lemma BoundPrints(b: Option<PExpr>)
    requires b.Some? ==> Atom(b.value)
    ensures PrintBound(b) == Bounded(b)
  {
    hide Print;
    if b.Some? {
      AtomPrints(b.value, EXPRESSION);
    }
  }

  lemma BranchPrints(e: PExpr)
    requires Atom(e)
    ensures PrintBranch(e) == PrintElse(e) == [LBrace, AtomToken(e), RBrace]
  {
    hide Print;
    AtomPrints(e, EXPRESSION);
  }

  lemma BarePrints(e: PExpr)
    requires Simple(e)
    ensures Print(e, EXPRESSION) == Bare(e)
  {
  }

  lemma {:induction false} SpelledPrints(e: PExpr)
    requires Simple(e)
    ensures Print(e, EXPRESSION) == Spelled(e)
  {
    hide Print, AtomToken, Spelled, Bare;
    BarePrints(e);
    if e.PCall? || e.PIndex? || e.PSlice? || e.PField? {
      SuffixPrints(e);
    } else if e.PIf? {
      IfPrints(e);
    } else {
      OtherPrints(e);
    }
  }

  lemma {:induction false} SuffixPrints(e: PExpr)
    requires Simple(e) && (e.PCall? || e.PIndex? || e.PSlice? || e.PField?)
    ensures Bare(e) == Spelled(e)
  {
    hide Print, AtomToken, Listed, Bounded, PrintItems, PrintBound;
    match e
    case PCall(a, args) => AtomPrints(a, POSTFIX); ListedPrints(args);
    case PIndex(a, b) => AtomPrints(a, POSTFIX); AtomPrints(b, EXPRESSION);
    case PSlice(_, _, _) => SlicePrints(e);
    case PField(a, _) => AtomPrints(a, POSTFIX);
  }

  lemma {:induction false} SlicePrints(e: PExpr)
    requires Simple(e) && e.PSlice?
    ensures Bare(e) == Spelled(e)
  {
    hide Print, AtomToken, Bounded, PrintBound;
    AtomPrints(e.base, POSTFIX);
    BoundPrints(e.start);
    BoundPrints(e.end);
  }

  lemma {:induction false} IfPrints(e: PExpr)
    requires Simple(e) && e.PIf?
    ensures Bare(e) == Spelled(e)
  {
    hide Print, AtomToken, PrintBranch, PrintElse;
    AtomPrints(e.cond, EXPRESSION);
    BranchPrints(e.thenExpr);
    BranchPrints(e.elseExpr);
    assert Spelled(e) == [IfKeyword, AtomToken(e.cond)] + PrintBranch(e.thenExpr) + [ElseKeyword] +
        PrintBranch(e.elseExpr);
  }

  lemma {:induction false} OtherPrints(e: PExpr)
    requires Simple(e) && !e.PCall? && !e.PIndex? && !e.PSlice? && !e.PField? && !e.PIf?
    ensures Bare(e) == Spelled(e)
  {
    hide Print, AtomToken, Listed, PrintItems;
    match e
    case POk(a) => AtomPrints(a, EXPRESSION);
    case PAddr(a) => AtomPrints(a, UNARY);
    case PDeref(a) => AtomPrints(a, UNARY);
    case PArray(items) => ListedPrints(items);
    case PRepeat(a, b) => AtomPrints(a, EXPRESSION); AtomPrints(b, EXPRESSION);
    case PStruct(_, _, x, _) => AtomPrints(x.value, EXPRESSION);
  }

  /** Each form is written with its own tokens and parses to itself. */
  lemma {:induction false} SpelledParses(before: seq<Token>, e: PExpr, after: seq<Token>)
    requires Simple(e) && Closes(At(after, 0))
    ensures ParseExpression(before + Spelled(e) + after, |before|) == Some(Parsed(e, |before| + |Spelled(e)|))
  {
    hide ParseExpression, Print, Spelled;
    SpelledPrints(e);
    ClearAt(after, 0);
    RoundTrip(before, e, after);
  }
}
