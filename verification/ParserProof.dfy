/** Printing an expression and parsing the tokens gives the expression back and consumes
    exactly those tokens. */
module ParserProof {
  import opened Ir
  import opened Parser
  import opened Printer

  /** The tokens hold p at i. */
  predicate Has(ts: seq<Token>, i: nat, p: seq<Token>) {
    i + |p| <= |ts| && ts[i..i + |p|] == p
  }

  lemma {:induction false} HasSplit(ts: seq<Token>, i: nat, a: seq<Token>, b: seq<Token>)
    requires Has(ts, i, a + b)
    ensures Has(ts, i, a) && Has(ts, i + |a|, b)
  {
    assert ts[i..i + |a|] == (a + b)[..|a|] == a;
    assert ts[i + |a|..i + |a| + |b|] == (a + b)[|a|..] == b;
  }

  lemma {:induction false} HasAt(ts: seq<Token>, i: nat, p: seq<Token>, k: nat)
    requires Has(ts, i, p) && k < |p|
    ensures i + k < |ts| && At(ts, i + k) == p[k]
  {
    assert ts[i..i + |p|][k] == p[k];
  }

  lemma {:induction false} HasToken(ts: seq<Token>, i: nat, t: Token, b: seq<Token>)
    requires Has(ts, i, [t] + b)
    ensures i < |ts| && At(ts, i) == t && Has(ts, i + 1, b)
  {
    HasAt(ts, i, [t] + b, 0);
    HasSplit(ts, i, [t], b);
  }

  lemma {:induction false} HasOne(ts: seq<Token>, i: nat, t: Token)
    requires Has(ts, i, [t])
    ensures i < |ts| && At(ts, i) == t
  {
    HasAt(ts, i, [t], 0);
  }

  /** Continues a postfix expression. */
  predicate Opens(t: Token) { t == LParen || t == LBracket || t == Dot }

  /** Does not continue an expression parsed at this level. */
  predicate NotAbove(t: Token, level: nat) { !Opens(t) && (t.Operator? ==> LevelOf(t.op) <= level) }

  /** No struct literal would start with a name that ends here. */
  predicate Clear(ts: seq<Token>, j: nat) {
    && !(At(ts, j) == LBrace && At(ts, j + 1).Identifier? && At(ts, j + 2) == Colon)
    && !(At(ts, j) == Dot && At(ts, j + 1).Identifier? && At(ts, j + 2) == LBrace
         && At(ts, j + 3).Identifier? && At(ts, j + 4) == Colon)
  }

  lemma ClearAt(ts: seq<Token>, j: nat)
    requires At(ts, j) != LBrace && At(ts, j) != Dot
    ensures Clear(ts, j)
  {
  }

  /** Orders the grammar levels an expression passes: first those that need parentheses. */
  function Rank(e: PExpr, level: nat): nat
    requires level <= PRIMARY
  {
    if Level(e) < level then 30 - level else 15 - level
  }

  lemma SameAbove(e: PExpr, level: nat)
    requires Level(e) != level
    ensures Print(e, level) == Print(e, level + 1)
  {
  }

  lemma {:induction false} ExpressionParses(ts: seq<Token>, i: nat, e: PExpr)
    requires Has(ts, i, Print(e, EXPRESSION)) && NotAbove(At(ts, i + |Print(e, EXPRESSION)|), EXPRESSION)
    requires Clear(ts, i + |Print(e, EXPRESSION)|)
    ensures ParseExpression(ts, i) == Some(Parsed(e, i + |Print(e, EXPRESSION)|))
    decreases e, Rank(e, EXPRESSION), 0
  {
    hide Has, Clear, Bare, ParseChain;
    var j := i + |Print(e, EXPRESSION)|;
    if e.POk? {
      assert Print(e, EXPRESSION) == [OkKeyword] + Print(e.value, EXPRESSION) by { BareOk(e); }
      HasToken(ts, i, OkKeyword, Print(e.value, EXPRESSION));
      ExpressionParses(ts, i + 1, e.value);
    } else {
      FirstToken(e, EXPRESSION);
      HasAt(ts, i, Print(e, EXPRESSION), 0);
      SameAbove(e, EXPRESSION);
      ChainParses(ts, i, e, LOOSEST_CHAIN);
      HasBound(ts, i, Print(e, EXPRESSION));
    }
  }

  lemma HasBound(ts: seq<Token>, i: nat, p: seq<Token>)
    requires Has(ts, i, p)
    ensures i + |p| <= |ts|
  {
  }

  lemma BareOk(e: PExpr)
    requires e.POk?
    ensures Bare(e) == [OkKeyword] + Print(e.value, EXPRESSION)
  {
  }

  lemma {:induction false} ChainParses(ts: seq<Token>, i: nat, e: PExpr, level: nat)
    requires LOOSEST_CHAIN <= level <= TIGHTEST_CHAIN
    requires Has(ts, i, Print(e, level)) && NotAbove(At(ts, i + |Print(e, level)|), level)
    requires Clear(ts, i + |Print(e, level)|)
    ensures i + |Print(e, level)| <= |ts|
    ensures ParseChain(ts, i, level) == ChainTail(ts, i + |Print(e, level)|, level, e)
    decreases e, Rank(e, level), 0
  {
    hide Has, Clear, Print, ParseUnary;
    var j := i + |Print(e, level)|;
    HasBound(ts, i, Print(e, level));
    if Level(e) == level {
      BinaryParses(ts, i, e);
    } else {
      SameAbove(e, level);
      OperandParses(ts, i, e, level + 1);
    }
  }

  /** An operand of a chain, followed by something its own level does not continue with. */
  lemma {:induction false} OperandParses(ts: seq<Token>, i: nat, e: PExpr, level: nat)
    requires LOOSEST_CHAIN < level <= UNARY
    requires Has(ts, i, Print(e, level)) && NotAbove(At(ts, i + |Print(e, level)|), level - 1)
    requires Clear(ts, i + |Print(e, level)|)
    ensures ParseChain(ts, i, level) == Some(Parsed(e, i + |Print(e, level)|))
    decreases e, Rank(e, level), 1
  {
    hide Has, Clear, Print;
    if level == UNARY {
      UnaryParses(ts, i, e);
    } else {
      ChainParses(ts, i, e, level);
    }
  }

  lemma {:induction false} BinaryParses(ts: seq<Token>, i: nat, e: PExpr)
    requires e.PBinary?
    requires var level := LevelOf(e.bop);
      Has(ts, i, Print(e, level)) && NotAbove(At(ts, i + |Print(e, level)|), level) && Clear(ts, i + |Print(e, level)|)
    ensures var level := LevelOf(e.bop);
      i + |Print(e, level)| <= |ts| && ParseChain(ts, i, level) == ChainTail(ts, i + |Print(e, level)|, level, e)
    decreases e, 0, 0
  {
    hide Has, Clear, Print, Bare, ParseChain;
    var level, l, r := LevelOf(e.bop), e.left, e.right;
    BareBinary(e);
    var k := i + |Print(l, level)|;
    HasBound(ts, i, Print(e, level));
    HasSplit(ts, i, Print(l, level), [Operator(e.bop)] + Print(r, level + 1));
    HasToken(ts, k, Operator(e.bop), Print(r, level + 1));
    ClearAt(ts, k);
    ChainParses(ts, i, l, level);
    OperandParses(ts, k + 1, r, level + 1);
  }

  lemma BareBinary(e: PExpr)
    requires e.PBinary?
    ensures Print(e, LevelOf(e.bop)) ==
      Print(e.left, LevelOf(e.bop)) + ([Operator(e.bop)] + Print(e.right, LevelOf(e.bop) + 1))
  {
  }

  lemma {:induction false} UnaryStep(ts: seq<Token>, i: nat, e: PExpr, m: nat)
    requires Level(e) == UNARY && i < |ts| && At(ts, i) == PrefixToken(e)
    requires ParseUnary(ts, i + 1) == Some(Parsed(if e.PUnary? then e.operand else e.target, m))
    ensures ParseUnary(ts, i) == Some(Parsed(e, m))
  {
    hide ParsePostfix;
  }

  lemma {:induction false} NoPrefix(ts: seq<Token>, i: nat)
    requires !Prefixes(At(ts, i))
    ensures ParseUnary(ts, i) == ParsePostfix(ts, i)
  {
    hide ParsePostfix;
  }

  lemma TailEnds(ts: seq<Token>, i: nat, e: PExpr)
    requires i <= |ts| && !Opens(At(ts, i))
    ensures PostfixTail(ts, i, e) == Some(Parsed(e, i))
  {
  }

  lemma {:induction false} UnaryParses(ts: seq<Token>, i: nat, e: PExpr)
    requires Has(ts, i, Print(e, UNARY)) && !Opens(At(ts, i + |Print(e, UNARY)|)) && Clear(ts, i + |Print(e, UNARY)|)
    ensures ParseUnary(ts, i) == Some(Parsed(e, i + |Print(e, UNARY)|))
    decreases e, Rank(e, UNARY), 0
  {
    hide Has, At, Clear, Print, Bare, ParseUnary, ParsePostfix, PostfixTail, PrefixToken, Opens;
    if Level(e) == UNARY {
      var a := if e.PUnary? then e.operand else e.target;
      BarePrefix(e);
      HasToken(ts, i, PrefixToken(e), Print(a, UNARY));
      UnaryParses(ts, i + 1, a);
      UnaryStep(ts, i, e, i + 1 + |Print(a, UNARY)|);
    } else {
      SameAbove(e, UNARY);
      FirstToken(e, POSTFIX);
      HasAt(ts, i, Print(e, POSTFIX), 0);
      HasBound(ts, i, Print(e, POSTFIX));
      PostfixParses(ts, i, e);
      NoPrefix(ts, i);
      TailEnds(ts, i + |Print(e, POSTFIX)|, e);
    }
  }

  lemma BarePrefix(e: PExpr)
    requires Level(e) == UNARY
    ensures e.PUnary? || e.PAddr? || e.PDeref?
    ensures Print(e, UNARY) == [PrefixToken(e)] + Print(if e.PUnary? then e.operand else e.target, UNARY)
  {
  }

  lemma {:induction false} TailStarts(ts: seq<Token>, i: nat, e: PExpr, m: nat)
    requires ParsePrimary(ts, i) == Some(Parsed(e, m))
    ensures m <= |ts| && ParsePostfix(ts, i) == PostfixTail(ts, m, e)
  {
    hide ParsePrimary, PostfixTail;
  }

  lemma {:induction false} TailContinues(ts: seq<Token>, k: nat, base: PExpr, e: PExpr, m: nat)
    requires k < |ts| && Opens(At(ts, k)) && PostfixStep(ts, k, base) == Some(Parsed(e, m))
    ensures m <= |ts| && PostfixTail(ts, k, base) == PostfixTail(ts, m, e)
  {
    hide PostfixStep;
  }

  lemma {:induction false} PostfixParses(ts: seq<Token>, i: nat, e: PExpr)
    requires Has(ts, i, Print(e, POSTFIX)) && Clear(ts, i + |Print(e, POSTFIX)|)
    ensures i + |Print(e, POSTFIX)| <= |ts| && ParsePostfix(ts, i) == PostfixTail(ts, i + |Print(e, POSTFIX)|, e)
    decreases e, Rank(e, POSTFIX), 0
  {
    hide Has, At, Clear, Print, Bare, ParsePrimary, ParsePostfix, PostfixTail, PostfixStep, Suffix;
    if Level(e) == POSTFIX {
      var base := BaseOf(e);
      BarePostfix(e);
      HasSplit(ts, i, Print(base, POSTFIX), Suffix(e));
      var k := i + |Print(base, POSTFIX)|;
      BaseClear(ts, k, e);
      PostfixParses(ts, i, base);
      SuffixParses(ts, k, e);
      TailContinues(ts, k, base, e, k + |Suffix(e)|);
    } else {
      SameAbove(e, POSTFIX);
      PrimaryParses(ts, i, e);
      TailStarts(ts, i, e, i + |Print(e, POSTFIX)|);
    }
  }

  function BaseOf(e: PExpr): PExpr
    requires Level(e) == POSTFIX
  {
    match e
    case PCall(c, _) => c
    case PIndex(b, _) => b
    case PSlice(b, _, _) => b
    case PField(b, _) => b
  }

  function Suffix(e: PExpr): seq<Token>
    requires Level(e) == POSTFIX
  {
    match e
    case PCall(_, args) => [LParen] + (PrintItems(args) + [RParen])
    case PIndex(_, i) => [LBracket] + (Print(i, EXPRESSION) + [RBracket])
    case PSlice(_, s, t) => [LBracket] + (PrintBound(s) + ([Range] + (PrintBound(t) + [RBracket])))
    case PField(_, f) => [Dot, FieldToken(f)]
  }

  lemma BarePostfix(e: PExpr)
    requires Level(e) == POSTFIX
    ensures Print(e, POSTFIX) == Print(BaseOf(e), POSTFIX) + Suffix(e)
    ensures |Print(e, POSTFIX)| == |Print(BaseOf(e), POSTFIX)| + |Suffix(e)|
  {
  }

  lemma {:induction false} BaseClear(ts: seq<Token>, k: nat, e: PExpr)
    requires Level(e) == POSTFIX && Has(ts, k, Suffix(e)) && Clear(ts, k + |Suffix(e)|)
    ensures Clear(ts, k) && k < |ts| && Opens(At(ts, k))
  {
    HasAt(ts, k, Suffix(e), 0);
    if e.PField? {
      HasAt(ts, k, Suffix(e), 1);
    }
  }

  lemma {:induction false} CallStep(ts: seq<Token>, k: nat, base: PExpr, args: seq<PExpr>, m: nat)
    requires k < |ts| && At(ts, k) == LParen && At(ts, k + 1) != RParen
    requires ParseItems(ts, k + 1) == Some(ParsedItems(args, m)) && At(ts, m) == RParen
    ensures PostfixStep(ts, k, base) == Some(Parsed(PCall(base, args), m + 1))
  {
    hide ParseItems;
  }

  lemma {:induction false} IndexStep(ts: seq<Token>, k: nat, base: PExpr, x: PExpr, m: nat)
    requires k < |ts| && At(ts, k) == LBracket && At(ts, k + 1) != Range
    requires ParseExpression(ts, k + 1) == Some(Parsed(x, m)) && At(ts, m) == RBracket
    ensures PostfixStep(ts, k, base) == Some(Parsed(PIndex(base, x), m + 1))
  {
    hide ParseExpression;
  }

  lemma {:induction false} SliceStep(ts: seq<Token>, k: nat, base: PExpr, start: Option<PExpr>, m: nat)
    requires k < m < |ts| && At(ts, k) == LBracket && At(ts, m) == Range
    requires if start.None? then m == k + 1
             else At(ts, k + 1) != Range && ParseExpression(ts, k + 1) == Some(Parsed(start.value, m))
    ensures PostfixStep(ts, k, base) == ParseSliceEnd(ts, m + 1, base, start)
  {
    hide ParseExpression, ParseSliceEnd;
  }

  lemma {:induction false} SliceEnd(ts: seq<Token>, i: nat, base: PExpr, start: Option<PExpr>, end: Option<PExpr>,
      m: nat)
    requires i <= m < |ts| && At(ts, m) == RBracket
    requires if end.None? then m == i else At(ts, i) != RBracket && ParseExpression(ts, i) == Some(Parsed(end.value, m))
    ensures ParseSliceEnd(ts, i, base, start) == Some(Parsed(PSlice(base, start, end), m + 1))
  {
    hide ParseExpression;
  }

  /** One call, index, slice or field. */
  lemma {:induction false} SuffixParses(ts: seq<Token>, k: nat, e: PExpr)
    requires Level(e) == POSTFIX && k < |ts| && Has(ts, k, Suffix(e))
    ensures PostfixStep(ts, k, BaseOf(e)) == Some(Parsed(e, k + |Suffix(e)|))
    decreases e, 1, 0
  {
    hide Has, Print, PostfixStep;
    match e
    case PCall(_, _) => CallParses(ts, k, e);
    case PIndex(_, _) => IndexParses(ts, k, e);
    case PSlice(_, _, _) => SliceParses(ts, k, e);
    case PField(_, _) => FieldParses(ts, k, e);
  }

  lemma {:induction false} FieldParses(ts: seq<Token>, k: nat, e: PExpr)
    requires e.PField? && k < |ts| && Has(ts, k, Suffix(e))
    ensures PostfixStep(ts, k, BaseOf(e)) == Some(Parsed(e, k + |Suffix(e)|))
  {
    hide Has;
    HasAt(ts, k, Suffix(e), 0);
    HasAt(ts, k, Suffix(e), 1);
  }

  lemma {:induction false} CallParses(ts: seq<Token>, k: nat, e: PExpr)
    requires e.PCall? && k < |ts| && Has(ts, k, Suffix(e))
    ensures PostfixStep(ts, k, BaseOf(e)) == Some(Parsed(e, k + |Suffix(e)|))
    decreases e, 0, 0
  {
    hide Has, At, PrintItems, PostfixStep, ParseItems;
    var p := PrintItems(e.args);
    HasToken(ts, k, LParen, p + [RParen]);
    HasSplit(ts, k + 1, p, [RParen]);
    HasOne(ts, k + 1 + |p|, RParen);
    if e.args == [] {
      EmptyCall(ts, k, e.callee);
    } else {
      FirstOfItems(e.args);
      HasAt(ts, k + 1, p, 0);
      ArgsParse(ts, k + 1, e.args);
      CallStep(ts, k, e.callee, e.args, k + 1 + |p|);
    }
  }

  lemma {:induction false} EmptyCall(ts: seq<Token>, k: nat, base: PExpr)
    requires k < |ts| && At(ts, k) == LParen
    ensures PrintItems([]) == []
    ensures (At(ts, k + 1) == RParen ==> PostfixStep(ts, k, base) == Some(Parsed(PCall(base, []), k + 2)))
  {
    hide ParseItems;
  }

  lemma {:induction false} IndexParses(ts: seq<Token>, k: nat, e: PExpr)
    requires e.PIndex? && k < |ts| && Has(ts, k, Suffix(e))
    ensures PostfixStep(ts, k, BaseOf(e)) == Some(Parsed(e, k + |Suffix(e)|))
    decreases e, 0, 0
  {
    hide Has, At, Print, PostfixStep, ParseExpression;
    var p := Print(e.index, EXPRESSION);
    HasToken(ts, k, LBracket, p + [RBracket]);
    HasSplit(ts, k + 1, p, [RBracket]);
    HasOne(ts, k + 1 + |p|, RBracket);
    ClosedParses(ts, k + 1, e.index, RBracket);
    IndexStep(ts, k, e.base, e.index, k + 1 + |p|);
  }

  /** An expression in front of a token that closes or separates. */
  lemma {:induction false} ClosedParses(ts: seq<Token>, i: nat, e: PExpr, t: Token)
    requires Has(ts, i, Print(e, EXPRESSION)) && At(ts, i + |Print(e, EXPRESSION)|) == t
    requires t in {RParen, RBracket, RBrace, Range, Comma, Semicolon}
    ensures ParseExpression(ts, i) == Some(Parsed(e, i + |Print(e, EXPRESSION)|))
    ensures i < i + |Print(e, EXPRESSION)| <= |ts| && At(ts, i) !in {RParen, RBracket, Range}
    decreases e, 20, 0
  {
    hide Has, At, Print, ParseExpression;
    ClearAt(ts, i + |Print(e, EXPRESSION)|);
    FirstToken(e, EXPRESSION);
    HasAt(ts, i, Print(e, EXPRESSION), 0);
    HasBound(ts, i, Print(e, EXPRESSION));
    ExpressionParses(ts, i, e);
  }

  lemma {:induction false} SliceParses(ts: seq<Token>, k: nat, e: PExpr)
    requires e.PSlice? && k < |ts| && Has(ts, k, Suffix(e))
    ensures PostfixStep(ts, k, BaseOf(e)) == Some(Parsed(e, k + |Suffix(e)|))
    decreases e, 0, 0
  {
    hide Has, At, Print, PostfixStep, ParseExpression, ParseSliceEnd, Suffix, BaseOf, Level;
    var s, t := PrintBound(e.start), PrintBound(e.end);
    SliceForm(e);
    HasToken(ts, k, LBracket, s + ([Range] + (t + [RBracket])));
    HasSplit(ts, k + 1, s, [Range] + (t + [RBracket]));
    var m := k + 1 + |s|;
    HasToken(ts, m, Range, t + [RBracket]);
    HasSplit(ts, m + 1, t, [RBracket]);
    HasOne(ts, m + 1 + |t|, RBracket);
    if e.start.Some? {
      ClosedParses(ts, k + 1, e.start.value, Range);
    }
    SliceStep(ts, k, e.base, e.start, m);
    if e.end.Some? {
      ClosedParses(ts, m + 1, e.end.value, RBracket);
    }
    SliceEnd(ts, m + 1, e.base, e.start, e.end, m + 1 + |t|);
  }

  lemma SliceForm(e: PExpr)
    requires e.PSlice?
    ensures BaseOf(e) == e.base
    ensures Suffix(e) == [LBracket] + (PrintBound(e.start) + ([Range] + (PrintBound(e.end) + [RBracket])))
  {
  }

  /** A list of expressions up to something that is no comma. */
  lemma {:induction false} ArgsParse(ts: seq<Token>, i: nat, es: seq<PExpr>)
    requires es != [] && Has(ts, i, PrintItems(es))
    requires At(ts, i + |PrintItems(es)|) == RParen || At(ts, i + |PrintItems(es)|) == RBracket
    ensures ParseItems(ts, i) == Some(ParsedItems(es, i + |PrintItems(es)|))
    decreases es, 2, 0
  {
    hide Has, Clear, Print, ParseExpression, ItemsTail;
    var k := FirstItemParses(ts, i, es, []);
    assert [] + [es[0]] == [es[0]] && [] + es == es;
  }

  lemma {:induction false} TailStep(ts: seq<Token>, i: nat, done: seq<PExpr>, e: PExpr, k: nat)
    requires i < |ts| && At(ts, i) == Comma && ParseExpression(ts, i + 1) == Some(Parsed(e, k))
    ensures ItemsTail(ts, i, done) == ItemsTail(ts, k, done + [e])
  {
    hide ParseExpression;
  }

  /** The first of them, and what is left to parse. */
  lemma {:induction false} FirstItemParses(ts: seq<Token>, i: nat, es: seq<PExpr>, done: seq<PExpr>) returns (k: nat)
    requires es != [] && Has(ts, i, PrintItems(es))
    requires At(ts, i + |PrintItems(es)|) == RParen || At(ts, i + |PrintItems(es)|) == RBracket
    ensures i < k <= |ts| && ParseExpression(ts, i) == Some(Parsed(es[0], k)) && At(ts, k) != Semicolon
    ensures ItemsTail(ts, k, done + [es[0]]) == Some(ParsedItems(done + es, i + |PrintItems(es)|))
    decreases es, 1, 0
  {
    hide Has, At, Print, PrintItems, ParseExpression;
    var first := Print(es[0], EXPRESSION);
    k := i + |first|;
    HasItems(ts, i, es);
    if |es| == 1 {
      ClosedParses(ts, i, es[0], At(ts, k));
      assert done + es == done + [es[0]];
    } else {
      hide ItemsTail;
      var rest := es[1..];
      HasSplit(ts, i, first, [Comma] + PrintItems(rest));
      HasToken(ts, k, Comma, PrintItems(rest));
      ClosedParses(ts, i, es[0], Comma);
      var k' := FirstItemParses(ts, k + 1, rest, done + [es[0]]);
      assert (done + [es[0]]) + rest == done + es;
      TailStep(ts, k, done + [es[0]], rest[0], k');
    }
  }

  lemma {:induction false} HasItems(ts: seq<Token>, i: nat, es: seq<PExpr>)
    requires es != [] && Has(ts, i, PrintItems(es))
    ensures i + |PrintItems(es)| <= |ts| && |Print(es[0], EXPRESSION)| > 0
    ensures |es| == 1 ==> PrintItems(es) == Print(es[0], EXPRESSION)
    ensures |es| > 1 ==> PrintItems(es) == Print(es[0], EXPRESSION) + ([Comma] + PrintItems(es[1..]))
  {
    hide Has, Print;
    HasBound(ts, i, PrintItems(es));
    FirstToken(es[0], EXPRESSION);
  }

  predicate Atomic(e: PExpr) { e.PInt? || e.PBool? || e.PString? || e.PNull? || e.PErr? || e.PName? }

  lemma {:induction false} AtomParses(ts: seq<Token>, i: nat, e: PExpr)
    requires Atomic(e) && Has(ts, i, Print(e, PRIMARY)) && Clear(ts, i + |Print(e, PRIMARY)|)
    ensures ParsePrimary(ts, i) == Some(Parsed(e, i + |Print(e, PRIMARY)|))
  {
    hide Has, Digits, Decimal;
    HasAt(ts, i, Print(e, PRIMARY), 0);
    if e.PInt? {
      DecimalDigits(e.n);
    }
  }

  lemma BareArray(e: PExpr)
    requires e.PArray? || e.PRepeat?
    ensures Print(e, PRIMARY) == [LBracket] + ArrayRest(e)
  {
  }

  function ArrayRest(e: PExpr): seq<Token>
    requires e.PArray? || e.PRepeat?
  {
    if e.PArray? then PrintItems(e.items) + [RBracket]
    else Print(e.item, EXPRESSION) + ([Semicolon] + (Print(e.count, EXPRESSION) + [RBracket]))
  }

  lemma {:induction false} PrimaryStep(ts: seq<Token>, i: nat)
    requires i < |ts|
    ensures At(ts, i) == LBracket ==> ParsePrimary(ts, i) == ParseArray(ts, i + 1)
    ensures At(ts, i) == IfKeyword ==> ParsePrimary(ts, i) == ParseIf(ts, i + 1)
  {
    hide ParseArray, ParseIf, ParseExpression;
  }

  lemma {:induction false} PrimaryParses(ts: seq<Token>, i: nat, e: PExpr)
    requires Has(ts, i, Print(e, PRIMARY)) && Clear(ts, i + |Print(e, PRIMARY)|)
    ensures ParsePrimary(ts, i) == Some(Parsed(e, i + |Print(e, PRIMARY)|))
    decreases e, Rank(e, PRIMARY), 0
  {
    hide Has, At, Clear, Print, Bare, ParsePrimary, ParseArray, ParseIf, ArrayRest, IfRest, TypeTokens, StructRest;
    if Level(e) < PRIMARY {
      GroupParses(ts, i, e);
    } else if Atomic(e) {
      AtomParses(ts, i, e);
    } else if e.PIf? {
      BareIf(e);
      HasToken(ts, i, IfKeyword, IfRest(e));
      IfParses(ts, i + 1, e);
      PrimaryStep(ts, i);
    } else if e.PStruct? {
      StructParses(ts, i, e);
    } else {
      BareArray(e);
      HasToken(ts, i, LBracket, ArrayRest(e));
      PrimaryStep(ts, i);
      if e.PArray? {
        ArrayParses(ts, i + 1, e);
      } else {
        RepeatParses(ts, i + 1, e);
      }
    }
  }

  /** The fields of a struct literal and its closing brace. */
  function StructRest(e: PExpr): seq<Token>
    requires e.PStruct?
  {
    PrintInit(e.first) + (PrintRest(e.rest) + [RBrace])
  }

  lemma BareStruct(e: PExpr)
    requires e.PStruct?
    ensures Print(e, PRIMARY) == TypeTokens(e.owner, e.typeName) + ([LBrace] + StructRest(e))
  {
  }

  /** The lookahead finds the field name and the colon of the first field. */
  lemma {:induction false} StructStarts(ts: seq<Token>, i: nat, e: PExpr)
    requires e.PStruct? && Has(ts, i, TypeTokens(e.owner, e.typeName))
    requires Has(ts, i + |TypeTokens(e.owner, e.typeName)|, [LBrace] + StructRest(e))
    ensures
      var k := i + |TypeTokens(e.owner, e.typeName)| + 1;
      && i < k <= |ts| && At(ts, i).Identifier? && ParsePrimary(ts, i) == ParseStruct(ts, k, e.owner, e.typeName)
      && Has(ts, k, StructRest(e))
  {
    hide Has, ParseStruct, Print, PrintRest;
    var n := TypeTokens(e.owner, e.typeName);
    var j := i + |n|;
    HasAt(ts, i, n, 0);
    if e.owner.Some? {
      HasAt(ts, i, n, 1);
      HasAt(ts, i, n, 2);
    }
    HasToken(ts, j, LBrace, StructRest(e));
    HasAt(ts, j + 1, StructRest(e), 0);
    HasAt(ts, j + 1, StructRest(e), 1);
  }

  lemma {:induction false} StructParses(ts: seq<Token>, i: nat, e: PExpr)
    requires e.PStruct? && Has(ts, i, Print(e, PRIMARY))
    ensures ParsePrimary(ts, i) == Some(Parsed(e, i + |Print(e, PRIMARY)|))
    decreases e, 1, 0
  {
    hide Has, At, Print, PrintInit, PrintRest, TypeTokens, ParsePrimary, ParseInits;
    var n := TypeTokens(e.owner, e.typeName);
    BareStruct(e);
    HasSplit(ts, i, n, [LBrace] + StructRest(e));
    StructStarts(ts, i, e);
    var k := i + |n| + 1;
    var first, rest := PrintInit(e.first), PrintRest(e.rest) + [RBrace];
    HasSplit(ts, k, first, rest);
    InitParses(ts, k, e, e.first, e.rest, []);
    assert [] + [e.first] + e.rest == [e.first] + e.rest && ([e.first] + e.rest)[1..] == e.rest;
  }

  lemma InitsStep(ts: seq<Token>, i: nat, done: seq<PInit>, x: PInit, k: nat)
    requires i < |ts| && At(ts, i) == Identifier(x.field) && At(ts, i + 1) == Colon
    requires ParseExpression(ts, i + 2) == Some(Parsed(x.value, k))
    ensures k <= |ts| && ParseInits(ts, i, done) == ParseInits(ts, if At(ts, k) == Comma then k + 1 else k, done + [x])
  {
    hide ParseExpression;
  }

  lemma RestUnfold(xs: seq<PInit>)
    ensures xs == [] ==> PrintRest(xs) == []
    ensures xs != [] ==> PrintRest(xs) + [RBrace] == [Comma] + (PrintInit(xs[0]) + (PrintRest(xs[1..]) + [RBrace]))
  {
    hide PrintInit;
  }

  lemma InitsEnd(ts: seq<Token>, i: nat, done: seq<PInit>)
    requires i < |ts| && At(ts, i) == RBrace
    ensures ParseInits(ts, i, done) == Some(ParsedInits(done, i + 1))
  {
  }

  /** One field and all behind it. */
  lemma {:induction false} InitParses(ts: seq<Token>, i: nat, e: PExpr, x: PInit, xs: seq<PInit>, done: seq<PInit>)
    requires Has(ts, i, PrintInit(x)) && Has(ts, i + |PrintInit(x)|, PrintRest(xs) + [RBrace])
    requires x.value < e && forall k :: 0 <= k < |xs| ==> xs[k].value < e
    ensures i <= |ts|
    ensures ParseInits(ts, i, done) == Some(ParsedInits(done + [x] + xs, i + |PrintInit(x)| + |PrintRest(xs)| + 1))
    decreases e, 0, |xs|
  {
    hide Has, At, Print, PrintRest, ParseExpression, ParseInits;
    var v := Print(x.value, EXPRESSION);
    HasToken(ts, i, Identifier(x.field), [Colon] + v);
    HasToken(ts, i + 1, Colon, v);
    var k := i + 2 + |v|;
    RestUnfold(xs);
    if xs == [] {
      assert PrintRest(xs) + [RBrace] == [RBrace];
      HasOne(ts, k, RBrace);
      ClosedParses(ts, i + 2, x.value, RBrace);
      InitsStep(ts, i, done, x, k);
      InitsEnd(ts, k, done + [x]);
      assert done + [x] + xs == done + [x];
    } else {
      HasToken(ts, k, Comma, PrintInit(xs[0]) + (PrintRest(xs[1..]) + [RBrace]));
      HasSplit(ts, k + 1, PrintInit(xs[0]), PrintRest(xs[1..]) + [RBrace]);
      ClosedParses(ts, i + 2, x.value, Comma);
      InitsStep(ts, i, done, x, k);
      InitParses(ts, k + 1, e, xs[0], xs[1..], done + [x]);
      assert done + [x] + [xs[0]] + xs[1..] == done + [x] + xs;
    }
  }

  lemma {:induction false} GroupParses(ts: seq<Token>, i: nat, e: PExpr)
    requires Level(e) < PRIMARY && Has(ts, i, Print(e, PRIMARY))
    ensures ParsePrimary(ts, i) == Some(Parsed(e, i + |Print(e, PRIMARY)|))
    decreases e, Rank(e, EXPRESSION), 1
  {
    hide Has, Clear, ParseExpression, Bare;
    assert Print(e, PRIMARY) == [LParen] + (Print(e, EXPRESSION) + [RParen]);
    HasToken(ts, i, LParen, Print(e, EXPRESSION) + [RParen]);
    HasSplit(ts, i + 1, Print(e, EXPRESSION), [RParen]);
    HasOne(ts, i + 1 + |Print(e, EXPRESSION)|, RParen);
    ClearAt(ts, i + 1 + |Print(e, EXPRESSION)|);
    ExpressionParses(ts, i + 1, e);
  }

  lemma {:induction false} ArrayParses(ts: seq<Token>, i: nat, e: PExpr)
    requires e.PArray? && i <= |ts| && Has(ts, i, ArrayRest(e))
    ensures ParseArray(ts, i) == Some(Parsed(e, i + |ArrayRest(e)|))
    decreases e, 0, 0
  {
    hide Has, Clear, Print, ParseExpression, ItemsTail;
    var items := e.items;
    HasSplit(ts, i, PrintItems(items), [RBracket]);
    HasOne(ts, i + |PrintItems(items)|, RBracket);
    if items == [] {
      assert PrintItems(items) == [];
    } else {
      FirstOfItems(items);
      HasAt(ts, i, PrintItems(items), 0);
      var k := FirstItemParses(ts, i, items, []);
      assert [] + [items[0]] == [items[0]] && [] + items == items;
    }
  }

  lemma {:induction false} FirstOfItems(es: seq<PExpr>)
    requires es != []
    ensures PrintItems(es) != [] && PrintItems(es)[0] !in {RParen, RBracket, Range}
  {
    FirstToken(es[0], EXPRESSION);
  }

  lemma {:induction false} RepeatParses(ts: seq<Token>, i: nat, e: PExpr)
    requires e.PRepeat? && i <= |ts| && Has(ts, i, ArrayRest(e))
    ensures ParseArray(ts, i) == Some(Parsed(e, i + |ArrayRest(e)|))
    decreases e, 0, 0
  {
    hide Has, At, Print, ParseExpression, ParseArray;
    var x, n := Print(e.item, EXPRESSION), Print(e.count, EXPRESSION);
    HasSplit(ts, i, x, [Semicolon] + (n + [RBracket]));
    var k := i + |x|;
    HasToken(ts, k, Semicolon, n + [RBracket]);
    HasSplit(ts, k + 1, n, [RBracket]);
    HasOne(ts, k + 1 + |n|, RBracket);
    ClosedParses(ts, i, e.item, Semicolon);
    ClosedParses(ts, k + 1, e.count, RBracket);
    RepeatStep(ts, i, e.item, k, e.count, k + 1 + |n|);
  }

  lemma {:induction false} RepeatStep(ts: seq<Token>, i: nat, x: PExpr, k: nat, n: PExpr, m: nat)
    requires i <= |ts| && At(ts, i) != RBracket && ParseExpression(ts, i) == Some(Parsed(x, k))
    requires At(ts, k) == Semicolon
    requires ParseExpression(ts, k + 1) == Some(Parsed(n, m)) && At(ts, m) == RBracket
    ensures ParseArray(ts, i) == Some(Parsed(PRepeat(x, n), m + 1))
  {
    hide ParseExpression, ItemsTail;
  }

  function IfRest(e: PExpr): seq<Token>
    requires e.PIf?
  {
    Print(e.cond, EXPRESSION) + (PrintBranch(e.thenExpr) + ([ElseKeyword] + PrintElse(e.elseExpr)))
  }

  lemma BareIf(e: PExpr)
    requires e.PIf?
    ensures PrintElse(e) == Bare(e) == Print(e, PRIMARY) == [IfKeyword] + IfRest(e)
  {
  }

  lemma {:induction false} IfStep(ts: seq<Token>, i: nat, c: PExpr, k: nat, t: PExpr, m: nat, f: PExpr, n: nat)
    requires i <= |ts| && ParseExpression(ts, i) == Some(Parsed(c, k)) && ParseBranch(ts, k) == Some(Parsed(t, m))
    requires m + 1 < |ts| && At(ts, m) == ElseKeyword
    requires (if At(ts, m + 1) == IfKeyword then ParseIf(ts, m + 2) else ParseBranch(ts, m + 1)) == Some(Parsed(f, n))
    ensures ParseIf(ts, i) == Some(Parsed(PIf(c, t, f), n))
  {
    hide ParseExpression, ParseBranch;
  }

  lemma {:induction false} IfParses(ts: seq<Token>, i: nat, e: PExpr)
    requires e.PIf? && i <= |ts| && Has(ts, i, IfRest(e))
    ensures ParseIf(ts, i) == Some(Parsed(e, i + |IfRest(e)|))
    decreases e, 0, 0
  {
    hide Has, At, Clear, Print, ParseExpression, ParseBranch, ParseIf, PrintBranch, PrintElse;
    var c, t, f := Print(e.cond, EXPRESSION), PrintBranch(e.thenExpr), PrintElse(e.elseExpr);
    HasSplit(ts, i, c, t + ([ElseKeyword] + f));
    var k := i + |c|;
    HasSplit(ts, k, t, [ElseKeyword] + f);
    BranchClear(ts, k, e.thenExpr);
    ExpressionParses(ts, i, e.cond);
    BranchParses(ts, k, e.thenExpr);
    HasToken(ts, k + |t|, ElseKeyword, f);
    ElseParses(ts, k + |t| + 1, e);
    IfStep(ts, i, e.cond, k, e.thenExpr, k + |t|, e.elseExpr, k + |t| + 1 + |f|);
  }

  lemma {:induction false} ElseParses(ts: seq<Token>, m: nat, e: PExpr)
    requires e.PIf? && m <= |ts| && Has(ts, m, PrintElse(e.elseExpr))
    ensures m < |ts|
    ensures (if At(ts, m) == IfKeyword then ParseIf(ts, m + 1) else ParseBranch(ts, m))
         == Some(Parsed(e.elseExpr, m + |PrintElse(e.elseExpr)|))
    decreases e.elseExpr, 21, 0
  {
    hide Has, At, Clear, Print, Bare, ParseBranch, ParseIf, IfRest;
    if e.elseExpr.PIf? {
      BareIf(e.elseExpr);
      HasToken(ts, m, IfKeyword, IfRest(e.elseExpr));
      IfParses(ts, m + 1, e.elseExpr);
    } else {
      hide PrintBranch;
      BranchClear(ts, m, e.elseExpr);
      BranchParses(ts, m, e.elseExpr);
    }
  }

  /** A branch does not make a struct literal of the name before it. */
  lemma {:induction false} BranchClear(ts: seq<Token>, k: nat, e: PExpr)
    requires Has(ts, k, PrintBranch(e))
    ensures Clear(ts, k) && At(ts, k) == LBrace && k < |ts|
  {
    hide Print, Has;
    SecondToken(e, EXPRESSION);
    var p := PrintBranch(e);
    HasAt(ts, k, p, 0);
    HasAt(ts, k, p, 2);
    assert p[2] == if |Print(e, EXPRESSION)| == 1 then RBrace else Print(e, EXPRESSION)[1];
  }

  lemma {:induction false} BranchParses(ts: seq<Token>, k: nat, e: PExpr)
    requires k <= |ts| && Has(ts, k, PrintBranch(e))
    ensures ParseBranch(ts, k) == Some(Parsed(e, k + |PrintBranch(e)|))
    decreases e, 20, 0
  {
    hide Has, Clear, Print, ParseExpression;
    HasToken(ts, k, LBrace, Print(e, EXPRESSION) + [RBrace]);
    HasSplit(ts, k + 1, Print(e, EXPRESSION), [RBrace]);
    HasOne(ts, k + 1 + |Print(e, EXPRESSION)|, RBrace);
    ClearAt(ts, k + 1 + |Print(e, EXPRESSION)|);
    ExpressionParses(ts, k + 1, e);
  }

  /** The round trip: printing and parsing gives exactly the expression and consumes exactly
      its tokens, whatever follows that neither continues the expression nor makes a struct
      literal of its last name. */
  lemma {:induction false} RoundTrip(before: seq<Token>, e: PExpr, after: seq<Token>)
    requires NotAbove(At(after, 0), EXPRESSION) && Clear(after, 0)
    ensures ParseExpression(before + Print(e, EXPRESSION) + after, |before|) ==
      Some(Parsed(e, |before| + |Print(e, EXPRESSION)|))
  {
    hide Print, ParseExpression, NotAbove, Has, At, Clear;
    var p := Print(e, EXPRESSION);
    HasMiddle(before, p, after);
    ExpressionParses(before + p + after, |before|, e);
  }

  /** No two expressions print alike. */
  lemma {:induction false} PrintInjective(a: PExpr, b: PExpr)
    requires Print(a, EXPRESSION) == Print(b, EXPRESSION)
    ensures a == b
  {
    hide Print, ParseExpression;
    RoundTrip([], a, []);
    RoundTrip([], b, []);
  }

  lemma {:induction false} HasMiddle(before: seq<Token>, p: seq<Token>, after: seq<Token>)
    ensures Has(before + p + after, |before|, p)
    ensures At(before + p + after, |before| + |p|) == At(after, 0)
    ensures Clear(before + p + after, |before| + |p|) == Clear(after, 0)
  {
    var ts := before + p + after;
    assert ts[|before|..|before| + |p|] == p;
    assert ts[|before| + |p|..] == after;
    AfterShift(ts, |before| + |p|, 0);
    AfterShift(ts, |before| + |p|, 1);
    AfterShift(ts, |before| + |p|, 2);
    AfterShift(ts, |before| + |p|, 3);
    AfterShift(ts, |before| + |p|, 4);
  }

  lemma AfterShift(ts: seq<Token>, j: nat, k: nat)
    requires j <= |ts|
    ensures At(ts, j + k) == At(ts[j..], k)
  {
  }
}
