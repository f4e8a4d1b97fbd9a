/** The parser as it runs (src/parse/parser.c:15-80, 386-849): a cursor over the tokens, one
    method for each grammar rule, and error paths that report and hand back what they have. */
module ParserClass {
  import opened Ir
  import opened Parser

  class ExpressionParser {
    const tokens: seq<Token>
    var index: nat
    var diagnosed: bool

    constructor (tokens: seq<Token>)
      ensures this.tokens == tokens && Valid() && index == 0 && !diagnosed
    {
      this.tokens := tokens;
      index, diagnosed := 0, false;
    }

    ghost predicate Valid()
      reads this
    {
      index <= |tokens|
    }

    function Current(): Token
      reads this
    {
      At(tokens, index)
    }

    /** What a rule owes its caller: an error is reported exactly when the grammar rejects,
        and an accepted expression comes with the cursor behind it. */
    ghost predicate Follows(r: Option<PExpr>, start: nat, was: bool, p: Option<Parsed>)
      reads this
    {
      && Valid()
      && start <= index
      && diagnosed == (was || p.None?)
      && (p.Some? ==> r == Some(p.value.e) && index == p.value.next)
    }

    method Advance()
      requires Valid()
      modifies this`index
      ensures Valid() && index == if old(Current()) == EndOfFile then old(index) else old(index) + 1
    {
      if Current() != EndOfFile {
        index := index + 1;
      }
    }

    method Match(t: Token) returns (b: bool)
      requires Valid() && t != EndOfFile
      modifies this`index
      ensures Valid() && b == (old(Current()) == t) && index == if b then old(index) + 1 else old(index)
    {
      b := Current() == t;
      if b {
        Advance();
      }
    }

    method Consume(t: Token) returns (b: bool)
      requires Valid() && t != EndOfFile
      modifies this
      ensures Valid() && b == (old(Current()) == t) && index == if b then old(index) + 1 else old(index)
      ensures diagnosed == (old(diagnosed) || !b)
    {
      b := Match(t);
      if !b {
        diagnosed := true;
      }
    }

    method Expression() returns (r: Option<PExpr>)
      requires Valid()
      modifies this
      ensures Follows(r, old(index), old(diagnosed), ParseExpression(tokens, old(index)))
      decreases |tokens| - index, 20
    {
      hide ParseChain;
      var isOk := Match(OkKeyword);
      if !isOk {
        r := Chain(LOOSEST_CHAIN);
        return;
      }
      var value := Expression();
      if value.None? {
        return None;
      }
      return Some(POk(value.value));
    }

    /** `subparser` is the next tighter level. */
    method Chain(level: nat) returns (r: Option<PExpr>)
      requires Valid() && LOOSEST_CHAIN <= level <= UNARY
      modifies this
      ensures Follows(r, old(index), old(diagnosed), ParseChain(tokens, old(index), level))
      decreases |tokens| - index, 19 - level
    {
      hide ParseUnary;
      if level == UNARY {
        r := Unary();
        return;
      }
      ghost var start, was := index, diagnosed;
      ghost var inStep := ParseChain(tokens, index, level + 1).Some?;
      r := Chain(level + 1);
      if r.None? {
        return;
      }
      var e := r.value;
      while Current().Operator? && LevelOf(Current().op) == level
        invariant Valid() && start <= index
        invariant if inStep then diagnosed == was && ParseChain(tokens, start, level) == ChainTail(tokens, index,
            level, e)
                  else diagnosed && ParseChain(tokens, start, level).None?
        decreases |tokens| - index
      {
        var op := Current().op;
        Advance();
        inStep := inStep && ParseChain(tokens, index, level + 1).Some?;
        var right := Chain(level + 1);
        if right.None? {
          return Some(e);
        }
        e := PBinary(op, e, right.value);
      }
      return Some(e);
    }

    method Unary() returns (r: Option<PExpr>)
      requires Valid()
      modifies this
      ensures Follows(r, old(index), old(diagnosed), ParseUnary(tokens, old(index)))
      decreases |tokens| - index, 4
    {
      hide ParsePostfix;
      var t := Current();
      if t != Operator(Sub) && t != Bang && t != AddrKeyword && t != DerefKeyword {
        r := Postfix();
        return;
      }
      Advance();
      var v := Unary();
      if v.None? {
        return None;
      }
      if t == AddrKeyword {
        return Some(PAddr(v.value));
      } else if t == DerefKeyword {
        return Some(PDeref(v.value));
      } else {
        return Some(PUnary(if t == Bang then Not else Negate, v.value));
      }
    }

    method Postfix() returns (r: Option<PExpr>)
      requires Valid()
      modifies this
      ensures Follows(r, old(index), old(diagnosed), ParsePostfix(tokens, old(index)))
      decreases |tokens| - index, 3
    {
      hide ParsePrimary, PostfixStep;
      ghost var start, was := index, diagnosed;
      ghost var inStep := ParsePrimary(tokens, index).Some?;
      r := Primary();
      if r.None? {
        return;
      }
      var e := r.value;
      while Current() == LParen || Current() == LBracket || Current() == Dot
        invariant Valid() && start <= index
        invariant if inStep then diagnosed == was && ParsePostfix(tokens, start) == PostfixTail(tokens, index, e)
                  else diagnosed && ParsePostfix(tokens, start).None?
        decreases |tokens| - index
      {
        inStep := inStep && PostfixStep(tokens, index, e).Some?;
        var stop: bool;
        e, stop := Suffix(e);
        if stop {
          return Some(e);
        }
      }
      return Some(e);
    }

    /** One call, index, slice or field; an error inside it ends the postfix expression. */
    method Suffix(e: PExpr) returns (r: PExpr, stop: bool)
      requires Valid() && Current() in {LParen, LBracket, Dot}
      modifies this
      ensures old(index) < index && Follows(Some(r), old(index), old(diagnosed), PostfixStep(tokens, old(index), e))
      ensures stop ==> PostfixStep(tokens, old(index), e).None?
      decreases |tokens| - index, 0
    {
      hide ParseExpression, ItemsTail;
      var t := Current();
      Advance();
      if t == LParen {
        r, stop := Call(e);
      } else if t == LBracket {
        r, stop := Bracket(e);
      } else {
        var f := Current();
        if f.Identifier? || f == OkKeyword {
          Advance();
          return PField(e, if f.Identifier? then f.name else "ok"), false;
        }
        diagnosed := true;
        return e, true;
      }
    }

    /** Behind `(`. */
    method Call(e: PExpr) returns (r: PExpr, stop: bool)
      requires Valid() && index > 0 && At(tokens, index - 1) == LParen
      modifies this
      ensures Follows(Some(r), old(index), old(diagnosed), PostfixStep(tokens, old(index) - 1, e))
      ensures stop ==> PostfixStep(tokens, old(index) - 1, e).None?
      decreases |tokens| - index, 30
    {
      hide ParseExpression, ItemsTail;
      var args: seq<PExpr> := [];
      if Current() != RParen {
        var first := Expression();
        if first.None? {
          return PCall(e, []), true;
        }
        var ok: bool;
        args, ok := MoreItems([first.value]);
        if !ok {
          return PCall(e, args), true;
        }
      }
      var closed := Consume(RParen);
      return PCall(e, args), false;
    }

    /** Behind `[`: a slice when `..` follows, else an index. */
    method Bracket(e: PExpr) returns (r: PExpr, stop: bool)
      requires Valid() && index > 0 && At(tokens, index - 1) == LBracket
      modifies this
      ensures Follows(Some(r), old(index), old(diagnosed), PostfixStep(tokens, old(index) - 1, e))
      ensures stop ==> PostfixStep(tokens, old(index) - 1, e).None?
      decreases |tokens| - index, 30
    {
      hide ParseExpression, ParseSliceEnd;
      var start: Option<PExpr> := None;
      if Current() != Range && Current() != RBracket {
        start := Expression();
        if start.None? {
          return e, true;
        }
      }
      var isSlice := Match(Range);
      if isSlice {
        r, stop := SliceEnd(e, start);
        return;
      }
      var closed := Consume(RBracket);
      if start.None? {
        NoneStartsWithRBracket(tokens, old(index), EXPRESSION);
        diagnosed := true;
        return e, true;
      }
      return PIndex(e, start.value), false;
    }

    method SliceEnd(e: PExpr, start: Option<PExpr>) returns (r: PExpr, stop: bool)
      requires Valid()
      modifies this
      ensures Follows(Some(r), old(index), old(diagnosed), ParseSliceEnd(tokens, old(index), e, start))
      ensures stop ==> ParseSliceEnd(tokens, old(index), e, start).None?
      decreases |tokens| - index, 25
    {
      hide ParseExpression;
      var end: Option<PExpr> := None;
      if Current() != RBracket {
        end := Expression();
        if end.None? {
          return e, true;
        }
      }
      var closed := Consume(RBracket);
      return PSlice(e, start, end), false;
    }

    /** The items behind the first, each after a comma. */
    method MoreItems(done: seq<PExpr>) returns (items: seq<PExpr>, ok: bool)
      requires Valid()
      modifies this
      ensures Valid() && old(index) <= index
      ensures diagnosed == (old(diagnosed) || ItemsTail(tokens, old(index), done).None?)
      ensures
        var q := ItemsTail(tokens, old(index), done);
        q.Some? ==> ok && items == q.value.items && index == q.value.next
      ensures !ok ==> diagnosed
      decreases |tokens| - index, 21
    {
      hide ParseExpression;
      ghost var start, was, inStep := index, diagnosed, true;
      items := done;
      while Current() == Comma
        invariant Valid() && start <= index
        invariant if inStep then diagnosed == was && ItemsTail(tokens, start, done) == ItemsTail(tokens, index, items)
                  else diagnosed && ItemsTail(tokens, start, done).None?
        decreases |tokens| - index
      {
        Advance();
        inStep := inStep && ParseExpression(tokens, index).Some?;
        var item := Expression();
        if item.None? {
          return items, false;
        }
        items := items + [item.value];
      }
      ok := true;
    }

    method Primary() returns (r: Option<PExpr>)
      requires Valid()
      modifies this
      ensures Follows(r, old(index), old(diagnosed), ParsePrimary(tokens, old(index)))
      decreases |tokens| - index, 2
    {
      hide ParseExpression, ParseArray, ParseIf, ParseName;
      var t := Current();
      if t.IntLiteral? {
        Advance();
        var n := Value(t.digits);
        return Some(PInt(n));
      } else if t == True || t == False {
        Advance();
        return Some(PBool(t == True));
      } else if t.StringLiteral? {
        Advance();
        return Some(PString(t.text));
      } else if t == NullKeyword {
        Advance();
        return Some(PNull);
      } else if t == ErrKeyword {
        Advance();
        return Some(PErr);
      } else if t == IfKeyword {
        Advance();
        r := IfExpression();
      } else if t.Identifier? {
        r := Name();
      } else if t == LBracket {
        Advance();
        r := ArrayLiteral();
      } else if t == LParen {
        Advance();
        r := Expression();
        var closed := Consume(RParen);
      } else {
        diagnosed := true;
        return None;
      }
    }

    /** A name, or the struct literal that the lookahead finds behind it. */
    method Name() returns (r: Option<PExpr>)
      requires Valid() && Current().Identifier?
      modifies this
      ensures Follows(r, old(index), old(diagnosed), ParseName(tokens, old(index)))
      decreases |tokens| - index, 1
    {
      hide ParseStruct;
      var t := Current();
      var qualified, unqualified := StartsQualified(tokens, index), StartsLocal(tokens, index);
      Advance();
      if qualified {
        Advance();
        var n := Current();
        Advance();
        r := StructLiteral(Some(t.name), n.name);
      } else if unqualified {
        r := StructLiteral(None, t.name);
      } else {
        return Some(PName(t.name));
      }
    }

    /** Any identifier, or an error. */
    method ConsumeIdentifier() returns (b: bool)
      requires Valid()
      modifies this
      ensures Valid() && b == old(Current()).Identifier? && index == if b then old(index) + 1 else old(index)
      ensures diagnosed == (old(diagnosed) || !b)
    {
      b := Current().Identifier?;
      if b {
        Advance();
      } else {
        diagnosed := true;
      }
    }

    /** The lookahead has found the first field. A literal left without one stands as its name,
        after an error. */
    method StructLiteral(owner: Option<string>, typeName: string) returns (r: Option<PExpr>)
      requires Valid() && Current() == LBrace && At(tokens, index + 1).Identifier?
      modifies this
      ensures Follows(r, old(index), old(diagnosed), ParseStruct(tokens, old(index) + 1, owner, typeName))
      decreases |tokens| - index, 23
    {
      hide ParseInits;
      var braced := Consume(LBrace);
      var inits := Fields();
      r := Some(if inits == [] then PName(typeName) else PStruct(owner, typeName, inits[0], inits[1..]));
    }

    /** The fields up to and with the closing brace. */
    method Fields() returns (inits: seq<PInit>)
      requires Valid() && Current().Identifier?
      modifies this
      ensures Valid() && old(index) <= index
      ensures diagnosed == (old(diagnosed) || ParseInits(tokens, old(index), []).None?)
      ensures
        var q := ParseInits(tokens, old(index), []);
        q.Some? ==> inits == q.value.inits && inits != [] && index == q.value.next
      decreases |tokens| - index, 22
    {
      hide ParseExpression, ParseInits;
      ghost var start, was, inStep := index, diagnosed, true;
      inits := [];
      while Current() != RBrace && Current() != EndOfFile
        invariant Valid() && start <= index && (start < index ==> inits != [])
        invariant if inStep then diagnosed == was && ParseInits(tokens, start, []) == ParseInits(tokens, index, inits)
                  else diagnosed && ParseInits(tokens, start, []).None?
        decreases |tokens| - index
      {
        InitsUnfold(tokens, index, inits);
        var f := Current();
        var field := ConsumeIdentifier();
        var colon := Consume(Colon);
        inStep := inStep && field && colon && ParseExpression(tokens, index).Some?;
        var v := Expression();
        if !field || v.None? {
          break;
        }
        inits := inits + [PInit(f.name, v.value)];
        if Current() == Comma {
          Advance();
        }
      }
      InitsUnfold(tokens, index, inits);
      var closed := Consume(RBrace);
    }

    method ArrayLiteral() returns (r: Option<PExpr>)
      requires Valid()
      modifies this
      ensures Follows(r, old(index), old(diagnosed), ParseArray(tokens, old(index)))
      decreases |tokens| - index, 22
    {
      hide ParseExpression, ItemsTail;
      if Current() == RBracket {
        Advance();
        return Some(PArray([]));
      }
      var first := Expression();
      if first.None? {
        return Some(PArray([]));
      }
      var repeats := Match(Semicolon);
      if repeats {
        var count := Expression();
        if count.None? {
          return Some(PArray([first.value]));
        }
        var closed := Consume(RBracket);
        return Some(PRepeat(first.value, count.value));
      }
      var items, ok := MoreItems([first.value]);
      if ok {
        var closed := Consume(RBracket);
      }
      return Some(PArray(items));
    }

    method IfExpression() returns (r: Option<PExpr>)
      requires Valid()
      modifies this
      ensures Follows(r, old(index), old(diagnosed), ParseIf(tokens, old(index)))
      decreases |tokens| - index, 22
    {
      hide ParseExpression, ParseBranch;
      var c := Expression();
      var t := Branch();
      if c.None? || t.None? {
        return None;
      }
      var hasElse := Consume(ElseKeyword);
      if !hasElse {
        return None;
      }
      var f: Option<PExpr>;
      if Current() == IfKeyword {
        Advance();
        f := IfExpression();
      } else {
        f := Branch();
      }
      if f.None? {
        return None;
      }
      return Some(PIf(c.value, t.value, f.value));
    }

    method Branch() returns (r: Option<PExpr>)
      requires Valid()
      modifies this
      ensures Follows(r, old(index), old(diagnosed), ParseBranch(tokens, old(index)))
      decreases |tokens| - index, 21
    {
      hide ParseExpression;
      var braced := Consume(LBrace);
      if !braced {
        return None;
      }
      r := Expression();
      var closed := Consume(RBrace);
    }
  }

  /** One field of a struct literal, its end, or an error. */
  lemma InitsUnfold(ts: seq<Token>, i: nat, done: seq<PInit>)
    requires i <= |ts|
    ensures At(ts, i) == RBrace ==> ParseInits(ts, i, done) == Some(ParsedInits(done, i + 1))
    ensures At(ts, i) != RBrace ==>
      if At(ts, i).Identifier? && At(ts, i + 1) == Colon && ParseExpression(ts, i + 2).Some? then
        var v := ParseExpression(ts, i + 2).value;
        ParseInits(ts, i, done) == ParseInits(ts, if At(ts, v.next) == Comma then v.next + 1 else v.next,
          done + [PInit(ts[i].name, v.e)])
      else ParseInits(ts, i, done).None?
  {
    hide ParseExpression;
  }

  /** No expression of any level starts with `]`. */
  lemma {:induction false} NoneStartsWithRBracket(ts: seq<Token>, i: nat, level: nat)
    requires At(ts, i) == RBracket && level <= UNARY
    ensures if level == EXPRESSION then ParseExpression(ts, i).None? else ParseChain(ts, i, level).None?
    decreases UNARY - level
  {
    if level < UNARY {
      NoneStartsWithRBracket(ts, i, level + 1);
    } else {
      assert ParsePrimary(ts, i).None?;
      assert ParseUnary(ts, i) == ParsePostfix(ts, i);
    }
  }

  /** The value of a literal, digit by digit. */
  method Value(digits: Numeral) returns (n: nat)
    ensures n == Decimal(digits)
  {
    n := 0;
    assert digits[..0] == [];
    for i := 0 to |digits|
      invariant n == Decimal(digits[..i])
    {
      assert digits[..i + 1][..i] == digits[..i];
      n := n * 10 + DigitValue(digits[i]);
    }
    assert digits[..|digits|] == digits;
  }
}
