/** What the operators of source, optimizer and machine compute: int64 arithmetic with division
    that truncates toward zero (src/ir/optimize.c:179-254, src/backend/llvm_text.c:2689-2790). */
module Operators {
  import opened Ir
  import opened Values

  function Abs(i: int): nat { if i < 0 then -i else i }

  /** Remainder and dividend have one sign, and the remainder is the smaller. */
  predicate Remainder(a: int, b: int, r: int) { Abs(r) < Abs(b) && (r == 0 || (r < 0 <==> a < 0)) }

  lemma {:induction false} TruncDivRemainder(a: int, b: int)
    requires b != 0
    ensures Remainder(a, b, a - b * TruncDiv(a, b))
  {
    var k := Abs(a) / Abs(b);
    Divided(Abs(a), Abs(b));
    Signs(Abs(b), k);
    assert b * TruncDiv(a, b) == if a >= 0 then Abs(b) * k else -(Abs(b) * k);
  }

  lemma Divided(m: nat, d: nat)
    requires d > 0
    ensures 0 <= m - d * (m / d) < d
  {
  }

  lemma Signs(b: int, q: int)
    ensures b * -q == -(b * q) && -b * q == -(b * q) && -b * -q == b * q
  {
  }

  /** Only one multiple of b leaves such a remainder. */
  lemma {:induction false} OneQuotient(a: int, b: int, p: int, q: int)
    requires b != 0 && Remainder(a, b, a - b * p) && Remainder(a, b, a - b * q)
    ensures p == q
  {
    assert b * p - b * q == b * (p - q);
    if p != q {
      assert Abs(b * (p - q)) >= Abs(b) by { TimesGrows(b, p - q); }
    }
  }

  lemma TimesGrows(b: int, d: int)
    requires d != 0
    ensures Abs(b * d) >= Abs(b)
  {
    if d > 0 {
      TimesGrowsByNat(b, d);
    } else {
      TimesGrowsByNat(b, -d);
      Signs(b, d);
    }
  }

  lemma {:induction false} TimesGrowsByNat(b: int, d: int)
    requires d > 0
    ensures Abs(b * d) >= Abs(b) && (b >= 0 ==> b * d >= 0) && (b <= 0 ==> b * d <= 0)
    decreases d
  {
    if d > 1 {
      TimesGrowsByNat(b, d - 1);
      assert b * d == b * (d - 1) + b;
    }
  }

  /** The quotient is the number that leaves a remainder with the sign of the dividend. */
  lemma {:induction false} QuotientExactly(a: int, b: int, q: int)
    requires b != 0
    ensures q == TruncDiv(a, b) <==> Remainder(a, b, a - b * q)
  {
    TruncDivRemainder(a, b);
    if Remainder(a, b, a - b * q) {
      OneQuotient(a, b, q, TruncDiv(a, b));
    }
  }

  predicate Fits(v: int) { -9_223_372_036_854_775_808 <= v <= 9_223_372_036_854_775_807 }

  /** v is what the operator means for a and b, and an int64. */
  ghost predicate Means(op: BinaryOp, a: int, b: int, v: int)
    requires IsArithmetic(op)
  {
    && Fits(v)
    && match op
       case Add => v - a == b
       case Sub => v + b == a
       case Mul => v == a * b
       case Div => b != 0 && Remainder(a, b, a - b * v)
       case Mod => b != 0 && Remainder(a, b, v) && exists q :: Fits(q) && a == b * q + v
  }

  /** Arithmetic is defined exactly where the meaning is an int64, and is that. */
  lemma {:induction false} ArithmeticExactly(op: BinaryOp, a: int, b: int, v: int)
    requires IsArithmetic(op)
    ensures Arithmetic(op, a, b) == Some(VInt(v)) <==> Means(op, a, b, v)
  {
    if b != 0 {
      match op
      case Div => QuotientExactly(a, b, v);
      case Mod =>
        TruncDivRemainder(a, b);
        if Means(Mod, a, b, v) {
          var q :| Fits(q) && a == b * q + v;
          QuotientExactly(a, b, q);
        }
        if Arithmetic(Mod, a, b) == Some(VInt(v)) {
          assert Fits(TruncDiv(a, b)) && a == b * TruncDiv(a, b) + v;
        }
      case _ =>
    }
  }

  /** On int64 operands division is undefined exactly by zero and for the one quotient that is
      none. */
  lemma {:induction false} DivisionUndefined(op: BinaryOp, a: int, b: int)
    requires (op.Div? || op.Mod?) && Fits(a) && Fits(b)
    ensures Arithmetic(op, a, b).None? <==> b == 0 || (b == -1 && a == -9_223_372_036_854_775_808)
  {
    if b != 0 {
      var q := TruncDiv(a, b);
      TruncDivRemainder(a, b);
      if b == -1 {
        QuotientExactly(a, b, -a);
      } else if b == 1 {
        QuotientExactly(a, b, a);
      } else {
        QuotientShrinks(a, b, q);
      }
    }
  }

  lemma {:induction false} QuotientShrinks(a: int, b: int, q: int)
    requires Abs(b) > 1 && Remainder(a, b, a - b * q) && Fits(a)
    ensures Fits(q)
  {
    if q > 0 {
      TimesGrowsByNat(b, q);
      TimesTwice(b, q);
    } else if q < 0 {
      TimesGrowsByNat(b, -q);
      TimesTwice(b, -q);
      Signs(b, q);
    }
  }

  lemma {:induction false} TimesTwice(b: int, q: int)
    requires Abs(b) > 1 && q > 0
    ensures Abs(b * q) >= Abs(b) + q - 1
    decreases q
  {
    if q > 1 {
      TimesTwice(b, q - 1);
      TimesGrowsByNat(b, q - 1);
      assert b * q == b * (q - 1) + b;
    }
  }

  /** Less is the strict order of the integers, and the other comparisons follow from it. */
  lemma ComparesAsIntegers(a: int, b: int)
    ensures Compare(Less, a, b) <==> 0 < b - a
    ensures Compare(Greater, a, b) == Compare(Less, b, a)
    ensures Compare(LessEqual, a, b) == !Compare(Greater, a, b)
    ensures Compare(GreaterEqual, a, b) == !Compare(Less, a, b)
  {
  }

  predicate HasType(v: Value, t: Type)
    decreases t
  {
    match t
    case TInt => v.VInt?
    case TBool => v.VBool?
    case TStr => v.VStr?
    case TPtr => v.VPtr?
    case TVoid => v.VUnit?
    case TResult(inner) => v.VResult? && HasType(v.payload, inner)
  }

  /** Values of the type can be compared. */
  predicate Comparable(t: Type) { if t.TResult? then Comparable(t.inner) else !t.TVoid? }

  /** Equality of two values of a type, at any depth of results, is identity. */
  lemma {:induction false} EqualsExactly(t: Type, v: Value, w: Value)
    requires HasType(v, t) && HasType(w, t)
    ensures EqualAt(t, v, w) == if Comparable(t) then Some(v == w) else None
    decreases t
  {
    if t.TResult? {
      EqualsExactly(t.inner, v.payload, w.payload);
    }
  }

  /** Negation gives what adds up to zero, and fails for the one int64 without it. */
  lemma UnaryExactly(i: int, b: bool, v: Value)
    ensures ApplyUnary(Negate, VInt(i)) == Some(v) <==> v.VInt? && v.i + i == 0 && Fits(v.i)
    ensures ApplyUnary(Not, VBool(b)) == Some(v) <==> v.VBool? && v.b != b
  {
  }

  /** All bits zero: no flag set, and null for a string. */
  predicate AllZero(v: Value)
    decreases v
  {
    match v
    case VInt(i) => i == 0
    case VBool(b) => !b
    case VPtr(a) => a == 0
    case VUnit => true
    case VResult(ok, payload) => !ok && AllZero(payload)
    case _ => false
  }

  /** An err is zero throughout. */
  lemma {:induction false} ZeroIsAllZero(t: Type)
    ensures AllZero(Zero(t)) && (t.TResult? ==> Zero(t) == VResult(false, Zero(t.inner)))
    decreases t
  {
    if t.TResult? {
      ZeroIsAllZero(t.inner);
    }
  }
}
