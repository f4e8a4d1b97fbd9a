/** Soundness of the flow facts: every `.value` read the checker accepts is of a result that is
    ok when it is read. */
module ResultFlowProof {
  import opened Ir
  import opened Values
  import opened IrSemantics
  import opened Source
  import opened GuaranteedReturn
  import opened ResultFlow

  predicate OkAt(env: Env, b: nat) {
    b < |env| && env[|env| - 1 - b].value.VResult? && env[|env| - 1 - b].value.ok
  }

  /** Some values of the missing operands make the proof's formula v. */
  ghost predicate Consistent(p: Option<Proof>, v: bool, env: Env)
    decreases p
  {
    p.Some? ==>
    match p.value
    case Leaf(b, positive) => v == (OkAt(env, b) == positive)
    case NotProof(q) => Consistent(q, !v, env)
    case AndProof(l, r) => exists a, b :: v == (a && b) && Consistent(l, a, env) && Consistent(r, b, env)
    case OrProof(l, r) => exists a, b :: v == (a || b) && Consistent(l, a, env) && Consistent(r, b, env)
  }

  lemma {:induction false} SomeConsistent(p: Option<Proof>, env: Env) returns (v: bool)
    ensures Consistent(p, v, env)
    decreases p
  {
    v := true;
    if p.Some? {
      match p.value
      case Leaf(b, positive) => v := OkAt(env, b) == positive;
      case NotProof(q) =>
        var w := SomeConsistent(q, env);
        v := !w;
      case AndProof(l, r) =>
        var a := SomeConsistent(l, env);
        var b := SomeConsistent(r, env);
        v := a && b;
      case OrProof(l, r) =>
        var a := SomeConsistent(l, env);
        var b := SomeConsistent(r, env);
        v := a || b;
    }
  }

  /** What a consistent proof marks for a branch is ok there. */
  lemma {:induction false} MarksAreOk(p: Option<Proof>, v: bool, env: Env)
    requires Consistent(p, v, env)
    ensures forall b :: b in Marks(p, v) ==> OkAt(env, b)
    decreases p
  {
    if p.Some? {
      match p.value
      case Leaf(_, _) =>
      case NotProof(q) => MarksAreOk(q, !v, env);
      case AndProof(l, r) =>
        if v {
          MarksAreOk(l, true, env);
          MarksAreOk(r, true, env);
        }
      case OrProof(l, r) =>
        if !v {
          MarksAreOk(l, false, env);
          MarksAreOk(r, false, env);
        }
    }
  }

  /** Every leaf is one of the first n bindings and has a result type. */
  predicate LeavesIn(p: Option<Proof>, infos: seq<Info>, n: nat)
    requires n <= |infos|
    decreases p
  {
    p.Some? ==>
    match p.value
    case Leaf(b, _) => b < n && InfoOf(infos, b).ty.TResult?
    case NotProof(q) => LeavesIn(q, infos, n)
    case AndProof(l, r) => LeavesIn(l, infos, n) && LeavesIn(r, infos, n)
    case OrProof(l, r) => LeavesIn(l, infos, n) && LeavesIn(r, infos, n)
  }

  /** The stored proof of an alias agrees with its value. */
  ghost predicate AliasHolds(infos: seq<Info>, env: Env, i: nat)
    requires i < |infos| == |env|
  {
    var p := infos[i].proof;
    p.Some? ==>
      && !infos[i].mut && infos[i].ty == TBool && LeavesIn(p, infos, |infos| - 1 - i)
      && (env[i].value.VBool? ==> Consistent(p, env[i].value.b, env))
  }

  predicate Named(infos: seq<Info>, env: Env) {
    |infos| == |env| && forall i :: 0 <= i < |env| ==> env[i].name == User(infos[i].name)
  }

  ghost predicate AliasesHold(infos: seq<Info>, env: Env) {
    Named(infos, env) && forall i :: 0 <= i < |env| ==> AliasHolds(infos, env, i)
  }

  predicate GuardHolds(infos: seq<Info>, env: Env, g: set<nat>) {
    forall b :: b in g ==> b < |infos| && InfoOf(infos, b).ty.TResult? && OkAt(env, b)
  }

  /** The flow facts are true of the environment. */
  ghost predicate True(flow: Flow, env: Env) {
    AliasesHold(flow.infos, env) && forall i :: 0 <= i < |flow.guards| ==> GuardHolds(flow.infos, env, flow.guards[i])
  }

  lemma {:induction false} FindLookup(infos: seq<Info>, env: Env, x: string)
    requires Named(infos, env)
    ensures Find(infos, x).None? <==> Lookup(env, User(x)).None?
    ensures Find(infos, x).Some? ==> Lookup(env, User(x)) == Some(env[|env| - 1 - Find(infos, x).value].value)
    decreases infos
  {
    if infos != [] {
      assert env[0].name == User(infos[0].name);
      assert Named(infos[1..], env[1..]);
      FindLookup(infos[1..], env[1..], x);
    }
  }

  /** A name that says anything about results means what the table says. */
  ghost predicate Sees(infos: seq<Info>, env: Env) {
    forall x :: var b := Find(infos, x);
      b.Some? && (InfoOf(infos, b.value).ty.TResult? || InfoOf(infos, b.value).proof.Some?) ==>
        && b.value < |env| && Lookup(env, User(x)) == Some(env[|env| - 1 - b.value].value)
        && (InfoOf(infos, b.value).proof.Some? && Lookup(env, User(x)).value.VBool? ==>
              Consistent(InfoOf(infos, b.value).proof, Lookup(env, User(x)).value.b, env))
  }

  lemma {:induction false} AliasesSee(infos: seq<Info>, env: Env)
    requires AliasesHold(infos, env)
    ensures Sees(infos, env)
  {
    forall x
      ensures var b := Find(infos, x); b.Some? ==> Lookup(env, User(x)) == Some(env[|env| - 1 - b.value].value)
      ensures var b := Find(infos, x); b.Some? ==> AliasHolds(infos, env, |env| - 1 - b.value)
    {
      FindLookup(infos, env, x);
    }
  }

  /** A condition's proof agrees with its value, through negation, connectives, comparison with
      a literal and aliases. */
  lemma {:induction false} BuildConsistent(c: Context, limit: nat, infos: seq<Info>, env: Env, zones: seq<Value>,
      tr: Trace, e: SExpr, depth: nat)
    requires Sees(infos, env) && limit <= |c.cs|
    requires var r := EvalS(c.o, c.cs, limit, env, zones, tr, e); r.Val? && r.value.VBool?
    ensures Consistent(BuildProof(infos, e, depth), EvalS(c.o, c.cs, limit, env, zones, tr, e).value.b, env)
    decreases e
  {
    hide Sees;
    if depth < MAX_PROOF_DEPTH {
      match e
      case SUnary(op, a) =>
        if op == Not {
          BuildConsistent(c, limit, infos, env, zones, tr, a, depth + 1);
        }
      case SBinary(op, _, _, _) =>
        if op.And? || op.Or? {
          ConnectiveConsistent(c, limit, infos, env, zones, tr, e, depth);
        } else if op.Equal? || op.NotEqual? {
          EqualityConsistent(c, limit, infos, env, zones, tr, e, depth);
        }
      case SName(x) => SeesName(infos, env, x);
      case SField(base, f) =>
        if f == OkField && base.SName? {
          SeesName(infos, env, base.id);
        }
      case _ =>
    }
  }

  lemma SeesName(infos: seq<Info>, env: Env, x: string)
    requires Sees(infos, env)
    ensures var b := Find(infos, x);
      b.Some? && (InfoOf(infos, b.value).ty.TResult? || InfoOf(infos, b.value).proof.Some?) ==>
        && b.value < |env| && Lookup(env, User(x)) == Some(env[|env| - 1 - b.value].value)
        && (InfoOf(infos, b.value).proof.Some? && Lookup(env, User(x)).value.VBool? ==>
              Consistent(InfoOf(infos, b.value).proof, Lookup(env, User(x)).value.b, env))
  {
  }

  lemma {:induction false} ConnectiveConsistent(c: Context, limit: nat, infos: seq<Info>, env: Env, zones: seq<Value>,
      tr: Trace, e: SExpr, depth: nat)
    requires Sees(infos, env) && limit <= |c.cs| && depth < MAX_PROOF_DEPTH && e.SBinary? && (e.bop.And? || e.bop.Or?)
    requires var r := EvalS(c.o, c.cs, limit, env, zones, tr, e); r.Val? && r.value.VBool?
    ensures Consistent(BuildProof(infos, e, depth), EvalS(c.o, c.cs, limit, env, zones, tr, e).value.b, env)
    decreases e, 0
  {
    hide Sees;
    var a := EvalS(c.o, c.cs, limit, env, zones, tr, e.left);
    BuildConsistent(c, limit, infos, env, zones, tr, e.left, depth + 1);
    var p, q := BuildProof(infos, e.left, depth + 1), BuildProof(infos, e.right, depth + 1);
    if a.value.b == e.bop.Or? {
      var w := SomeConsistent(q, env);
      assert Consistent(p, a.value.b, env) && Consistent(q, w, env);
    } else {
      BuildConsistent(c, limit, infos, env, zones, a.trace, e.right, depth + 1);
    }
  }

  lemma {:induction false} EqualityConsistent(c: Context, limit: nat, infos: seq<Info>, env: Env, zones: seq<Value>,
      tr: Trace, e: SExpr, depth: nat)
    requires Sees(infos, env) && limit <= |c.cs| && depth < MAX_PROOF_DEPTH && e.SBinary?
    requires (e.bop.Equal? || e.bop.NotEqual?)
    requires var r := EvalS(c.o, c.cs, limit, env, zones, tr, e); r.Val? && r.value.VBool?
    ensures Consistent(BuildProof(infos, e, depth), EvalS(c.o, c.cs, limit, env, zones, tr, e).value.b, env)
    decreases e, 0
  {
    hide Sees;
    var a := EvalS(c.o, c.cs, limit, env, zones, tr, e.left);
    assert EvalSBinary(c.o, c.cs, limit, env, zones, tr, e).Val?;
    var b := EvalS(c.o, c.cs, limit, env, zones, a.trace, e.right);
    if e.right.SBool? {
      assert e.operands == TBool && a.value.VBool?;
      BuildConsistent(c, limit, infos, env, zones, tr, e.left, depth + 1);
    }
    if e.left.SBool? {
      assert e.operands == TBool && b.value.VBool?;
      BuildConsistent(c, limit, infos, env, zones, a.trace, e.right, depth + 1);
    }
  }

  lemma {:induction false} BuildLeaves(infos: seq<Info>, env: Env, e: SExpr, depth: nat)
    requires AliasesHold(infos, env)
    ensures LeavesIn(BuildProof(infos, e, depth), infos, |infos|)
    decreases e
  {
    match e
    case SUnary(_, a) => BuildLeaves(infos, env, a, depth + 1);
    case SBinary(_, _, l, r) =>
      BuildLeaves(infos, env, l, depth + 1);
      BuildLeaves(infos, env, r, depth + 1);
    case SName(x) =>
      var b := Find(infos, x);
      if b.Some? {
        assert AliasHolds(infos, env, |infos| - 1 - b.value);
        LeavesMore(InfoOf(infos, b.value).proof, infos, b.value, |infos|);
      }
    case _ =>
  }

  lemma {:induction false} LeavesMore(p: Option<Proof>, infos: seq<Info>, n: nat, m: nat)
    requires n <= m <= |infos| && LeavesIn(p, infos, n)
    ensures LeavesIn(p, infos, m)
    decreases p
  {
    if p.Some? {
      match p.value
      case Leaf(_, _) =>
      case NotProof(q) => LeavesMore(q, infos, n, m);
      case AndProof(l, r) => LeavesMore(l, infos, n, m); LeavesMore(r, infos, n, m);
      case OrProof(l, r) => LeavesMore(l, infos, n, m); LeavesMore(r, infos, n, m);
    }
  }

  lemma {:induction false} MarksAreLeaves(p: Option<Proof>, v: bool, infos: seq<Info>)
    requires LeavesIn(p, infos, |infos|)
    ensures forall b :: b in Marks(p, v) ==> b < |infos| && InfoOf(infos, b).ty.TResult?
    decreases p
  {
    if p.Some? {
      match p.value
      case Leaf(_, _) =>
      case NotProof(q) => MarksAreLeaves(q, !v, infos);
      case AndProof(l, r) => MarksAreLeaves(l, v, infos); MarksAreLeaves(r, v, infos);
      case OrProof(l, r) => MarksAreLeaves(l, v, infos); MarksAreLeaves(r, v, infos);
    }
  }

  /** If every alias's stored proof is consistent with its value and the condition evaluates to
      `truth`, then every binding marked for that branch is an ok result. */
  lemma {:induction false} BranchMarksHold(c: Context, limit: nat, infos: seq<Info>, env: Env, zones: seq<Value>,
      tr: Trace, e: SExpr)
    requires AliasesHold(infos, env) && limit <= |c.cs|
    requires var r := EvalS(c.o, c.cs, limit, env, zones, tr, e); r.Val? && r.value.VBool?
    ensures
      var truth := EvalS(c.o, c.cs, limit, env, zones, tr, e).value.b;
      GuardHolds(infos, env, Marks(BuildProof(infos, e, 0), truth))
  {
    hide EvalS, BuildProof, Consistent;
    var truth := EvalS(c.o, c.cs, limit, env, zones, tr, e).value.b;
    AliasesSee(infos, env);
    BuildConsistent(c, limit, infos, env, zones, tr, e, 0);
    BuildLeaves(infos, env, e, 0);
    MarksAreOk(BuildProof(infos, e, 0), truth, env);
    MarksAreLeaves(BuildProof(infos, e, 0), truth, infos);
  }

  /** Evaluating e reads `.value` of ok results only. */
  predicate SafeExpr(c: Context, limit: nat, env: Env, zones: seq<Value>, tr: Trace, e: SExpr)
    requires limit <= |c.cs|
    decreases limit, e, 1
  {
    match e
    case SName(x) =>
      Lookup(env, User(x)).None? ==>
        var k := FindConst(c.cs, limit, x);
        k.Some? ==> SafeExpr(c, k.value, [], [], tr, c.cs[k.value].init)
    case SUnary(_, a) => SafeExpr(c, limit, env, zones, tr, a)
    case SBinary(op, _, l, r) =>
      && SafeExpr(c, limit, env, zones, tr, l)
      && var a := EvalS(c.o, c.cs, limit, env, zones, tr, l);
         a.Val? && !((op.And? || op.Or?) && a.value == VBool(op.Or?)) ==> SafeExpr(c, limit, env, zones, a.trace, r)
    case SIfExpr(b, t, f) =>
      && SafeExpr(c, limit, env, zones, tr, b)
      && var a := EvalS(c.o, c.cs, limit, env, zones, tr, b);
         a.Val? && a.value.VBool? ==> SafeExpr(c, limit, env, zones, a.trace, if a.value.b then t else f)
    case SCall(_, _, args) => SafeArgs(c, limit, env, zones, tr, args)
    case SField(base, f) =>
      && SafeExpr(c, limit, env, zones, tr, base)
      && var a := EvalS(c.o, c.cs, limit, env, zones, tr, base);
         f == ValueField && a.Val? && a.value.VResult? ==> a.value.ok
    case SOk(a) => SafeExpr(c, limit, env, zones, tr, a)
    case _ => true
  }

  predicate SafeArgs(c: Context, limit: nat, env: Env, zones: seq<Value>, tr: Trace, args: seq<SExpr>)
    requires limit <= |c.cs|
    decreases limit, args, 0
  {
    args != [] ==>
      && SafeExpr(c, limit, env, zones, tr, args[0])
      && var a := EvalS(c.o, c.cs, limit, env, zones, tr, args[0]);
         a.Val? ==> SafeArgs(c, limit, env, zones, a.trace, args[1..])
  }

  /** Constants are checked outside every scope. */
  predicate ConstsAccepted(cs: seq<Const>) {
    forall i :: 0 <= i < |cs| ==> AcceptsExpr(Flow([], []), cs[i].init)
  }

  lemma TrueNothing()
    ensures True(Flow([], []), [])
  {
  }

  lemma {:induction false} TrueEnter(flow: Flow, env: Env, marks: set<nat>)
    requires True(flow, env) && GuardHolds(flow.infos, env, marks)
    ensures True(Enter(flow, marks), env)
  {
    var flow' := Enter(flow, marks);
    forall i | 0 <= i < |flow'.guards|
      ensures GuardHolds(flow'.infos, env, flow'.guards[i])
    {
      if 0 < i {
        assert GuardHolds(flow.infos, env, flow.guards[i - 1]);
      }
    }
  }

  lemma {:induction false} AcceptedIsSafe(c: Context, limit: nat, flow: Flow, env: Env, zones: seq<Value>, tr: Trace,
      e: SExpr)
    requires limit <= |c.cs| && ConstsAccepted(c.cs)
    requires True(flow, env)
    requires AcceptsExpr(flow, e)
    ensures SafeExpr(c, limit, env, zones, tr, e)
    decreases limit, e, 1
  {
    hide True, EvalS;
    TrueNothing();
    match e
    case SName(x) =>
      var k := FindConst(c.cs, limit, x);
      if k.Some? {
        AcceptedIsSafe(c, k.value, Flow([], []), [], [], tr, c.cs[k.value].init);
      }
    case SUnary(_, a) => AcceptedIsSafe(c, limit, flow, env, zones, tr, a);
    case SOk(a) => AcceptedIsSafe(c, limit, flow, env, zones, tr, a);
    case SBinary(_, _, l, r) =>
      AcceptedIsSafe(c, limit, flow, env, zones, tr, l);
      var a := EvalS(c.o, c.cs, limit, env, zones, tr, l);
      if a.Val? {
        AcceptedIsSafe(c, limit, flow, env, zones, a.trace, r);
      }
    case SIfExpr(_, _, _) => IfExprIsSafe(c, limit, flow, env, zones, tr, e);
    case SCall(_, _, args) => ArgsAreSafe(c, limit, flow, env, zones, tr, args);
    case SField(base, f) =>
      AcceptedIsSafe(c, limit, flow, env, zones, tr, base);
      if f == ValueField {
        GuardedRead(c, limit, flow, env, zones, tr, base.id);
      }
    case _ =>
  }

  lemma {:induction false} GuardedRead(c: Context, limit: nat, flow: Flow, env: Env, zones: seq<Value>, tr: Trace,
      x: string)
    requires limit <= |c.cs| && True(flow, env)
    requires var b := Find(flow.infos, x); b.Some? && ProvenOk(flow, b.value)
    ensures var r := EvalS(c.o, c.cs, limit, env, zones, tr, SName(x)); r.Val? && r.value.VResult? && r.value.ok
  {
    var b := Find(flow.infos, x).value;
    FindLookup(flow.infos, env, x);
    var i :| 0 <= i < |flow.guards| && b in flow.guards[i];
    assert GuardHolds(flow.infos, env, flow.guards[i]);
  }

  lemma {:induction false} IfExprIsSafe(c: Context, limit: nat, flow: Flow, env: Env, zones: seq<Value>, tr: Trace,
      e: SExpr)
    requires e.SIfExpr? && limit <= |c.cs| && ConstsAccepted(c.cs)
    requires True(flow, env)
    requires AcceptsExpr(flow, e)
    ensures SafeExpr(c, limit, env, zones, tr, e)
    decreases limit, e, 0
  {
    hide EvalS, BuildProof, Marks;
    AcceptedIsSafe(c, limit, flow, env, zones, tr, e.cond);
    var a := EvalS(c.o, c.cs, limit, env, zones, tr, e.cond);
    if a.Val? && a.value.VBool? {
      var marks := Marks(BuildProof(flow.infos, e.cond, 0), a.value.b);
      BranchMarksHold(c, limit, flow.infos, env, zones, tr, e.cond);
      TrueEnter(flow, env, marks);
      AcceptedIsSafe(c, limit, Enter(flow, marks), env, zones, a.trace, if a.value.b then e.thenExpr else e.elseExpr);
    }
  }

  lemma {:induction false} ArgsAreSafe(c: Context, limit: nat, flow: Flow, env: Env, zones: seq<Value>, tr: Trace,
      args: seq<SExpr>)
    requires limit <= |c.cs| && ConstsAccepted(c.cs)
    requires True(flow, env)
    requires AcceptsArgs(flow, args)
    ensures SafeArgs(c, limit, env, zones, tr, args)
    decreases limit, args, 0
  {
    hide True, EvalS;
    if args != [] {
      AcceptedIsSafe(c, limit, flow, env, zones, tr, args[0]);
      var a := EvalS(c.o, c.cs, limit, env, zones, tr, args[0]);
      if a.Val? {
        ArgsAreSafe(c, limit, flow, env, zones, a.trace, args[1..]);
      }
    }
  }
}
