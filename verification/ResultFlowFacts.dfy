/** The flow facts stay true as bindings come and go, results are assigned and scopes end. */
module ResultFlowFacts {
  import opened Ir
  import opened Values
  import opened IrSemantics
  import opened Source
  import opened ResultFlow
  import opened ResultFlowProof
  import opened ResultForgets

  /** The binding of number b. */
  function Of(env: Env, b: nat): Binding
    requires b < |env|
  {
    env[|env| - 1 - b]
  }

  /** Results not touched are ok as before, those not spoiled stay ok, those made ok are, and
      those ruined are not. */
  ghost predicate Unchanged(env: Env, env': Env, ch: Change) {
    && |env| <= |env'|
    && (forall b: nat :: b < |env| && b !in ch.spoiled && OkAt(env, b) ==> OkAt(env', b))
    && (forall b: nat :: b < |env| && b !in ch.touched && OkAt(env', b) ==> OkAt(env, b))
    && (forall b: nat :: b < |env| && b in ch.made ==> OkAt(env', b))
    && (forall b: nat :: b < |env| && b in ch.ruined ==> !OkAt(env', b))
  }

  lemma UnchangedThen(a: Env, b: Env, c: Env, ch: Change, ch': Change)
    requires Unchanged(a, b, ch) && Unchanged(b, c, ch')
    ensures Unchanged(a, c, Then(ch, ch'))
  {
  }

  lemma {:induction false} UnchangedLeave(env: Env, env': Env, ch: Change)
    requires Unchanged(env, env', ch)
    ensures Unchanged(env, env'[|env'| - |env|..], ch)
  {
    var trimmed := env'[|env'| - |env|..];
    forall b: nat | b < |env|
      ensures OkAt(trimmed, b) == OkAt(env', b)
    {
      assert Of(trimmed, b) == Of(env', b);
    }
  }

  /** The same facts or fewer. */
  predicate LessKnown(i: Info, i': Info) { i' == i || i' == i.(proof := None) }

  /** The visible bindings know no more, and the outer scopes guard no more. */
  predicate Shrinks(flow: Flow, flow': Flow) {
    && |flow.infos| <= |flow'.infos| && |flow.guards| == |flow'.guards|
    && (forall b: nat :: b < |flow.infos| ==> LessKnown(InfoOf(flow.infos, b), InfoOf(flow'.infos, b)))
    && (forall i :: 1 <= i < |flow.guards| ==> flow'.guards[i] <= flow.guards[i])
  }

  /** Weaker in every scope. */
  predicate Weaker(flow: Flow, flow': Flow) {
    && |flow.infos| == |flow'.infos| && Shrinks(flow, flow')
    && (flow.guards != [] ==> flow'.guards[0] <= flow.guards[0])
  }

  lemma {:induction false} ShrinksThen(a: Flow, b: Flow, c: Flow)
    requires Shrinks(a, b) && Shrinks(b, c)
    ensures Shrinks(a, c)
  {
    forall n: nat | n < |a.infos|
      ensures LessKnown(InfoOf(a.infos, n), InfoOf(c.infos, n))
    {
      assert LessKnown(InfoOf(a.infos, n), InfoOf(b.infos, n)) && LessKnown(InfoOf(b.infos, n), InfoOf(c.infos, n));
    }
  }

  lemma {:induction false} ForgotShrinks(flow: Flow, flow': Flow, bs: set<nat>)
    requires Forgot(flow, flow', bs)
    ensures Shrinks(flow, flow')
    ensures ForgotAll(flow, flow', bs) ==> Weaker(flow, flow')
  {
    forall b: nat | b < |flow.infos|
      ensures LessKnown(InfoOf(flow.infos, b), InfoOf(flow'.infos, b))
    {
      assert InfoOf(flow'.infos, b) == DroppedAll(InfoOf(flow.infos, b), bs);
    }
  }

  lemma {:induction false} BlockWeakens(flow: Flow, pending: seq<set<Due>>, marks: set<nat>, ss: seq<SStmt>)
    ensures Weaker(flow, CheckBlock(flow, pending, marks, ss).flow)
  {
    hide CheckBlock, Forgets, Weaker, Shrinks, DroppedAll;
    BlockForgets(flow, pending, marks, ss);
    ForgotShrinks(flow, CheckBlock(flow, pending, marks, ss).flow, Forgets(flow.infos, ss));
  }

  /** Consistency only looks at the leaves. */
  lemma {:induction false} ConsistentSame(p: Option<Proof>, v: bool, env: Env, env': Env, infos: seq<Info>, n: nat)
    requires n <= |infos| && LeavesIn(p, infos, n) && Consistent(p, v, env)
    requires forall b: nat :: b < n && DependsOn(p, b) ==> OkAt(env', b) == OkAt(env, b)
    ensures Consistent(p, v, env')
    decreases p
  {
    if p.Some? {
      match p.value
      case Leaf(b, _) => assert DependsOn(p, b);
      case NotProof(q) => ConsistentSame(q, !v, env, env', infos, n);
      case AndProof(l, r) =>
        var a, b :| v == (a && b) && Consistent(l, a, env) && Consistent(r, b, env);
        ConsistentSame(l, a, env, env', infos, n);
        ConsistentSame(r, b, env, env', infos, n);
      case OrProof(l, r) =>
        var a, b :| v == (a || b) && Consistent(l, a, env) && Consistent(r, b, env);
        ConsistentSame(l, a, env, env', infos, n);
        ConsistentSame(r, b, env, env', infos, n);
    }
  }

  /** Leaves of another table that agrees on the types of the first n bindings. */
  lemma {:induction false} LeavesSame(p: Option<Proof>, infos: seq<Info>, infos': seq<Info>, n: nat)
    requires n <= |infos| && n <= |infos'| && LeavesIn(p, infos, n)
    requires forall b: nat :: b < n ==> InfoOf(infos', b).ty == InfoOf(infos, b).ty
    ensures LeavesIn(p, infos', n)
    decreases p
  {
    if p.Some? {
      match p.value
      case Leaf(_, _) =>
      case NotProof(q) => LeavesSame(q, infos, infos', n);
      case AndProof(l, r) => LeavesSame(l, infos, infos', n); LeavesSame(r, infos, infos', n);
      case OrProof(l, r) => LeavesSame(l, infos, infos', n); LeavesSame(r, infos, infos', n);
    }
  }

  /** The alias of number b holds in another state that agrees with the first one on it. */
  lemma {:induction false} AliasMoves(infos: seq<Info>, env: Env, infos': seq<Info>, env': Env, b: nat)
    requires |infos| == |env| && |infos'| == |env'| && b < |env| && b < |env'|
    requires AliasHolds(infos, env, |env| - 1 - b) && LessKnown(InfoOf(infos, b), InfoOf(infos', b))
    requires InfoOf(infos', b).proof.Some? ==> Of(env', b).value == Of(env, b).value
    requires forall n: nat :: n < b ==> InfoOf(infos', n).ty == InfoOf(infos, n).ty
    requires forall n: nat :: n < b && DependsOn(InfoOf(infos', b).proof, n) ==> OkAt(env', n) == OkAt(env, n)
    ensures AliasHolds(infos', env', |env'| - 1 - b)
  {
    var p := InfoOf(infos', b).proof;
    if p.Some? {
      assert InfoOf(infos, b) == infos[|env| - 1 - b] && Of(env, b) == env[|env| - 1 - b];
      LeavesSame(p, infos, infos', b);
      if Of(env, b).value.VBool? {
        ConsistentSame(p, Of(env, b).value.b, env, env', infos, b);
      }
    }
  }

  lemma {:induction false} TrueWeaker(flow: Flow, flow': Flow, env: Env)
    requires True(flow, env) && Weaker(flow, flow')
    ensures True(flow', env)
  {
    AliasesWeaker(flow.infos, flow'.infos, env);
    forall i | 0 <= i < |flow'.guards|
      ensures GuardHolds(flow'.infos, env, flow'.guards[i])
    {
      assert GuardHolds(flow.infos, env, flow.guards[i]) && flow'.guards[i] <= flow.guards[i];
      assert forall n: nat :: n < |env| ==> LessKnown(InfoOf(flow.infos, n), InfoOf(flow'.infos, n));
    }
  }

  lemma {:induction false} AliasesWeaker(infos: seq<Info>, infos': seq<Info>, env: Env)
    requires AliasesHold(infos, env) && |infos| == |infos'|
    requires forall b: nat :: b < |infos| ==> LessKnown(InfoOf(infos, b), InfoOf(infos', b))
    ensures AliasesHold(infos', env)
  {
    hide AliasHolds;
    forall i | 0 <= i < |env|
      ensures AliasHolds(infos', env, i) && env[i].name == User(infos'[i].name)
    {
      var b := |env| - 1 - i;
      assert LessKnown(InfoOf(infos, b), InfoOf(infos', b));
      assert AliasHolds(infos, env, i);
      AliasMoves(infos, env, infos', env, b);
    }
  }

  lemma {:induction false} TrueMark(flow: Flow, env: Env, bs: set<nat>)
    requires True(flow, env) && flow.guards != [] && GuardHolds(flow.infos, env, bs)
    ensures True(Mark(flow, bs), env)
  {
    var flow' := Mark(flow, bs);
    forall i | 0 <= i < |flow'.guards|
      ensures GuardHolds(flow'.infos, env, flow'.guards[i])
    {
      assert GuardHolds(flow.infos, env, flow.guards[i]);
    }
  }

  /** Leaving a block. */
  lemma {:induction false} TrueExit(flow: Flow, marks: set<nat>, flow1: Flow, env: Env, env1: Env)
    requires True(flow, env) && True(flow1, env1) && Shrinks(Enter(flow, marks), flow1) && |env| <= |env1|
    ensures True(Exit(flow1, |flow.infos|), env1[|env1| - |env|..])
  {
    hide AliasHolds, GuardHolds, LessKnown;
    var n, flow', env' := |env|, Exit(flow1, |flow.infos|), env1[|env1| - |env|..];
    AliasesExit(flow1.infos, env1, n);
    forall i | 0 <= i < |flow'.guards|
      ensures GuardHolds(flow'.infos, env', flow'.guards[i])
    {
      assert GuardHolds(flow1.infos, env1, flow1.guards[i + 1]) && GuardHolds(flow.infos, env, flow.guards[i]);
      assert flow1.guards[i + 1] <= Enter(flow, marks).guards[i + 1];
      GuardExits(flow1.infos, env1, flow1.guards[i + 1], flow.infos, env, flow.guards[i]);
    }
  }

  lemma GuardExits(infos1: seq<Info>, env1: Env, g1: set<nat>, infos: seq<Info>, env: Env, g: set<nat>)
    requires GuardHolds(infos1, env1, g1) && GuardHolds(infos, env, g) && g1 <= g
    requires |infos| == |env| <= |env1| == |infos1|
    ensures GuardHolds(infos1[|infos1| - |infos|..], env1[|env1| - |env|..], g1)
  {
    assert forall b: nat :: b < |env| ==> InfoOf(infos1[|infos1| - |infos|..], b) == InfoOf(infos1, b);
  }

  lemma {:induction false} AliasesExit(infos: seq<Info>, env: Env, n: nat)
    requires AliasesHold(infos, env) && n <= |env|
    ensures AliasesHold(infos[|infos| - n..], env[|env| - n..])
  {
    hide AliasHolds;
    var k, infos', env' := |env| - n, infos[|infos| - n..], env[|env| - n..];
    forall i | 0 <= i < n
      ensures AliasHolds(infos', env', i) && env'[i].name == User(infos'[i].name)
    {
      assert AliasHolds(infos, env, k + i);
      AliasMoves(infos, env, infos', env', n - 1 - i);
    }
  }

  lemma {:induction false} AliasesPush(infos: seq<Info>, env: Env, i: Info, v: Value)
    requires AliasesHold(infos, env) && i.proof.None?
    ensures AliasesHold([i] + infos, [Binding(User(i.name), v)] + env)
  {
    hide AliasHolds;
    var infos', env' := [i] + infos, [Binding(User(i.name), v)] + env;
    forall j | 0 <= j < |env'|
      ensures AliasHolds(infos', env', j) && env'[j].name == User(infos'[j].name)
    {
      if j == 0 {
        NoAlias(infos', env', 0);
      } else {
        assert AliasHolds(infos, env, j - 1);
        AliasMoves(infos, env, infos', env', |env| - j);
      }
    }
  }

  lemma NoAlias(infos: seq<Info>, env: Env, i: nat)
    requires i < |infos| == |env| && infos[i].proof.None?
    ensures AliasHolds(infos, env, i)
  {
  }

  lemma {:induction false} TruePush(flow: Flow, env: Env, i: Info, v: Value)
    requires True(flow, env) && i.proof.None?
    ensures True(flow.(infos := [i] + flow.infos), [Binding(User(i.name), v)] + env)
  {
    var flow', env' := flow.(infos := [i] + flow.infos), [Binding(User(i.name), v)] + env;
    AliasesPush(flow.infos, env, i, v);
    forall j | 0 <= j < |flow'.guards|
      ensures GuardHolds(flow'.infos, env', flow'.guards[j])
    {
      assert GuardHolds(flow.infos, env, flow.guards[j]);
      assert forall b: nat :: b < |env| ==>
          InfoOf(flow'.infos, b) == InfoOf(flow.infos, b) && Of(env', b) == Of(env, b);
    }
  }

  /** Only result bindings are leaves, so a boolean just bound is none. */
  lemma {:induction false} LeavesBefore(p: Option<Proof>, infos: seq<Info>)
    requires infos != [] && !infos[0].ty.TResult? && LeavesIn(p, infos, |infos|)
    ensures LeavesIn(p, infos, |infos| - 1)
    decreases p
  {
    if p.Some? {
      match p.value
      case Leaf(b, _) => assert InfoOf(infos, |infos| - 1) == infos[0];
      case NotProof(q) => LeavesBefore(q, infos);
      case AndProof(l, r) => LeavesBefore(l, infos); LeavesBefore(r, infos);
      case OrProof(l, r) => LeavesBefore(l, infos); LeavesBefore(r, infos);
    }
  }

  lemma {:induction false} SeesPush(infos: seq<Info>, env: Env, i: Info)
    requires Sees(infos, env) && i.proof.None? && !i.ty.TResult?
    ensures Sees([i] + infos, env)
  {
    var infos' := [i] + infos;
    forall x
      ensures x != i.name ==> Find(infos', x) == Find(infos, x)
    {
      assert infos'[1..] == infos;
    }
    assert forall b: nat :: b < |infos| ==> InfoOf(infos', b) == InfoOf(infos, b);
  }

  /** The alias of an immutable boolean that was just bound to the value of its initializer. */
  lemma {:induction false} AliasNew(c: Context, infos: seq<Info>, env: Env, zones: seq<Value>, tr: Trace, x: string,
      e: SExpr)
    requires AliasesHold(infos, env) && EvalS(c.o, c.cs, |c.cs|, env, zones, tr, e).Val?
    ensures
      var infos1 := [Info(x, false, TBool, None)] + infos;
      var infos2 := [Info(x, false, TBool, BuildProof(infos1, e, 0))] + infos;
      AliasHolds(infos2, [Binding(User(x), EvalS(c.o, c.cs, |c.cs|, env, zones, tr, e).value)] + env, 0)
  {
    hide EvalS, BuildProof, Sees, Consistent, LeavesIn, Find;
    var v := EvalS(c.o, c.cs, |c.cs|, env, zones, tr, e).value;
    var env' := [Binding(User(x), v)] + env;
    var infos1 := [Info(x, false, TBool, None)] + infos;
    var p := BuildProof(infos1, e, 0);
    var infos2 := [Info(x, false, TBool, p)] + infos;
    AliasesPush(infos, env, infos1[0], v);
    BuildLeaves(infos1, env', e, 0);
    LeavesBefore(p, infos1);
    LeavesSame(p, infos1, infos2, |infos|);
    if v.VBool? {
      AliasesSee(infos, env);
      SeesPush(infos, env, infos1[0]);
      BuildConsistent(c, |c.cs|, infos1, env, zones, tr, e, 0);
      ConsistentSame(p, v.b, env, env', infos1, |infos|);
    }
  }

  lemma GuardSameTypes(infos: seq<Info>, infos': seq<Info>, env: Env, g: set<nat>)
    requires GuardHolds(infos, env, g) && |infos| == |infos'|
    requires forall i :: 0 <= i < |infos| ==> infos'[i].ty == infos[i].ty
    ensures GuardHolds(infos', env, g)
  {
  }

  /** Giving the innermost binding, which is no result, a proof that holds. */
  lemma {:induction false} TrueAlias(flow: Flow, env: Env, p: Option<Proof>)
    requires True(flow, env) && flow.infos != [] && flow.infos[0].proof.None? && !flow.infos[0].ty.TResult?
    requires AliasHolds([flow.infos[0].(proof := p)] + flow.infos[1..], env, 0)
    ensures True(flow.(infos := [flow.infos[0].(proof := p)] + flow.infos[1..]), env)
  {
    hide AliasHolds, GuardHolds;
    var infos' := [flow.infos[0].(proof := p)] + flow.infos[1..];
    forall j | 0 <= j < |env|
      ensures AliasHolds(infos', env, j) && env[j].name == User(infos'[j].name)
    {
      assert AliasHolds(flow.infos, env, j);
      if 0 < j {
        AliasMoves(flow.infos, env, infos', env, |env| - 1 - j);
      }
    }
    forall j | 0 <= j < |flow.guards|
      ensures GuardHolds(infos', env, flow.guards[j])
    {
      assert GuardHolds(flow.infos, env, flow.guards[j]);
      GuardSameTypes(flow.infos, infos', env, flow.guards[j]);
    }
  }

  lemma {:induction false} TrueLet(c: Context, flow: Flow, env: Env, zones: seq<Value>, tr: Trace, x: string,
      mut: bool, ty: Type, e: SExpr)
    requires True(flow, env) && EvalS(c.o, c.cs, |c.cs|, env, zones, tr, e).Val?
    ensures True(Define(flow, x, mut, ty, Some(e)),
        [Binding(User(x), EvalS(c.o, c.cs, |c.cs|, env, zones, tr, e).value)] + env)
  {
    hide EvalS, BuildProof, AliasHolds, GuardHolds;
    var v := EvalS(c.o, c.cs, |c.cs|, env, zones, tr, e).value;
    var env' := [Binding(User(x), v)] + env;
    var i := Info(x, mut, ty, None);
    TruePush(flow, env, i, v);
    if !mut && ty == TBool {
      AliasNew(c, flow.infos, env, zones, tr, x, e);
      var flow1 := flow.(infos := [i] + flow.infos);
      assert flow1.infos[1..] == flow.infos;
      TrueAlias(flow1, env', BuildProof(flow1.infos, e, 0));
    }
  }

  lemma {:induction false} FindIsFirst(infos: seq<Info>, x: string)
    requires Find(infos, x).Some?
    ensures forall j :: 0 <= j < |infos| - 1 - Find(infos, x).value ==> infos[j].name != x
    decreases infos
  {
    if infos[0].name != x {
      FindIsFirst(infos[1..], x);
      assert forall j :: 1 <= j < |infos| ==> infos[j] == infos[1..][j - 1];
    }
  }

  lemma {:induction false} UpdateNumber(infos: seq<Info>, env: Env, x: string, v: Value)
    requires Named(infos, env) && Find(infos, x).Some?
    ensures Update(env, User(x), v) == env[|env| - 1 - Find(infos, x).value := Binding(User(x), v)]
  {
    var k := |env| - 1 - Find(infos, x).value;
    FindIsFirst(infos, x);
    assert env[k].name == User(infos[k].name);
    UpdateFirst(env, User(x), k, v);
  }

  /** Assigning to a mutable binding; a result forgets what was known about it. */
  lemma {:induction false} TrueAssign(flow: Flow, env: Env, x: string, v: Value)
    requires True(flow, env) && Find(flow.infos, x).Some? && InfoOf(flow.infos, Find(flow.infos, x).value).mut
    ensures
      var b := Find(flow.infos, x).value;
      True(if InfoOf(flow.infos, b).ty.TResult? then Invalidate(flow, b) else flow, Update(env, User(x), v))
  {
    hide AliasHolds, Update;
    var b := Find(flow.infos, x).value;
    UpdateNumber(flow.infos, env, x, v);
    var env' := env[|env| - 1 - b := Binding(User(x), v)];
    var flow' := if InfoOf(flow.infos, b).ty.TResult? then Invalidate(flow, b) else flow;
    forall i | 0 <= i < |env|
      ensures AliasHolds(flow'.infos, env', i) && env'[i].name == User(flow'.infos[i].name)
    {
      assert AliasHolds(flow.infos, env, i);
      AliasAssigned(flow, flow', env, env', i, b);
      assert env[i].name == User(flow.infos[i].name);
    }
    forall i | 0 <= i < |flow'.guards|
      ensures GuardHolds(flow'.infos, env', flow'.guards[i])
    {
      assert GuardHolds(flow.infos, env, flow.guards[i]);
      GuardAssigned(flow, flow', env, env', i, b);
    }
  }

  lemma {:induction false} GuardAssigned(flow: Flow, flow': Flow, env: Env, env': Env, i: nat, b: nat)
    requires |flow.infos| == |env| == |env'| && b < |env| && i < |flow.guards|
    requires GuardHolds(flow.infos, env, flow.guards[i])
    requires forall n: nat :: n < |env| && n != b ==> Of(env', n) == Of(env, n)
    requires flow' == if InfoOf(flow.infos, b).ty.TResult? then Invalidate(flow, b) else flow
    ensures i < |flow'.guards| && GuardHolds(flow'.infos, env', flow'.guards[i])
  {
    forall n: nat | n in flow'.guards[i]
      ensures n < |flow'.infos| && InfoOf(flow'.infos, n).ty.TResult? && OkAt(env', n)
    {
      assert n in flow.guards[i] && n != b;
      assert Of(env', n) == Of(env, n);
    }
  }

  lemma {:induction false} AliasAssigned(flow: Flow, flow': Flow, env: Env, env': Env, i: nat, b: nat)
    requires i < |flow.infos| == |env| == |env'| && b < |env| && AliasHolds(flow.infos, env, i)
    requires InfoOf(flow.infos, b).mut && forall n: nat :: n < |env| && n != b ==> Of(env', n) == Of(env, n)
    requires flow' == if InfoOf(flow.infos, b).ty.TResult? then Invalidate(flow, b) else flow
    ensures AliasHolds(flow'.infos, env', i)
  {
    var n := |env| - 1 - i;
    assert InfoOf(flow.infos, n) == flow.infos[i] && InfoOf(flow'.infos, n) == flow'.infos[i];
    var p := flow'.infos[i].proof;
    if p.Some? {
      assert !DependsOn(p, b) by {
        if !InfoOf(flow.infos, b).ty.TResult? {
          NotALeaf(p, flow.infos, n, b);
        }
      }
      assert n != b;
    }
    forall m: nat | m < n && DependsOn(p, m)
      ensures OkAt(env', m) == OkAt(env, m)
    {
      assert m != b;
      assert Of(env', m) == Of(env, m);
    }
    assert forall m: nat :: m < n ==> InfoOf(flow'.infos, m).ty == InfoOf(flow.infos, m).ty;
    AliasMoves(flow.infos, env, flow'.infos, env', n);
  }

  lemma {:induction false} NotALeaf(p: Option<Proof>, infos: seq<Info>, n: nat, b: nat)
    requires n <= |infos| && b < |infos| && LeavesIn(p, infos, n) && !InfoOf(infos, b).ty.TResult?
    ensures !DependsOn(p, b)
    decreases p
  {
    if p.Some? {
      match p.value
      case Leaf(_, _) =>
      case NotProof(q) => NotALeaf(q, infos, n, b);
      case AndProof(l, r) => NotALeaf(l, infos, n, b); NotALeaf(r, infos, n, b);
      case OrProof(l, r) => NotALeaf(l, infos, n, b); NotALeaf(r, infos, n, b);
    }
  }

  lemma {:induction false} NumberIsFind(infos: seq<Info>, x: string)
    ensures Number(NamesIn(infos), x) == Find(infos, x)
    decreases infos
  {
    if infos != [] {
      assert NamesIn(infos)[1..] == NamesIn(infos[1..]);
      NumberIsFind(infos[1..], x);
    }
  }

  lemma {:induction false} NamesSame(infos: seq<Info>, infos': seq<Info>)
    requires |infos| == |infos'| && forall i :: 0 <= i < |infos| ==> infos'[i].name == infos[i].name
    ensures NamesIn(infos') == NamesIn(infos)
    decreases infos
  {
    if infos != [] {
      NamesSame(infos[1..], infos'[1..]);
    }
  }

  lemma UnchangedSelf(env: Env, ch: Change)
    requires ch.made == {} == ch.ruined
    ensures Unchanged(env, env, ch)
  {
  }

  lemma UnchangedPush(env: Env, x: Binding, ch: Change)
    requires ch.made == {} == ch.ruined
    ensures Unchanged(env, [x] + env, ch)
  {
    assert forall b: nat :: b < |env| ==> Of([x] + env, b) == Of(env, b);
  }

  lemma UnchangedMore(env: Env, env': Env, ch: Change, ch': Change)
    requires Unchanged(env, env', ch) && ch.touched <= ch'.touched && ch.spoiled <= ch'.spoiled && ch'.made <= ch.made
    requires ch'.ruined <= ch.ruined
    ensures Unchanged(env, env', ch')
  {
  }

  // A deferred statement sees the bindings that were there when it was written

  lemma {:induction false} TrueTrim(flow: Flow, env: Env, n: nat)
    requires True(flow, env)
    ensures True(Trim(flow, n), Innermost(env, n))
  {
    hide AliasHolds, GuardHolds;
    var flow', env' := Trim(flow, n), Innermost(env, n);
    if n <= |env| {
      AliasesExit(flow.infos, env, n);
    }
    forall i | 0 <= i < |flow'.guards|
      ensures GuardHolds(flow'.infos, env', flow'.guards[i])
    {
      assert GuardHolds(flow.infos, env, flow.guards[i]);
      GuardTrim(flow.infos, env, flow.guards[i], n);
    }
  }

  lemma GuardTrim(infos: seq<Info>, env: Env, g: set<nat>, n: nat)
    requires GuardHolds(infos, env, g) && |infos| == |env|
    ensures GuardHolds(Innermost(infos, n), Innermost(env, n), set b | b in g && b < n)
  {
  }

  /** The loop variable of a `for` goes on. */
  lemma {:induction false} TrueCount(flow: Flow, env: Env, v: Value)
    requires True(flow, env) && env != [] && flow.infos[0].proof.None? && !flow.infos[0].ty.TResult?
    ensures True(flow, [Binding(env[0].name, v)] + env[1..])
  {
    hide AliasHolds, GuardHolds;
    var env' := [Binding(env[0].name, v)] + env[1..];
    assert forall b: nat :: b < |env| - 1 ==> Of(env', b) == Of(env, b);
    forall i | 0 <= i < |env|
      ensures AliasHolds(flow.infos, env', i) && env'[i].name == User(flow.infos[i].name)
    {
      assert AliasHolds(flow.infos, env, i);
      if i == 0 {
        NoAlias(flow.infos, env', 0);
      } else {
        AliasMoves(flow.infos, env, flow.infos, env', |env| - 1 - i);
      }
    }
    forall i | 0 <= i < |flow.guards|
      ensures GuardHolds(flow.infos, env', flow.guards[i])
    {
      assert GuardHolds(flow.infos, env, flow.guards[i]);
      GuardCount(flow.infos, env, flow.guards[i], v);
    }
  }

  lemma GuardCount(infos: seq<Info>, env: Env, g: set<nat>, v: Value)
    requires GuardHolds(infos, env, g) && |infos| == |env| > 0 && !infos[0].ty.TResult?
    ensures GuardHolds(infos, [Binding(env[0].name, v)] + env[1..], g)
  {
    assert InfoOf(infos, |env| - 1) == infos[0];
  }

  lemma UnchangedCount(env: Env, env': Env, v: int, ch: Change)
    requires Unchanged(env, env', ch) && |env| == |env'| > 0 && env'[0].value.VInt? && ch.made == {} == ch.ruined
    ensures Unchanged(env, [Binding(env'[0].name, VInt(v))] + env'[1..], ch)
  {
    var env2 := [Binding(env'[0].name, VInt(v))] + env'[1..];
    assert forall b: nat :: b < |env| - 1 ==> Of(env2, b) == Of(env', b);
  }
}
