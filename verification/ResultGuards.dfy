/** The flow checker proves everything its rules can: what a condition marks is exactly what its
    truth implies, and every read it dominates is accepted (src/sema/typecheck.c:1208-1345). */
module ResultGuards {
  import opened Ir
  import opened Values
  import opened IrSemantics
  import opened Source
  import opened GuaranteedReturn
  import opened ResultFlow
  import opened ResultFlowProof

  // Marks are exactly what a proof implies

  function Leaves(p: Option<Proof>): set<nat>
    decreases p
  {
    if p.None? then {}
    else
      match p.value
      case Leaf(b, _) => {b}
      case NotProof(q) => Leaves(q)
      case AndProof(l, r) => Leaves(l) + Leaves(r)
      case OrProof(l, r) => Leaves(l) + Leaves(r)
  }

  /** No result occurs twice. */
  predicate Linear(p: Option<Proof>)
    decreases p
  {
    p.Some? ==>
    match p.value
    case Leaf(_, _) => true
    case NotProof(q) => Linear(q)
    case AndProof(l, r) => Linear(l) && Linear(r) && Leaves(l) !! Leaves(r)
    case OrProof(l, r) => Linear(l) && Linear(r) && Leaves(l) !! Leaves(r)
  }

  lemma {:induction false} MarksAreMentioned(p: Option<Proof>, v: bool)
    ensures Marks(p, v) <= Leaves(p)
    decreases p
  {
    if p.Some? {
      match p.value
      case Leaf(_, _) =>
      case NotProof(q) => MarksAreMentioned(q, !v);
      case AndProof(l, r) => MarksAreMentioned(l, true); MarksAreMentioned(r, true);
      case OrProof(l, r) => MarksAreMentioned(l, false); MarksAreMentioned(r, false);
    }
  }

  lemma {:induction false} NotBoth(p: Option<Proof>, b: nat)
    ensures !(b in Marks(p, true) && b in Marks(p, false))
    decreases p
  {
    if p.Some? && p.value.NotProof? {
      NotBoth(p.value.inner, b);
    }
  }

  ghost predicate Agrees(p: Option<Proof>, env: Env, ok: set<nat>) {
    forall b :: b in Leaves(p) ==> (OkAt(env, b) <==> b in ok)
  }

  /** Where the results of p that are ok are those of `ok`, the formula may be v. */
  ghost predicate Allows(p: Option<Proof>, v: bool, ok: set<nat>) {
    forall env :: Agrees(p, env, ok) ==> Consistent(p, v, env)
  }

  /** A result that is not marked is not ok in some case that makes the formula v. */
  lemma {:induction false} Refute(p: Option<Proof>, v: bool, b: nat) returns (ok: set<nat>)
    requires Linear(p) && b !in Marks(p, v)
    ensures ok <= Leaves(p) && b !in ok && Allows(p, v, ok)
    decreases p
  {
    ok := {};
    if p.Some? {
      match p.value
      case Leaf(x, positive) =>
        ok := if v == positive then {x} else {};
      case NotProof(q) =>
        ok := Refute(q, !v, b);
        assert Leaves(p) == Leaves(q);
      case AndProof(l, r) => ok := RefuteBoth(p, l, r, v, b);
      case OrProof(l, r) => ok := RefuteBoth(p, l, r, v, b);
    }
  }

  lemma {:induction false} RefuteBoth(p: Option<Proof>, l: Option<Proof>, r: Option<Proof>, v: bool, b: nat)
    returns (ok: set<nat>)
    requires p == Some(AndProof(l, r)) || p == Some(OrProof(l, r))
    requires Linear(p) && b !in Marks(p, v)
    ensures ok <= Leaves(p) && b !in ok && Allows(p, v, ok)
    decreases p, 0
  {
    // The value that decides the connective, and whether the result is decided by it
    var or := p.value.OrProof?;
    NotBoth(l, b);
    NotBoth(r, b);
    MarksAreMentioned(l, or);
    MarksAreMentioned(r, or);
    var a, c := v, v;
    if v == or {
      if b in Leaves(l) {
        a := b !in Marks(l, true);
      } else {
        c := b !in Marks(r, true);
      }
    }
    var okL := Refute(l, a, b);
    var okR := Refute(r, c, b);
    ok := okL + okR;
    BothAllowed(p, l, r, a, c, okL, okR);
  }

  lemma {:induction false} BothAllowed(p: Option<Proof>, l: Option<Proof>, r: Option<Proof>, a: bool, c: bool,
      okL: set<nat>, okR: set<nat>)
    requires p == Some(AndProof(l, r)) || p == Some(OrProof(l, r))
    requires Leaves(l) !! Leaves(r) && okL <= Leaves(l) && okR <= Leaves(r)
    requires Allows(l, a, okL) && Allows(r, c, okR)
    ensures Allows(p, if p.value.OrProof? then a || c else a && c, okL + okR)
  {
    forall env | Agrees(p, env, okL + okR)
      ensures Consistent(p, if p.value.OrProof? then a || c else a && c, env)
    {
      assert forall b :: b in Leaves(l) || b in Leaves(r) ==> b in Leaves(p);
      assert Agrees(l, env, okL) && Agrees(r, env, okR);
    }
  }

  function Highest(p: Option<Proof>): (n: nat)
    ensures forall b :: b in Leaves(p) ==> b < n
    decreases p
  {
    if p.None? then 0
    else
      match p.value
      case Leaf(b, _) => b + 1
      case NotProof(q) => Highest(q)
      case AndProof(l, r) => Highest(l) + Highest(r)
      case OrProof(l, r) => Highest(l) + Highest(r)
  }

  /** n results, of which these are ok. */
  function Results(n: nat, ok: set<nat>): (env: Env)
    ensures |env| == n && forall b: nat :: OkAt(env, b) <==> b < n && b in ok
  {
    seq(n, i requires 0 <= i < n => Binding(User("r"), VResult(n - 1 - i in ok, VUnit)))
  }

  /** A proof marks a result for a branch if and only if the result is ok whenever the formula has
      the branch's truth. */
  lemma {:induction false} MarksExactly(p: Option<Proof>, v: bool, b: nat)
    requires Linear(p)
    ensures b in Marks(p, v) <==> forall env :: Consistent(p, v, env) ==> OkAt(env, b)
  {
    if b in Marks(p, v) {
      forall env | Consistent(p, v, env)
        ensures OkAt(env, b)
      {
        MarksAreOk(p, v, env);
      }
    } else {
      var ok := Refute(p, v, b);
      var env := Results(Highest(p), ok);
      assert Agrees(p, env, ok);
      assert Consistent(p, v, env) && !OkAt(env, b);
    }
  }

  // No proof is missing

  /** The expression says something about results. */
  predicate Informs(infos: seq<Info>, e: SExpr) {
    match e
    case SUnary(op, a) => op == Not && Informs(infos, a)
    case SBinary(op, _, l, r) =>
      if op.Equal? || op.NotEqual? then (r.SBool? && Informs(infos, l)) || (l.SBool? && Informs(infos, r))
      else (op.And? || op.Or?) && (Informs(infos, l) || Informs(infos, r))
    case SName(x) => Find(infos, x).Some? && InfoOf(infos, Find(infos, x).value).proof.Some?
    case SField(base, f) =>
      f == OkField && base.SName? && Find(infos, base.id).Some? && InfoOf(infos, Find(infos, base.id).value).ty.TResult?
    case _ => false
  }

  /** The nesting of operators. */
  function Height(e: SExpr): nat {
    match e
    case SUnary(_, a) => 1 + Height(a)
    case SBinary(_, _, l, r) => 1 + if Height(l) < Height(r) then Height(r) else Height(l)
    case _ => 1
  }

  /** Up to 32 levels deep, a proof is built for every expression that says something. */
  lemma {:induction false} BuildsExactly(infos: seq<Info>, e: SExpr, depth: nat)
    requires depth + Height(e) <= 32
    ensures BuildProof(infos, e, depth).Some? <==> Informs(infos, e)
    decreases e
  {
    match e
    case SUnary(_, a) => BuildsExactly(infos, a, depth + 1);
    case SBinary(_, _, l, r) =>
      BuildsExactly(infos, l, depth + 1);
      BuildsExactly(infos, r, depth + 1);
    case _ =>
  }

  // A condition on results, by the values of the results

  /** `.ok` of results in scope under `!`, `&&`, `||` and comparison with a literal. */
  predicate Condition(infos: seq<Info>, e: SExpr) {
    match e
    case SUnary(op, a) => op == Not && Condition(infos, a)
    case SBinary(op, t, l, r) =>
      if op.Equal? || op.NotEqual? then
        t == TBool && ((r.SBool? && Condition(infos, l)) || (l.SBool? && Condition(infos, r)))
      else (op.And? || op.Or?) && Condition(infos, l) && Condition(infos, r)
    case SField(_, _) => Informs(infos, e)
    case _ => false
  }

  /** The results it reads. */
  function Read(infos: seq<Info>, e: SExpr): set<nat> {
    match e
    case SUnary(_, a) => Read(infos, a)
    case SBinary(_, _, l, r) => Read(infos, l) + Read(infos, r)
    case SField(base, _) => if base.SName? && Find(infos, base.id).Some? then {Find(infos, base.id).value} else {}
    case _ => {}
  }

  /** No result is read twice. */
  predicate ReadOnce(infos: seq<Info>, e: SExpr) {
    match e
    case SUnary(_, a) => ReadOnce(infos, a)
    case SBinary(_, _, l, r) => ReadOnce(infos, l) && ReadOnce(infos, r) && Read(infos, l) !! Read(infos, r)
    case _ => true
  }

  /** Its value where these results are ok. */
  function Truth(infos: seq<Info>, e: SExpr, ok: set<nat>): bool {
    match e
    case SBool(b) => b
    case SUnary(_, a) => !Truth(infos, a, ok)
    case SBinary(op, _, l, r) =>
      var a, b := Truth(infos, l, ok), Truth(infos, r, ok);
      if op.And? then a && b else if op.Or? then a || b else if op.Equal? then a == b else a != b
    case SField(base, _) => base.SName? && Find(infos, base.id).Some? && Find(infos, base.id).value in ok
    case _ => false
  }

  function OkSet(env: Env): set<nat> { set b | 0 <= b < |env| && OkAt(env, b) }

  /** That is what it evaluates to. */
  lemma {:induction false} TruthIsValue(c: Context, infos: seq<Info>, env: Env, zones: seq<Value>, tr: Trace, e: SExpr)
    requires Named(infos, env) && (Condition(infos, e) || e.SBool?)
    requires forall b: nat :: b < |infos| && InfoOf(infos, b).ty.TResult? ==> env[|env| - 1 - b].value.VResult?
    ensures EvalS(c.o, c.cs, |c.cs|, env, zones, tr, e) == Val(VBool(Truth(infos, e, OkSet(env))), tr)
    decreases e
  {
    match e
    case SUnary(_, a) => TruthIsValue(c, infos, env, zones, tr, a);
    case SBinary(op, _, l, r) =>
      TruthIsValue(c, infos, env, zones, tr, l);
      TruthIsValue(c, infos, env, zones, tr, r);
      assert EvalS(c.o, c.cs, |c.cs|, env, zones, tr, e) == EvalSBinary(c.o, c.cs, |c.cs|, env, zones, tr, e);
    case SField(base, _) =>
      FindLookup(infos, env, base.id);
      assert EvalS(c.o, c.cs, |c.cs|, env, zones, tr, base) == Val(Lookup(env, User(base.id)).value, tr);
    case SBool(_) =>
  }

  /** The proof of a condition is its formula. */
  ghost predicate Formula(infos: seq<Info>, e: SExpr, p: Option<Proof>) {
    && p.Some? && Leaves(p) == Read(infos, e)
    && (ReadOnce(infos, e) ==> Linear(p))
    && forall env, v :: Consistent(p, v, env) <==> v == Truth(infos, e, OkSet(env))
  }

  lemma FormulaNegated(infos: seq<Info>, e: SExpr, a: SExpr, p: Option<Proof>)
    requires Formula(infos, a, p) && Read(infos, e) == Read(infos, a) && (ReadOnce(infos, e) ==> ReadOnce(infos, a))
    requires forall ok :: Truth(infos, e, ok) == !Truth(infos, a, ok)
    ensures Formula(infos, e, Negated(p))
  {
  }

  lemma FormulaSame(infos: seq<Info>, e: SExpr, a: SExpr, p: Option<Proof>)
    requires Formula(infos, a, p) && Read(infos, e) == Read(infos, a) && (ReadOnce(infos, e) ==> ReadOnce(infos, a))
    requires forall ok :: Truth(infos, e, ok) == Truth(infos, a, ok)
    ensures Formula(infos, e, p)
  {
  }

  lemma {:induction false} BuildsFormula(infos: seq<Info>, e: SExpr, depth: nat)
    requires Condition(infos, e) && depth + Height(e) <= 32
    ensures Formula(infos, e, BuildProof(infos, e, depth))
    decreases e
  {
    hide Formula;
    match e
    case SUnary(_, a) =>
      BuildsFormula(infos, a, depth + 1);
      FormulaSomething(infos, a, BuildProof(infos, a, depth + 1));
      FormulaNegated(infos, e, a, BuildProof(infos, a, depth + 1));
    case SBinary(op, _, l, r) =>
      if op.And? || op.Or? {
        BuildsFormula(infos, l, depth + 1);
        BuildsFormula(infos, r, depth + 1);
        FormulaSomething(infos, l, BuildProof(infos, l, depth + 1));
        FormulaBoth(infos, e, BuildProof(infos, l, depth + 1), BuildProof(infos, r, depth + 1));
      } else {
        EqualityFormula(infos, e, depth);
      }
    case SField(base, _) => LeafFormula(infos, e, Find(infos, base.id).value);
  }

  lemma FormulaSomething(infos: seq<Info>, e: SExpr, p: Option<Proof>)
    requires Formula(infos, e, p)
    ensures p.Some?
  {
  }

  lemma {:induction false} LeafFormula(infos: seq<Info>, e: SExpr, b: nat)
    requires e.SField? && e.base.SName? && Find(infos, e.base.id) == Some(b)
    ensures Formula(infos, e, Some(Leaf(b, true)))
  {
    forall env, v
      ensures Consistent(Some(Leaf(b, true)), v, env) <==> v == Truth(infos, e, OkSet(env))
    {
      assert OkAt(env, b) <==> b in OkSet(env);
    }
  }

  lemma {:induction false} FormulaBoth(infos: seq<Info>, e: SExpr, p: Option<Proof>, q: Option<Proof>)
    requires e.SBinary? && (e.bop.And? || e.bop.Or?) && Formula(infos, e.left, p) && Formula(infos, e.right, q)
    ensures Formula(infos, e, Some(if e.bop.And? then AndProof(p, q) else OrProof(p, q)))
  {
    var f := Some(if e.bop.And? then AndProof(p, q) else OrProof(p, q));
    forall env, v
      ensures Consistent(f, v, env) <==> v == Truth(infos, e, OkSet(env))
    {
      var a, b := Truth(infos, e.left, OkSet(env)), Truth(infos, e.right, OkSet(env));
      assert Consistent(p, a, env) && Consistent(q, b, env);
    }
  }

  lemma {:induction false} EqualityFormula(infos: seq<Info>, e: SExpr, depth: nat)
    requires Condition(infos, e) && depth + Height(e) <= 32 && e.SBinary? && (e.bop.Equal? || e.bop.NotEqual?)
    ensures Formula(infos, e, BuildProof(infos, e, depth))
    decreases e, 0
  {
    hide Formula;
    var literal, a := if e.right.SBool? then e.right else e.left, if e.right.SBool? then e.left else e.right;
    BuildsFormula(infos, a, depth + 1);
    var p := BuildProof(infos, a, depth + 1);
    FormulaSomething(infos, a, p);
    var not := SUnary(Not, a);
    FormulaNegated(infos, not, a, p);
    FormulaNegated(infos, a, not, Negated(p));
    assert Read(infos, literal) == {};
    assert BuildProof(infos, e, depth) == NegatedIf(e.bop.NotEqual?, NegatedIf(!literal.b, p));
    if literal.b == e.bop.Equal? {
      FormulaSame(infos, e, a, if literal.b then p else Negated(Negated(p)));
    } else {
      FormulaSame(infos, e, not, Negated(p));
    }
  }

  /** A branch proves a result ok if and only if it is ok in every case in which the condition has
      the branch's truth. */
  lemma {:induction false} GuardsExactly(infos: seq<Info>, e: SExpr, truth: bool, b: nat)
    requires Condition(infos, e) && ReadOnce(infos, e) && Height(e) <= 32
    ensures b in Marks(BuildProof(infos, e, 0), truth) <==>
      forall ok: set<nat> :: Truth(infos, e, ok) == truth ==> b in ok
  {
    hide BuildProof;
    BuildsFormula(infos, e, 0);
    var p := BuildProof(infos, e, 0);
    MarksExactly(p, truth, b);
    if b in Marks(p, truth) {
      forall ok: set<nat> | Truth(infos, e, ok) == truth
        ensures b in ok
      {
        var env := Results(Highest(p) + b + 1, ok);
        TruthReads(infos, e, ok, OkSet(env));
        assert Consistent(p, truth, env);
      }
    } else {
      var env :| Consistent(p, truth, env) && !OkAt(env, b);
      assert Truth(infos, e, OkSet(env)) == truth && b !in OkSet(env);
    }
  }

  lemma {:induction false} TruthReads(infos: seq<Info>, e: SExpr, ok: set<nat>, ok': set<nat>)
    requires forall b :: b in Read(infos, e) ==> (b in ok <==> b in ok')
    ensures Truth(infos, e, ok) == Truth(infos, e, ok')
    decreases e
  {
    match e
    case SUnary(_, a) => TruthReads(infos, a, ok, ok');
    case SBinary(_, _, l, r) =>
      assert forall b :: b in Read(infos, l) || b in Read(infos, r) ==> b in Read(infos, e);
      TruthReads(infos, l, ok, ok');
      TruthReads(infos, r, ok, ok');
    case _ =>
  }

  /** An alias bound to a condition proves what the condition does. */
  lemma {:induction false} AliasMarksAlike(flow: Flow, x: string, e: SExpr, truth: bool)
    ensures
      var flow' := Define(flow, x, false, TBool, Some(e));
      var inner := [Info(x, false, TBool, None)] + flow.infos;
      Marks(BuildProof(flow'.infos, SName(x), 0), truth) == Marks(BuildProof(inner, e, 0), truth)
  {
    var flow' := Define(flow, x, false, TBool, Some(e));
    assert Find(flow'.infos, x) == Some(|flow.infos|);
  }

  // Every dominated read is accepted

  /** A read of `.value` and the results the arms around it prove. */
  datatype Reading = Reading(base: SExpr, marks: set<nat>)

  function Readings(infos: seq<Info>, marks: set<nat>, e: SExpr): seq<Reading>
    decreases e, 1
  {
    match e
    case SUnary(_, a) => Readings(infos, marks, a)
    case SBinary(_, _, l, r) => Readings(infos, marks, l) + Readings(infos, marks, r)
    case SIfExpr(c, t, f) =>
      var p := BuildProof(infos, c, 0);
      Readings(infos, marks, c) + Readings(infos, marks + Marks(p, true), t) +
        Readings(infos, marks + Marks(p, false), f)
    case SCall(_, _, args) => ReadingsOf(infos, marks, args)
    case SField(base, f) => Readings(infos, marks, base) + if f == ValueField then [Reading(base, marks)] else []
    case SOk(a) => Readings(infos, marks, a)
    case _ => []
  }

  function ReadingsOf(infos: seq<Info>, marks: set<nat>, args: seq<SExpr>): seq<Reading>
    decreases args, 0
  {
    if args == [] then [] else Readings(infos, marks, args[0]) + ReadingsOf(infos, marks, args[1..])
  }

  /** The read is of a name that the flow or an arm around it proves ok. */
  predicate Dominated(flow: Flow, r: Reading) {
    && r.base.SName?
    && var b := Find(flow.infos, r.base.id); b.Some? && (b.value in r.marks || ProvenOk(flow, b.value))
  }

  predicate AllDominated(flow: Flow, rs: seq<Reading>) { forall i :: 0 <= i < |rs| ==> Dominated(flow, rs[i]) }

  lemma DominatedTogether(flow: Flow, a: seq<Reading>, b: seq<Reading>)
    ensures AllDominated(flow, a + b) <==> AllDominated(flow, a) && AllDominated(flow, b)
  {
    if AllDominated(flow, a + b) {
      assert forall i :: 0 <= i < |a| ==> a[i] == (a + b)[i];
      assert forall i :: 0 <= i < |b| ==> b[i] == (a + b)[|a| + i];
    }
  }

  /** The scopes of the arms entered so far hold what they prove. */
  ghost predicate Entered(flow: Flow, marks: set<nat>, inner: Flow) {
    && inner.infos == flow.infos
    && forall b :: ProvenOk(inner, b) <==> b in marks || ProvenOk(flow, b)
  }

  lemma {:induction false} EnterMore(flow: Flow, marks: set<nat>, inner: Flow, bs: set<nat>)
    requires Entered(flow, marks, inner)
    ensures Entered(flow, marks + bs, Enter(inner, bs))
  {
    var next := Enter(inner, bs);
    forall b
      ensures ProvenOk(next, b) <==> b in bs || ProvenOk(inner, b)
    {
      if b in bs {
        assert b in next.guards[0];
      }
      if ProvenOk(inner, b) {
        var i :| 0 <= i < |inner.guards| && b in inner.guards[i];
        assert b in next.guards[i + 1];
      }
    }
  }

  /** An expression is accepted if and only if every read of `.value` in it is dominated. */
  lemma {:induction false} AcceptsExactly(flow: Flow, e: SExpr)
    ensures AcceptsExpr(flow, e) <==> AllDominated(flow, Readings(flow.infos, {}, e))
  {
    hide AcceptsExpr, Readings, AllDominated;
    assert Entered(flow, {}, flow);
    AcceptsDominated(flow, {}, flow, e);
  }

  lemma {:induction false} AcceptsDominated(flow: Flow, marks: set<nat>, inner: Flow, e: SExpr)
    requires Entered(flow, marks, inner)
    ensures AcceptsExpr(inner, e) <==> AllDominated(flow, Readings(flow.infos, marks, e))
    decreases e, 1
  {
    hide AllDominated, Entered, BuildProof, Marks;
    NothingDominated(flow);
    match e
    case SUnary(_, a) => AcceptsDominated(flow, marks, inner, a);
    case SBinary(_, _, l, r) =>
      AcceptsDominated(flow, marks, inner, l);
      AcceptsDominated(flow, marks, inner, r);
      DominatedTogether(flow, Readings(flow.infos, marks, l), Readings(flow.infos, marks, r));
    case SIfExpr(c, t, f) =>
      EnteredSame(flow, marks, inner);
      var yes, no := Marks(BuildProof(flow.infos, c, 0), true), Marks(BuildProof(flow.infos, c, 0), false);
      EnterMore(flow, marks, inner, yes);
      EnterMore(flow, marks, inner, no);
      AcceptsDominated(flow, marks, inner, c);
      AcceptsDominated(flow, marks + yes, Enter(inner, yes), t);
      AcceptsDominated(flow, marks + no, Enter(inner, no), f);
      var a, b := Readings(flow.infos, marks, c), Readings(flow.infos, marks + yes, t);
      DominatedTogether(flow, a + b, Readings(flow.infos, marks + no, f));
      DominatedTogether(flow, a, b);
    case SCall(_, _, args) => ArgsDominated(flow, marks, inner, args);
    case SField(base, f) =>
      AcceptsDominated(flow, marks, inner, base);
      ReadDominated(flow, marks, inner, base);
      DominatedTogether(flow, Readings(flow.infos, marks, base),
        if f == ValueField then [Reading(base, marks)] else []);
    case SOk(a) => AcceptsDominated(flow, marks, inner, a);
    case _ =>
  }

  lemma NothingDominated(flow: Flow)
    ensures AllDominated(flow, [])
  {
  }

  lemma EnteredSame(flow: Flow, marks: set<nat>, inner: Flow)
    requires Entered(flow, marks, inner)
    ensures inner.infos == flow.infos
  {
  }

  lemma ReadDominated(flow: Flow, marks: set<nat>, inner: Flow, base: SExpr)
    requires Entered(flow, marks, inner)
    ensures AllDominated(flow, [Reading(base, marks)]) <==>
      base.SName? && var b := Find(inner.infos, base.id); b.Some? && ProvenOk(inner, b.value)
  {
    var rs := [Reading(base, marks)];
    assert AllDominated(flow, rs) <==> Dominated(flow, rs[0]);
  }

  lemma {:induction false} ArgsDominated(flow: Flow, marks: set<nat>, inner: Flow, args: seq<SExpr>)
    requires Entered(flow, marks, inner)
    ensures AcceptsArgs(inner, args) <==> AllDominated(flow, ReadingsOf(flow.infos, marks, args))
    decreases args, 0
  {
    hide AllDominated, Entered, Dominated;
    NothingDominated(flow);
    if args != [] {
      AcceptsDominated(flow, marks, inner, args[0]);
      ArgsDominated(flow, marks, inner, args[1..]);
      DominatedTogether(flow, Readings(flow.infos, marks, args[0]), ReadingsOf(flow.infos, marks, args[1..]));
    }
  }
}
