/** The checker's flow facts for `result` values (src/sema/typecheck.c): which results are
    proven ok where a `.value` is read. */
module ResultFlow {
  import opened Ir
  import opened Source
  import opened GuaranteedReturn

  /** What a boolean says about results. A missing operand of And or Or says nothing.
      Bindings are numbered from the outermost. */
  datatype Proof =
    | Leaf(binding: nat, positive: bool)
    | NotProof(inner: Option<Proof>)
    | AndProof(left: Option<Proof>, right: Option<Proof>)
    | OrProof(left: Option<Proof>, right: Option<Proof>)

  datatype Info = Info(name: string, mut: bool, ty: Type, proof: Option<Proof>)

  /** The visible bindings, innermost first, and the results proven ok, scope by scope. */
  datatype Flow = Flow(infos: seq<Info>, guards: seq<set<nat>>)

  const MAX_PROOF_DEPTH: nat := 32

  /** The number of the binding a name means. */
  function Find(infos: seq<Info>, x: string): (r: Option<nat>)
    ensures r.Some? ==> r.value < |infos| && infos[|infos| - 1 - r.value].name == x
  {
    if infos == [] then None
    else if infos[0].name == x then Some(|infos| - 1)
    else Find(infos[1..], x)
  }

  function InfoOf(infos: seq<Info>, b: nat): Info
    requires b < |infos|
  {
    infos[|infos| - 1 - b]
  }

  function Negated(p: Option<Proof>): Option<Proof> {
    if p.None? then None else Some(NotProof(p))
  }

  function NegatedIf(c: bool, p: Option<Proof>): Option<Proof> {
    if c then Negated(p) else p
  }

  /** What the truth of an expression says about results. */
  function BuildProof(infos: seq<Info>, e: SExpr, depth: nat): Option<Proof>
    decreases e
  {
    if MAX_PROOF_DEPTH <= depth then None
    else
      match e
      case SUnary(op, a) => if op == Not then Negated(BuildProof(infos, a, depth + 1)) else None
      case SBinary(op, _, l, r) =>
        if op.Equal? || op.NotEqual? then
          var p := if r.SBool? then BuildProof(infos, l, depth + 1) else None;
          if p.Some? then NegatedIf(op.NotEqual?, NegatedIf(!r.b, p))
          else if l.SBool? then NegatedIf(op.NotEqual?, NegatedIf(!l.b, BuildProof(infos, r, depth + 1)))
          else None
        else if op.And? || op.Or? then
          var p, q := BuildProof(infos, l, depth + 1), BuildProof(infos, r, depth + 1);
          if p.None? && q.None? then None
          else Some(if op.And? then AndProof(p, q) else OrProof(p, q))
        else None
      case SName(x) =>
        var b := Find(infos, x);
        if b.None? then None else InfoOf(infos, b.value).proof
      case SField(base, f) =>
        if f != OkField || !base.SName? then None
        else
          var b := Find(infos, base.id);
          if b.None? || !InfoOf(infos, b.value).ty.TResult? then None else Some(Leaf(b.value, true))
      case _ => None
  }

  /** The results a proof makes ok where its boolean has this truth. */
  function Marks(p: Option<Proof>, truth: bool): set<nat>
    decreases p
  {
    if p.None? then {}
    else
      match p.value
      case Leaf(b, positive) => if truth == positive then {b} else {}
      case NotProof(q) => Marks(q, !truth)
      case AndProof(l, r) => if truth then Marks(l, true) + Marks(r, true) else {}
      case OrProof(l, r) => if truth then {} else Marks(l, false) + Marks(r, false)
  }

  predicate DependsOn(p: Option<Proof>, b: nat)
    decreases p
  {
    p.Some? &&
    match p.value
    case Leaf(b', _) => b' == b
    case NotProof(q) => DependsOn(q, b)
    case AndProof(l, r) => DependsOn(l, b) || DependsOn(r, b)
    case OrProof(l, r) => DependsOn(l, b) || DependsOn(r, b)
  }

  function Dropped(i: Info, b: nat): Info {
    if DependsOn(i.proof, b) then i.(proof := None) else i
  }

  /** Reassigning a result forgets everything known about it. */
  function Invalidate(flow: Flow, b: nat): Flow {
    Flow(seq(|flow.infos|, i requires 0 <= i < |flow.infos| => Dropped(flow.infos[i], b)),
         seq(|flow.guards|, i requires 0 <= i < |flow.guards| => flow.guards[i] - {b}))
  }

  function Mark(flow: Flow, bs: set<nat>): Flow
    requires flow.guards != []
  {
    flow.(guards := [flow.guards[0] + bs] + flow.guards[1..])
  }

  /** A new scope that starts with these results proven. */
  function Enter(flow: Flow, bs: set<nat>): Flow { flow.(guards := [bs] + flow.guards) }

  /** Back in the scope that had n bindings. */
  function Exit(flow: Flow, n: nat): Flow
    requires flow.guards != []
  {
    Flow(if n <= |flow.infos| then flow.infos[|flow.infos| - n..] else flow.infos, flow.guards[1..])
  }

  predicate ProvenOk(flow: Flow, b: nat) {
    exists i :: 0 <= i < |flow.guards| && b in flow.guards[i]
  }

  /** Every `.value` is read from a name proven ok there. The operands of `&&` and `||` are
      checked without narrowing; the arms of an if-expression with it. */
  predicate AcceptsExpr(flow: Flow, e: SExpr)
    decreases e, 1
  {
    match e
    case SUnary(_, a) => AcceptsExpr(flow, a)
    case SBinary(_, _, l, r) => AcceptsExpr(flow, l) && AcceptsExpr(flow, r)
    case SIfExpr(c, t, f) =>
      var p := BuildProof(flow.infos, c, 0);
      && AcceptsExpr(flow, c)
      && AcceptsExpr(Enter(flow, Marks(p, true)), t) && AcceptsExpr(Enter(flow, Marks(p, false)), f)
    case SCall(_, _, args) => AcceptsArgs(flow, args)
    case SField(base, f) =>
      && AcceptsExpr(flow, base)
      && (f == ValueField ==>
           && base.SName?
           && var b := Find(flow.infos, base.id); b.Some? && ProvenOk(flow, b.value))
    case SOk(a) => AcceptsExpr(flow, a)
    case _ => true
  }

  predicate AcceptsArgs(flow: Flow, args: seq<SExpr>)
    decreases args, 0
  {
    args == [] || (AcceptsExpr(flow, args[0]) && AcceptsArgs(flow, args[1..]))
  }

  /** The flow after a piece, whether its reads and assignments were accepted, and whether its
      facts are stable: no result that an `if` proves for the code after it is spoiled in the
      branch that gets there, a loop would be accepted a second time from where the first pass
      ends, and a deferred statement would be accepted again at every exit that runs it. */
  datatype Checked = Checked(flow: Flow, accepted: bool, stable: bool)

  /** A pending deferred statement and how many bindings were visible where it was written. */
  datatype Due = Due(d: Deferred, depth: nat)

  /** What is known of the first n bindings. */
  function Trim(flow: Flow, n: nat): Flow {
    Flow(Innermost(flow.infos, n),
         seq(|flow.guards|, i requires 0 <= i < |flow.guards| => set b | b in flow.guards[i] && b < n))
  }

  predicate AcceptsDue(flow: Flow, due: set<Due>) {
    forall x :: x in due ==> AcceptsExpr(Trim(flow, x.depth), x.d.e)
  }

  predicate AcceptsAllDue(flow: Flow, pending: seq<set<Due>>) {
    forall i :: 0 <= i < |pending| ==> AcceptsDue(flow, pending[i])
  }

  /** What a piece that falls through does to results: those it may have assigned, those that
      may have got something but `ok`, and those whose last assignment is surely `ok` or surely
      `err`. */
  datatype Change = Change(touched: set<nat>, spoiled: set<nat>, made: set<nat>, ruined: set<nat>)

  const NO_CHANGE: Change := Change({}, {}, {}, {})

  function Then(c: Change, d: Change): Change {
    Change(c.touched + d.touched,
           (c.spoiled - d.made) + d.spoiled,
           (c.made - d.spoiled) + d.made,
           (c.ruined - d.touched) + d.ruined)
  }

  function Either(c: Change, d: Change): Change {
    Change(c.touched + d.touched, c.spoiled + d.spoiled, c.made * d.made, c.ruined * d.ruined)
  }

  function Assignment(b: nat, e: SExpr): Change {
    if e.SOk? then Change({b}, {}, {b}, {})
    else Change({b}, {b}, {}, if e.SErr? then {b} else {})
  }

  function Assigned(names: seq<string>, ss: seq<SStmt>): Change
    decreases ss, 0
  {
    if ss == [] then NO_CHANGE else Then(AssignedBy(names, ss[0]), Assigned(Bound(ss[0]) + names, ss[1..]))
  }

  function Bound(s: SStmt): seq<string> {
    if s.SLet? || s.STry? then [s.id] else []
  }

  /** A branch that returns does not fall through. */
  function AssignedBy(names: seq<string>, s: SStmt): Change
    decreases s, 1
  {
    match s
    case SAssign(x, e) =>
      var b := Number(names, x);
      if b.None? then NO_CHANGE else Assignment(b.value, e)
    case SZone(body) => Assigned(names, body)
    case SIfThen(_, t) => if BlockReturns(t) then NO_CHANGE else Either(Assigned(names, t), NO_CHANGE)
    case SIfElse(_, t, f) =>
      if BlockReturns(t) then Assigned(names, f)
      else if BlockReturns(f) then Assigned(names, t)
      else Either(Assigned(names, t), Assigned(names, f))
    case SWhile(_, body) => Either(Assigned(names, body), NO_CHANGE)
    case SLoop(body) => Either(Assigned(names, body), NO_CHANGE)
    case SFor(x, _, _, body) => Either(Assigned([x] + names, body), NO_CHANGE)
    case _ => NO_CHANGE
  }

  function Number(names: seq<string>, x: string): Option<nat> {
    if names == [] then None
    else if names[0] == x then Some(|names| - 1)
    else Number(names[1..], x)
  }

  function NamesIn(infos: seq<Info>): (r: seq<string>)
    ensures |r| == |infos|
  {
    if infos == [] then [] else [infos[0].name] + NamesIn(infos[1..])
  }

  /** The statements of a scope, whose own deferred statements are pending[0]. */
  function CheckStmts(flow: Flow, pending: seq<set<Due>>, ss: seq<SStmt>): (r: Checked)
    requires flow.guards != [] && pending != []
    ensures |r.flow.guards| == |flow.guards| && |flow.infos| <= |r.flow.infos|
    decreases ss, 0
  {
    if ss == [] then Checked(flow, true, AcceptsDue(flow, pending[0]))
    else if ss[0].SDefer? then
      var d := ss[0].deferred;
      var rest := CheckStmts(flow, [pending[0] + {Due(d, |flow.infos|)}] + pending[1..], ss[1..]);
      rest.(accepted := AcceptsExpr(flow, d.e) && rest.accepted)
    else
      var s := CheckStmt(flow, pending, ss[0]);
      var rest := CheckStmts(s.flow, pending, ss[1..]);
      Checked(rest.flow, s.accepted && rest.accepted, s.stable && rest.stable)
  }

  function CheckBlock(flow: Flow, pending: seq<set<Due>>, marks: set<nat>, ss: seq<SStmt>): (r: Checked)
    ensures |r.flow.guards| == |flow.guards| && |flow.infos| == |r.flow.infos|
    decreases ss, 1
  {
    var r := CheckStmts(Enter(flow, marks), [{}] + pending, ss);
    Checked(Exit(r.flow, |flow.infos|), r.accepted, r.stable)
  }

  /** The proof of an immutable boolean is built with the new name already in scope. */
  function Define(flow: Flow, x: string, mut: bool, ty: Type, init: Option<SExpr>): Flow {
    var infos := [Info(x, mut, ty, None)] + flow.infos;
    if init.Some? && !mut && ty == TBool then
      flow.(infos := [Info(x, mut, ty, BuildProof(infos, init.value, 0))] + flow.infos)
    else flow.(infos := infos)
  }

  function CheckStmt(flow: Flow, pending: seq<set<Due>>, s: SStmt): (r: Checked)
    requires flow.guards != []
    ensures |r.flow.guards| == |flow.guards| && |r.flow.infos| == |flow.infos| + |Bound(s)|
    decreases s, 1
  {
    match s
    case SLet(x, mut, ty, e) => Checked(Define(flow, x, mut, ty, Some(e)), AcceptsExpr(flow, e), true)
    case STry(x, ty, e) =>
      Checked(Define(flow, x, false, ty, None), AcceptsExpr(flow, e), AcceptsAllDue(flow, pending))
    case SAssign(x, e) =>
      var b := Find(flow.infos, x);
      if b.None? then Checked(flow, false, true)
      else
        var i := InfoOf(flow.infos, b.value);
        var flow1 := if i.ty.TResult? then Invalidate(flow, b.value) else flow;
        Checked(if i.ty.TResult? && e.SOk? then Mark(flow1, {b.value}) else flow1, i.mut && AcceptsExpr(flow, e), true)
    case SReturn(e) => Checked(flow, e.None? || AcceptsExpr(flow, e.value), AcceptsAllDue(flow, pending))
    case SExprStmt(e) => Checked(flow, AcceptsExpr(flow, e), true)
    case SFree(e) => Checked(flow, AcceptsExpr(flow, e), true)
    case SZone(body) => CheckBlock(flow, [{}] + pending, {}, body)
    case SIfThen(c, t) =>
      var t' := CheckBlock(flow, pending, Marks(BuildProof(flow.infos, c, 0), true), t);
      var no := if BlockReturns(t) then Marks(BuildProof(t'.flow.infos, c, 0), false) else {};
      Checked(Mark(t'.flow, no), AcceptsExpr(flow, c) && t'.accepted, t'.stable)
    case SIfElse(_, _, _) => CheckIfElse(flow, pending, s)
    case SWhile(c, body) => CheckLoop(flow, pending, c, body)
    case SLoop(body) => CheckLoop(flow, pending, SBool(true), body)
    case SFor(x, a, b, body) =>
      var r := CheckLoop(Define(Enter(flow, {}), x, false, TInt, None), pending, SBool(true), body);
      Checked(Exit(r.flow, |flow.infos|), AcceptsExpr(flow, a) && AcceptsExpr(flow, b) && r.accepted, r.stable)
    case SDefer(_) => Checked(flow, false, false)
  }

  /** The body is checked once; the facts at the head of a later turn are those left by it. */
  function CheckLoop(flow: Flow, pending: seq<set<Due>>, c: SExpr, body: seq<SStmt>): (r: Checked)
    ensures |r.flow.guards| == |flow.guards| && |r.flow.infos| == |flow.infos|
    decreases body, 2
  {
    var first := CheckBlock(flow, pending, Marks(BuildProof(flow.infos, c, 0), true), body);
    var again := CheckBlock(first.flow, pending, Marks(BuildProof(first.flow.infos, c, 0), true), body);
    Checked(first.flow,
            AcceptsExpr(flow, c) && first.accepted,
            AcceptsExpr(first.flow, c) && again.accepted && again.stable)
  }

  function CheckIfElse(flow: Flow, pending: seq<set<Due>>, s: SStmt): (r: Checked)
    requires flow.guards != [] && s.SIfElse?
    ensures |r.flow.guards| == |flow.guards| && |r.flow.infos| == |flow.infos|
    decreases s, 0
  {
    var c, t, f := s.cond, s.thenBlock, s.elseBlock;
    var t' := CheckBlock(flow, pending, Marks(BuildProof(flow.infos, c, 0), true), t);
    var f' := CheckBlock(t'.flow, pending, Marks(BuildProof(t'.flow.infos, c, 0), false), f);
    var p := BuildProof(f'.flow.infos, c, 0);
    var yes := if BlockReturns(f) then Marks(p, true) else {};
    var no := if BlockReturns(t) then Marks(p, false) else {};
    var names := NamesIn(flow.infos);
    Checked(Mark(Mark(f'.flow, yes), no),
            AcceptsExpr(flow, c) && t'.accepted && f'.accepted,
            t'.stable && f'.stable && yes !! Assigned(names, t).spoiled && no !! Assigned(names, f).spoiled)
  }
}
