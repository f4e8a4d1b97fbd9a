/** The checker's guaranteed-return analysis (src/sema/typecheck.c:2537-2572). */
module GuaranteedReturn {
  import opened Ir
  import opened Values
  import opened IrSemantics
  import opened Source

  predicate BlockReturns(ss: seq<SStmt>)
    decreases ss, 0
  {
    ss != [] && (StmtReturns(ss[0]) || BlockReturns(ss[1..]))
  }

  predicate StmtReturns(s: SStmt)
    decreases s, 0
  {
    match s
    case SReturn(_) => true
    case SIfElse(_, t, f) => BlockReturns(t) && BlockReturns(f)
    case SLoop(body) => BlockReturns(body)
    case _ => false
  }

  /** No run of an accepted block falls off its end, whatever the fuel and the pending defers. */
  lemma {:induction false} NeverFallsThrough(c: Context, fuel: nat, env: Env, zones: seq<Value>, frames: seq<Frame>,
      tr: Trace, ss: seq<SStmt>)
    requires frames != [] && BlockReturns(ss)
    ensures !ExecRest(c, fuel, env, zones, frames, tr, ss).Next?
    decreases fuel, ss, 1
  {
    var s := ss[0];
    if s.SDefer? {
      NeverFallsThrough(c, fuel, env, zones, [[Pending(s.deferred, |env|, |zones|)] + frames[0]] + frames[1..], tr,
        ss[1..]);
    } else if s.STry? {
      var r := EvalS(c.o, c.cs, |c.cs|, env, zones, tr, s.init);
      if r.Val? && r.value.VResult? && r.value.ok {
        NeverFallsThrough(c, fuel, [Binding(User(s.id), r.value.payload)] + env, zones, frames, r.trace, ss[1..]);
      }
    } else if !s.SReturn? {
      var out := ExecS(c, fuel, env, zones, frames, tr, s);
      if StmtReturns(s) {
        StmtNeverFallsThrough(c, fuel, env, zones, frames, tr, s);
      } else if out.Next? {
        NeverFallsThrough(c, fuel, out.env, zones, frames, out.trace, ss[1..]);
      }
    }
  }

  lemma {:induction false} StmtNeverFallsThrough(c: Context, fuel: nat, env: Env, zones: seq<Value>,
      frames: seq<Frame>, tr: Trace, s: SStmt)
    requires StmtReturns(s) && !s.SReturn?
    ensures !ExecS(c, fuel, env, zones, frames, tr, s).Next?
    decreases fuel, s, 0
  {
    if s.SLoop? {
      LoopNeverFallsThrough(c, fuel, env, zones, frames, tr, s.body);
    } else {
      var r := EvalS(c.o, c.cs, |c.cs|, env, zones, tr, s.cond);
      if r.Val? && r.value.VBool? {
        NeverFallsThrough(c, fuel, env, zones, [[]] + frames, r.trace, if r.value.b then s.thenBlock else s.elseBlock);
      }
    }
  }

  /** `loop` has no way out but `return` and a failing `try`. */
  lemma {:induction false} LoopNeverFallsThrough(c: Context, fuel: nat, env: Env, zones: seq<Value>,
      frames: seq<Frame>, tr: Trace, body: seq<SStmt>)
    ensures !ExecSWhile(c, fuel, env, zones, frames, tr, SBool(true), body).Next?
    decreases fuel
  {
    if fuel != 0 {
      var out := ExecInner(c, fuel, env, zones, frames, tr, body);
      if out.Next? {
        LoopNeverFallsThrough(c, fuel - 1, out.env, zones, frames, out.trace, body);
      }
    }
  }

  // Which blocks are accepted

  /** How the paths through a block end, each condition taken both ways and each loop body passed
      once: true for a `return`, false for the end of the block. A zone or a `while` or `for` may
      be passed whatever its body does. */
  function PathEnds(ss: seq<SStmt>): set<bool>
    decreases ss, 0
  {
    if ss == [] then {false}
    else
      var here := PathEndsOf(ss[0]);
      if false in here then (here - {false}) + PathEnds(ss[1..]) else here
  }

  function PathEndsOf(s: SStmt): set<bool>
    decreases s, 0
  {
    match s
    case SReturn(_) => {true}
    case SIfThen(_, t) => PathEnds(t) + {false}
    case SIfElse(_, t, f) => PathEnds(t) + PathEnds(f)
    case SLoop(body) => PathEnds(body)
    case SZone(body) => PathEnds(body) + {false}
    case SWhile(_, body) => PathEnds(body) + {false}
    case SFor(_, _, _, body) => PathEnds(body) + {false}
    case _ => {false}
  }

  /** A block is accepted if and only if no path through it reaches its end. */
  lemma {:induction false} ReturnsExactly(ss: seq<SStmt>)
    ensures BlockReturns(ss) <==> false !in PathEnds(ss)
    decreases ss, 1
  {
    if ss != [] {
      StmtReturnsExactly(ss[0]);
      ReturnsExactly(ss[1..]);
    }
  }

  lemma {:induction false} StmtReturnsExactly(s: SStmt)
    ensures StmtReturns(s) <==> false !in PathEndsOf(s)
    decreases s, 0
  {
    match s
    case SIfElse(_, t, f) =>
      ReturnsExactly(t);
      ReturnsExactly(f);
    case SLoop(body) => ReturnsExactly(body);
    case _ =>
  }
}
