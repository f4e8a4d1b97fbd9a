/** The whole compiler on a function of the fragment: lowering, the optimizer, the backend. */
module Pipeline {
  import opened Ir
  import opened Values
  import opened IrSemantics
  import opened Source
  import opened Lowering
  import opened LoweringRelation
  import opened LoweringProof
  import opened LoweringTheorem
  import opened Optimizer
  import opened OptimizerProof
  import opened Machine
  import opened Backend
  import opened BackendTheorem
  import opened GuaranteedReturn
  import opened Zones

  /** A checked function; its parameters in order. */
  datatype SFunction = SFunction(params: seq<string>, ret: Type, body: seq<SStmt>)

  /** The first i parameters as a scope, innermost first. */
  function InScope(params: seq<string>, i: nat): seq<string>
    requires i <= |params|
    decreases i
  {
    if i == 0 then [] else [params[i - 1]] + InScope(params, i - 1)
  }

  function UserNames(params: seq<string>): seq<Name> {
    seq(|params|, i requires 0 <= i < |params| => User(params[i]))
  }

  function Names(f: SFunction): seq<string> { InScope(f.params, |f.params|) }

  /** n is the project's next index for generated names. */
  function Compile(cs: seq<Const>, h: Host, n: nat, f: SFunction): Option<seq<Instr>> {
    var low :- LowerBlock(Unit(cs, f.ret), Scope(Names(f), []), [], n, f.body);
    EmitFunction(UserNames(f.params), f.ret, OptStmts(h, low.stmts))
  }

  /** The run of the source function on these arguments. */
  function SourceRun(o: Oracle, cs: seq<Const>, f: SFunction, args: seq<Value>, fuel: nat): Outcome
    requires |args| == |f.params|
  {
    RunBody(Context(o, cs, f.ret), fuel, ParamEnv(UserNames(f.params), args, |f.params|), [], f.body)
  }

  lemma {:induction false} ParamsNamed(params: seq<string>, args: seq<Value>, i: nat)
    requires i <= |params| == |args|
    ensures NamesAre(ParamEnv(UserNames(params), args, i), InScope(params, i))
    decreases i
  {
    if i != 0 {
      ParamsNamed(params, args, i - 1);
    }
  }

  /** The optimized body ends as the source does, wherever the source is defined. */
  lemma {:induction false} MiddlePreserves(o: Oracle, cs: seq<Const>, h: Host, n: nat, f: SFunction, args: seq<Value>,
      fuel: nat)
    requires |args| == |f.params| && DefersSafe(Names(f), [{}], f.body)
    requires LowerBlock(Unit(cs, f.ret), Scope(Names(f), []), [], n, f.body).Some?
    ensures
      var low := LowerBlock(Unit(cs, f.ret), Scope(Names(f), []), [], n, f.body).value.stmts;
      var out := SourceRun(o, cs, f, args, fuel);
      var ir := ExecStmts(o, fuel, ParamEnv(UserNames(f.params), args, |f.params|), [], OptStmts(h, low));
      !out.Undefined? ==> if out.Next? then ir.Next? && ir.trace == out.trace else ir == out
  {
    hide ExecStmts, OptStmts, DefersSafe, LowerBlock, RunBody;
    var env := ParamEnv(UserNames(f.params), args, |f.params|);
    ParamsNamed(f.params, args, |f.params|);
    LoweringPreserves(Context(o, cs, f.ret), fuel, env, Names(f), n, [], f.body);
    StmtsOptimized(h, o, fuel, env, [], LowerBlock(Unit(cs, f.ret), Scope(Names(f), []), [], n, f.body).value.stmts);
  }

  /** Source to machine, for every fuel: same value, same events, same kind of end. */
  lemma {:induction false} CompiledRuns(p: Program, cs: seq<Const>, h: Host, n: nat, f: SFunction, fuel: nat)
    returns (k: nat)
    requires Compile(cs, h, n, f) == Some(p.code) && |p.args| == |f.params| && DefersSafe(Names(f), [{}], f.body)
    ensures Ends(SourceRun(p.o, cs, f, p.args, fuel), f.ret, fuel, k, Run(p, Start([]), k))
  {
    hide ExecStmts, OptStmts, DefersSafe, LowerBlock, RunBody, EmitFunction, Run;
    var low := LowerBlock(Unit(cs, f.ret), Scope(Names(f), []), [], n, f.body).value.stmts;
    MiddlePreserves(p.o, cs, h, n, f, p.args, fuel);
    k := FunctionRuns(p, UserNames(f.params), f.ret, OptStmts(h, low), fuel, []);
  }

  /** Machine to source: an ended run of the compiled code is the source's run, given more fuel
      than it took steps. */
  lemma {:induction false} CompiledEnds(p: Program, cs: seq<Const>, h: Host, n: nat, f: SFunction, k: nat)
    requires Compile(cs, h, n, f) == Some(p.code) && |p.args| == |f.params| && DefersSafe(Names(f), [{}], f.body)
    requires !Run(p, Start([]), k).Running?
    ensures
      var out := SourceRun(p.o, cs, f, p.args, k + 1);
      !out.OutOfFuel? && Ends(out, f.ret, k + 1, k, Run(p, Start([]), k))
  {
    hide ExecStmts, OptStmts, DefersSafe, LowerBlock, RunBody, EmitFunction, Run;
    var low := LowerBlock(Unit(cs, f.ret), Scope(Names(f), []), [], n, f.body).value.stmts;
    MiddlePreserves(p.o, cs, h, n, f, p.args, k + 1);
    MachineEnds(p, UserNames(f.params), f.ret, OptStmts(h, low), k, k + 1, []);
  }

  /** What the checker demands of a non-void function. */
  predicate Returns(f: SFunction) { f.ret.TVoid? || BlockReturns(f.body) }

  /** Compiled code of a function the guaranteed-return analysis accepts never gets stuck: it
      reaches neither `unreachable` nor any other crash in any number of steps, unless the
      source program itself is undefined. */
  lemma {:induction false} NeverCrashes(p: Program, cs: seq<Const>, h: Host, n: nat, f: SFunction, k: nat)
    requires Compile(cs, h, n, f) == Some(p.code) && |p.args| == |f.params| && DefersSafe(Names(f), [{}], f.body)
    requires Returns(f) && !SourceRun(p.o, cs, f, p.args, k + 1).Undefined?
    ensures !Run(p, Start([]), k).Crashed?
  {
    hide Compile, DefersSafe, ExecRest, BlockReturns, Run;
    if Run(p, Start([]), k).Crashed? {
      CompiledEnds(p, cs, h, n, f, k);
      if !f.ret.TVoid? {
        NeverFallsThrough(Context(p.o, cs, f.ret), k + 1, ParamEnv(UserNames(f.params), p.args, |f.params|), [], [[]],
          [], f.body);
      }
    }
  }

  /** The events of a finished run of compiled code open and close zones in proper nesting,
      and close every one of them. */
  lemma {:induction false} CompiledZonesNest(p: Program, cs: seq<Const>, h: Host, n: nat, f: SFunction, k: nat)
    requires Compile(cs, h, n, f) == Some(p.code) && |p.args| == |f.params| && DefersSafe(Names(f), [{}], f.body)
    requires PlainConsts(cs) && PlainStmts(f.body, false)
    requires Run(p, Start([]), k).Done? && !SourceRun(p.o, cs, f, p.args, k + 1).Undefined?
    ensures OpenAfter(Run(p, Start([]), k).trace) == Some([])
  {
    hide Compile, DefersSafe, RunBody, PlainConsts, PlainStmts, OpenAfter, Run;
    CompiledEnds(p, cs, h, n, f, k);
    BodyNests(Context(p.o, cs, f.ret), k + 1, ParamEnv(UserNames(f.params), p.args, |f.params|), f.body);
  }
}
