/** What the parts give together: a checked function compiles, and its code never goes wrong. */
module EndToEnd {
  import opened Ir
  import opened Values
  import opened IrSemantics
  import opened Source
  import opened Lowering
  import opened LoweringProof
  import opened LoweringTheorem
  import opened Optimizer
  import opened Machine
  import opened Backend
  import opened BackendTheorem
  import opened Pipeline
  import Compilable
  import Progress

  /** A typed function without arithmetic, within the backend's limits, that returns and captures
      no deferred statement: it compiles, and on typed arguments with typed callees its code
      reaches neither `unreachable` nor any other crash in any number of steps. */
  lemma {:induction false} CheckedRunsSafely(p: Program, g: Progress.Globals, vars: seq<Progress.Var>, h: Host, n: nat,
      f: SFunction, k: nat)
    requires Progress.ConstsTyped(g) && Compilable.AdmitsConsts(g.cs, true)
    requires Compilable.AdmitsStmts(Unit(g.cs, f.ret), Names(f), false, true, f.body)
    requires Progress.Typed(g, f.ret, vars, false, f.body) && Returns(f) && DefersSafe(Names(f), [{}], f.body)
    requires |p.args| == |f.params| && Progress.OracleFits(g, p.o)
    requires Progress.EnvFits(vars, ParamEnv(UserNames(f.params), p.args, |f.params|))
    ensures Compile(g.cs, h, n, f).Some?
    ensures p.code == Compile(g.cs, h, n, f).value ==> !Run(p, Start([]), k).Crashed?
  {
    hide Compile, DefersSafe, Run, RunBody, Returns, ParamEnv;
    Compilable.CheckedCompiles(g.cs, h, n, f);
    if p.code == Compile(g.cs, h, n, f).value {
      Progress.TypedIsDefined(Context(p.o, g.cs, f.ret), g, k + 1, vars,
        ParamEnv(UserNames(f.params), p.args, |f.params|), f.body);
      NeverCrashes(p, g.cs, h, n, f, k);
    }
  }
}
