/** A whole emitted function does what its IR body does, and ends only if the body ends. */
module BackendTheorem {
  import opened Ir
  import opened Values
  import opened IrSemantics
  import opened Machine
  import opened Backend
  import opened BackendShape
  import opened BackendLabels
  import opened BackendRelation
  import opened BackendExpr
  import opened BackendStmt

  /** The first i parameters bound to their arguments, the last one innermost. */
  function ParamEnv(names: seq<Name>, args: seq<Value>, i: nat): Env
    requires i <= |names| && i <= |args|
    decreases i
  {
    if i == 0 then [] else [Binding(names[i - 1], args[i - 1])] + ParamEnv(names, args, i - 1)
  }

  function Start(tr: Trace): State { Running(0, map[], [], tr) }

  lemma {:induction false} RunStoreArg(p: Program, pc: nat, regs: Regs, mem: Memory, tr: Trace, arg: nat, ptr: nat,
      cell: nat)
    requires CodeAt(p.code, pc, [StoreArg(arg, ptr)]) && arg < |p.args|
    requires PointsTo(regs, ptr, cell) && cell < |mem|
    ensures Run(p, Running(pc, regs, mem, tr), 1) == Running(pc + 1, regs, mem[cell := Some(p.args[arg])], tr)
  {
    hide Run, Compute;
    CodeIndex(p.code, pc, [StoreArg(arg, ptr)], 0);
    RunOne(p, Running(pc, regs, mem, tr));
  }

  /** The entry code puts every argument into a cell of its own. */
  lemma {:induction false} ParamsRun(p: Program, names: seq<Name>, i: nat, tr: Trace) returns (regs: Regs, mem: Memory)
    requires i <= |names| == |p.args| && CodeAt(p.code, 0, EmitParams(names, i).0)
    ensures |EmitParams(names, i).0| == 2 * i
    ensures Run(p, Start(tr), 2 * i) == Running(2 * i, regs, mem, tr)
    ensures Holds(ParamEnv(names, p.args, i), EmitParams(names, i).1, regs, mem)
    ensures SlotsBelow(EmitParams(names, i).1, i)
    decreases i
  {
    hide Run, Holds, SlotsBelow, Step, CodeAt;
    if i == 0 {
      regs, mem := map[], [];
      RunZero(p, Start(tr));
      HoldsNothing(regs, mem);
    } else {
      var (code, slots) := EmitParams(names, i - 1);
      var last := [Alloca(i - 1), StoreArg(i - 1, i - 1)];
      CodeSplit(p.code, 0, code, last);
      var regs1, mem1 := ParamsRun(p, names, i - 1, tr);
      assert last == [Alloca(i - 1)] + [StoreArg(i - 1, i - 1)];
      CodeSplit(p.code, 2 * i - 2, [Alloca(i - 1)], [StoreArg(i - 1, i - 1)]);
      RunAlloca(p, 2 * i - 2, regs1, mem1, tr, i - 1);
      regs := regs1[i - 1 := Address(|mem1|, [])];
      RunStoreArg(p, 2 * i - 1, regs, mem1 + [None], tr, i - 1, i - 1, |mem1|);
      mem := mem1 + [Some(p.args[i - 1])];
      assert (mem1 + [None])[|mem1| := Some(p.args[i - 1])] == mem;
      RunThen(p, Start(tr), 2 * i - 2, Running(2 * i - 2, regs1, mem1, tr), 1,
        Running(2 * i - 1, regs, mem1 + [None], tr));
      RunThen(p, Start(tr), 2 * i - 1, Running(2 * i - 1, regs, mem1 + [None], tr), 1, Running(2 * i, regs, mem, tr));
      HoldsPush(ParamEnv(names, p.args, i - 1), slots, regs1, mem1, names[i - 1], p.args[i - 1], i - 1);
    }
    ParamsRead(names, i);
  }

  lemma HoldsNothing(regs: Regs, mem: Memory)
    ensures Holds([], [], regs, mem)
  {
  }

  /** How the machine ends, or goes on, where the IR body has this outcome. */
  predicate Ends(out: Outcome, ret: Type, fuel: nat, k: nat, s: State) {
    match out
    case Returned(v, tr) => s == Done(v, tr)
    case Next(_, tr) => if ret.TVoid? then s == Done(VUnit, tr) else s == Crashed
    case OutOfFuel(tr) => s.Running? && s.trace == tr && fuel <= k
    case Undefined => true
  }

  lemma {:induction false} RunUnreachable(p: Program, pc: nat, regs: Regs, mem: Memory, tr: Trace)
    requires CodeAt(p.code, pc, [Unreachable])
    ensures Run(p, Running(pc, regs, mem, tr), 1) == Crashed
  {
    hide Run, Compute;
    CodeIndex(p.code, pc, [Unreachable], 0);
    RunOne(p, Running(pc, regs, mem, tr));
  }

  /** The end of a function whose body fell through. */
  lemma {:induction false} FallsOff(p: Program, s: State, ret: Type)
    requires s.Running? && CodeAt(p.code, s.pc, if ret.TVoid? then [Ret(Void)] else [Unreachable])
    ensures Run(p, s, 1) == if ret.TVoid? then Done(VUnit, s.trace) else Crashed
  {
    hide Run;
    if ret.TVoid? {
      RunRet(p, s.pc, s.regs, s.mem, s.trace, Void, VUnit);
    } else {
      RunUnreachable(p, s.pc, s.regs, s.mem, s.trace);
    }
  }

  /** For every fuel, running the emitted function from its entry gives the value, the events
      and the end of the structured body. A body that falls off its end returns from a void
      function and reaches `unreachable` in any other. */
  lemma {:induction false} FunctionRuns(p: Program, names: seq<Name>, ret: Type, body: seq<Stmt>, fuel: nat,
      tr: Trace)
    returns (k: nat)
    requires EmitFunction(names, ret, body) == Some(p.code) && |names| == |p.args|
    ensures Ends(ExecStmts(p.o, fuel, ParamEnv(names, p.args, |names|), tr, body), ret, fuel, k, Run(p, Start(tr), k))
  {
    hide Run, Holds, Keeps, Frame, NoNewOwner, EmitStmts, ExecStmts, EmitParams, CodeAt, OneLabelEach, SlotsBelow;
    var env, out := ParamEnv(names, p.args, |names|), ExecStmts(p.o, fuel, ParamEnv(names, p.args, |names|), tr, body);
    var (entry, slots) := EmitParams(names, |names|);
    var c := Counters(|names|, 0, false);
    var b := EmitStmts(slots, c, body).value;
    var last := if b.next.terminated then [] else if ret.TVoid? then [Ret(Void)] else [Unreachable];
    LabelsOnce(p, names, ret, body);
    WholeCode(p.code);
    CodeSplit(p.code, 0, entry, b.code + last);
    CodeSplit(p.code, |entry|, b.code, last);
    var regs, mem := ParamsRun(p, names, |names|, tr);
    k := 2 * |names|;
    if !out.Undefined? {
      var s0 := Running(k, regs, mem, tr);
      var k1, s1 := StmtsDo(p, slots, c, body, k, fuel, env, regs, mem, tr);
      RunThen(p, Start(tr), k, s0, k1, s1);
      k := k + k1;
      if out.Next? {
        FallsOff(p, s1, ret);
        RunThen(p, Start(tr), k, s1, 1, Run(p, s1, 1));
        k := k + 1;
      }
    }
  }

  lemma WholeCode(code: seq<Instr>)
    ensures CodeAt(code, 0, code)
  {
  }

  lemma {:induction false} LabelsOnce(p: Program, names: seq<Name>, ret: Type, body: seq<Stmt>)
    requires EmitFunction(names, ret, body) == Some(p.code)
    ensures OneLabelEach(p.code)
  {
    forall l: nat
      ensures Defs(p.code, l) <= 1
    {
      FunctionLabels(names, ret, body, l);
    }
  }

  lemma {:induction false} RunStays(p: Program, s: State, j: nat, k: nat)
    requires j <= k && !Run(p, s, j).Running?
    ensures Run(p, s, k) == Run(p, s, j)
  {
    RunAdd(p, s, j, k - j);
    RunEnded(p, Run(p, s, j), k - j);
  }

  /** Conversely, a run of the machine that ends in k steps is the run of the body with more
      fuel than that, unless the body is undefined there. */
  lemma {:induction false} MachineEnds(p: Program, names: seq<Name>, ret: Type, body: seq<Stmt>, k: nat, fuel: nat,
      tr: Trace)
    requires EmitFunction(names, ret, body) == Some(p.code) && |names| == |p.args|
    requires !Run(p, Start(tr), k).Running? && k < fuel
    ensures
      var out := ExecStmts(p.o, fuel, ParamEnv(names, p.args, |names|), tr, body);
      !out.OutOfFuel? && Ends(out, ret, fuel, k, Run(p, Start(tr), k))
  {
    hide Run, ExecStmts, EmitFunction;
    var out := ExecStmts(p.o, fuel, ParamEnv(names, p.args, |names|), tr, body);
    var k' := FunctionRuns(p, names, ret, body, fuel, tr);
    if k <= k' {
      RunStays(p, Start(tr), k, k');
    } else if !out.OutOfFuel? && !out.Undefined? {
      RunStays(p, Start(tr), k', k);
    }
  }

  /** A body that no amount of fuel brings to an end never ends on the machine either. */
  lemma {:induction false} MachineDiverges(p: Program, names: seq<Name>, ret: Type, body: seq<Stmt>, k: nat, tr: Trace)
    requires EmitFunction(names, ret, body) == Some(p.code) && |names| == |p.args|
    requires ExecStmts(p.o, k + 1, ParamEnv(names, p.args, |names|), tr, body).OutOfFuel?
    ensures Run(p, Start(tr), k).Running?
  {
    hide Run, ExecStmts, EmitFunction;
    if !Run(p, Start(tr), k).Running? {
      MachineEnds(p, names, ret, body, k, k + 1, tr);
    }
  }
}
