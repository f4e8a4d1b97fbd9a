/** Emitted statement code does what the IR statement does: it reaches the code after it with
    the new environment, or returns the same value, or is still running after as many steps as
    there was fuel; the events are the same in each case. */
module BackendStmt {
  import opened Ir
  import opened Values
  import opened IrSemantics
  import opened Machine
  import opened Backend
  import opened BackendShape
  import opened BackendLabels
  import opened BackendRelation
  import opened BackendExpr

  /** From s0, k steps lead to s', which is how `out` ends: at pc' with the bindings of slots'
      if it fell through. Registers below n, and cells that no binding of slots owns, keep
      their contents. */
  ghost predicate Reached(p: Program, n: nat, slots: Slots, s0: State, slots': Slots, out: Outcome, fuel: nat, k: nat,
      s': State, pc': nat)
  {
    && s0.Running?
    && Run(p, s0, k) == s'
    && match out
       case Next(env, tr) =>
         && s'.Running? && s'.pc == pc' && s'.trace == tr
         && Holds(env, slots', s'.regs, s'.mem)
         && Keeps(s0.regs, s'.regs, n) && Frame(s0.mem, s'.mem, slots, s0.regs)
         && NoNewOwner(slots, s0.regs, slots', s'.regs, |s0.mem|)
       case Returned(v, tr) => s' == Done(v, tr)
       case OutOfFuel(tr) => s'.Running? && s'.trace == tr && fuel <= k
       case Undefined => true
  }

  /** An old cell belongs to a later binding only if it belonged to one before. */
  ghost predicate NoNewOwner(slots: Slots, regs: Regs, slots': Slots, regs': Regs, limit: nat) {
    forall a: nat :: a < limit && Owned(slots', regs', a) ==> Owned(slots, regs, a)
  }

  /** One stretch of code after another. */
  lemma {:induction false} ReachedThen(p: Program, n: nat, m: nat, slots: Slots, s0: State, slots1: Slots, env1: Env,
      j: nat, s1: State, slots2: Slots, out: Outcome, fuel: nat, fuel1: nat, fuel2: nat, k: nat, s2: State, pc': nat)
    requires s1.Running? && n <= m && fuel <= fuel2 + j
    requires Reached(p, n, slots, s0, slots1, Next(env1, s1.trace), fuel1, j, s1, s1.pc)
    requires Reached(p, m, slots1, s1, slots2, out, fuel2, k, s2, pc')
    ensures Reached(p, n, slots, s0, slots2, out, fuel, j + k, s2, pc')
  {
    hide Run, Holds, Owned, Frame, Keeps;
    RunThen(p, s0, j, s1, k, s2);
    if out.Next? {
      KeepsTransitive(s0.regs, s1.regs, s2.regs, n, m);
      FrameTransitive(s0.mem, s1.mem, s2.mem, slots, s0.regs, slots1, s1.regs);
      FrameGrows(s0.mem, s1.mem, slots, s0.regs);
    }
  }

  lemma FrameGrows(mem: Memory, mem': Memory, slots: Slots, regs: Regs)
    requires Frame(mem, mem', slots, regs)
    ensures |mem| <= |mem'|
  {
  }

  /** Code that left the bindings and old cells alone. */
  lemma {:induction false} ReachedQuietly(p: Program, n: nat, slots: Slots, env: Env, s0: State, fuel: nat, k: nat,
      s1: State)
    requires s0.Running? && s1.Running? && Run(p, s0, k) == s1
    requires Holds(env, slots, s0.regs, s0.mem) && SlotsBelow(slots, n)
    requires Keeps(s0.regs, s1.regs, n) && s0.mem <= s1.mem
    ensures Reached(p, n, slots, s0, slots, Next(env, s1.trace), fuel, k, s1, s1.pc)
  {
    hide Run;
    HoldsLater(env, slots, s0.regs, s0.mem, s1.regs, s1.mem, n);
    FramePrefix(s0.mem, s1.mem, slots, s0.regs);
    forall a: nat
      ensures Owned(slots, s1.regs, a) <==> Owned(slots, s0.regs, a)
    {
      OwnedKeeps(slots, s0.regs, s1.regs, env, s0.mem, n, a);
    }
  }

  /** An expression, as a stretch of code. */
  lemma {:induction false} ExprReaches(p: Program, slots: Slots, c: Counters, e: Expr, pc: nat, env: Env, regs: Regs,
      mem: Memory, tr: Trace, fuel: nat)
    returns (k: nat, s1: State)
    requires EmitExpr(slots, c, e).Some? && Ready(p, slots, c, pc, EmitExpr(slots, c, e).value.code, env, regs, mem)
    requires Eval(p.o, env, tr, e).Val?
    ensures s1.Running? && s1.pc == pc + |EmitExpr(slots, c, e).value.code| && s1.trace == Eval(p.o, env, tr, e).trace
    ensures Reached(p, c.temp, slots, Running(pc, regs, mem, tr), slots, Next(env, s1.trace), fuel, k, s1, s1.pc)
    ensures ValueOf(s1.regs, EmitExpr(slots, c, e).value.out) == Some(Eval(p.o, env, tr, e).value)
    ensures Holds(env, slots, s1.regs, s1.mem) && Keeps(regs, s1.regs, c.temp) && mem <= s1.mem
  {
    hide Run, Holds, Keeps, EmitExpr, Eval, Frame, Owned, CodeAt, OneLabelEach;
    var regs1: Regs, mem1: Memory;
    k, regs1, mem1 := ExprRuns(p, slots, c, e, pc, env, regs, mem, tr);
    s1 := Running(pc + |EmitExpr(slots, c, e).value.code|, regs1, mem1, Eval(p.o, env, tr, e).trace);
    HoldsLater(env, slots, regs, mem, regs1, mem1, c.temp);
    ReachedQuietly(p, c.temp, slots, env, Running(pc, regs, mem, tr), fuel, k, s1);
  }

  /** A jump. */
  lemma {:induction false} JumpReaches(p: Program, n: nat, slots: Slots, env: Env, s0: State, fuel: nat, s1: State)
    requires s0.Running? && s1.Running? && s1 == Running(s1.pc, s0.regs, s0.mem, s0.trace) && Run(p, s0, 1) == s1
    requires Holds(env, slots, s0.regs, s0.mem) && SlotsBelow(slots, n)
    ensures Reached(p, n, slots, s0, slots, Next(env, s0.trace), fuel, 1, s1, s1.pc)
  {
    hide Run, Holds;
    KeepsRefl(s0.regs, n);
    ReachedQuietly(p, n, slots, env, s0, fuel, 1, s1);
  }

  /** What the code of a statement (or of statements) does. */
  ghost predicate Does(p: Program, slots: Slots, c: Counters, em: EmittedStmt, pc: nat, s0: State, out: Outcome,
      fuel: nat, k: nat, s': State) {
    && Reached(p, c.temp, slots, s0, em.slots, out, fuel, k, s', pc + |em.code|)
    && (out.Next? ==> !em.next.terminated)
  }

  lemma {:induction false} StmtsSlots(slots: Slots, c: Counters, ss: seq<Stmt>)
    requires EmitStmts(slots, c, ss).Some?
    ensures
      var em := EmitStmts(slots, c, ss).value;
      |slots| <= |em.slots| && em.slots[|em.slots| - |slots|..] == slots
    decreases ss
  {
    if ss != [] {
      var (pre, c1) := Reopen(c);
      var s := EmitStmt(slots, c1, ss[0]).value;
      StmtSlots(slots, c1, ss[0]);
      StmtsSlots(s.slots, s.next, ss[1..]);
      var last := EmitStmts(s.slots, s.next, ss[1..]).value.slots;
      assert last[|last| - |slots|..] == last[|last| - |s.slots|..][|s.slots| - |slots|..];
    }
  }

  lemma StmtSlots(slots: Slots, c: Counters, s: Stmt)
    requires EmitStmt(slots, c, s).Some?
    ensures
      var em := EmitStmt(slots, c, s).value;
      em.slots == if s.Let? then [Slot(s.name, em.next.temp - 1)] + slots else slots
  {
  }

  lemma {:induction false} StmtsDo(p: Program, slots: Slots, c: Counters, ss: seq<Stmt>, pc: nat, fuel: nat, env: Env,
      regs: Regs, mem: Memory, tr: Trace)
    returns (k: nat, s': State)
    requires EmitStmts(slots, c, ss).Some? && !c.terminated
    requires Ready(p, slots, c, pc, EmitStmts(slots, c, ss).value.code, env, regs, mem)
    requires !ExecStmts(p.o, fuel, env, tr, ss).Undefined?
    ensures Does(p, slots, c, EmitStmts(slots, c, ss).value, pc, Running(pc, regs, mem, tr),
        ExecStmts(p.o, fuel, env, tr, ss), fuel, k, s')
    decreases fuel, ss, 0
  {
    hide Run, Holds, Keeps, Frame, Owned, NoNewOwner, EmitStmt, ExecStmt, CodeAt, OneLabelEach, SlotsBelow;
    var s0 := Running(pc, regs, mem, tr);
    if ss == [] {
      RunZero(p, s0);
      KeepsRefl(regs, c.temp);
      k, s' := 0, s0;
      ReachedQuietly(p, c.temp, slots, env, s0, fuel, 0, s0);
    } else {
      var em := EmitStmt(slots, c, ss[0]).value;
      var rest := EmitStmts(em.slots, em.next, ss[1..]).value;
      assert EmitStmts(slots, c,
        ss).value.code == em.code + rest.code by { assert [] + (em.code + rest.code) == em.code + rest.code; }
      CodeSplit(p.code, pc, em.code, rest.code);
      var out := ExecStmt(p.o, fuel, env, tr, ss[0]);
      var k1, s1 := StmtDoes(p, slots, c, ss[0], pc, fuel, env, regs, mem, tr);
      if out.Next? {
        StmtReads(slots, c, ss[0]);
        var k2: nat;
        k2, s' := StmtsDo(p, em.slots, em.next, ss[1..], pc + |em.code|, fuel, out.env, s1.regs, s1.mem, out.trace);
        ReachedThen(p, c.temp, em.next.temp, slots, s0, em.slots, out.env, k1, s1, rest.slots,
          ExecStmts(p.o, fuel, env, tr, ss), fuel, fuel, fuel, k2, s', pc + |em.code| + |rest.code|);
        k := k1 + k2;
      } else {
        k, s' := k1, s1;
      }
    }
  }

  /** A block: its bindings are dropped at the end. */
  lemma {:induction false} BlockDoes(p: Program, slots: Slots, c: Counters, ss: seq<Stmt>, pc: nat, fuel: nat,
      env: Env, regs: Regs, mem: Memory, tr: Trace)
    returns (k: nat, s': State)
    requires EmitStmts(slots, c, ss).Some? && !c.terminated
    requires Ready(p, slots, c, pc, EmitStmts(slots, c, ss).value.code, env, regs, mem)
    requires !ExecBlock(p.o, fuel, env, tr, ss).Undefined?
    ensures Does(p, slots, c, EmitStmts(slots, c, ss).value.(slots := slots), pc, Running(pc, regs, mem, tr),
        ExecBlock(p.o, fuel, env, tr, ss), fuel, k, s')
    decreases fuel, ss, 1
  {
    hide Run, Holds, Keeps, Frame, Owned, EmitStmts, ExecStmts, CodeAt, OneLabelEach, SlotsBelow;
    k, s' := StmtsDo(p, slots, c, ss, pc, fuel, env, regs, mem, tr);
    var em := EmitStmts(slots, c, ss).value;
    StmtsSlots(slots, c, ss);
    SameLength(env, slots, regs, mem);
    ReachedLeaves(p, c.temp, slots, Running(pc, regs, mem, tr), em.slots, ExecStmts(p.o, fuel, env, tr, ss), fuel, k,
      s', pc + |em.code|);
  }

  /** Leaving a scope drops the bindings made since. */
  lemma {:induction false} ReachedLeaves(p: Program, n: nat, slots: Slots, s0: State, slots2: Slots, out: Outcome,
      fuel: nat, k: nat, s': State, pc': nat)
    requires Reached(p, n, slots, s0, slots2, out, fuel, k, s', pc')
    requires |slots| <= |slots2| && slots2[|slots2| - |slots|..] == slots
    ensures Reached(p, n, slots, s0, slots, Leave(|slots|, out), fuel, k, s', pc')
  {
    hide Run, Keeps, Frame;
    if out.Next? {
      var d := |slots2| - |slots|;
      HoldsSuffix(out.env, slots2, s'.regs, s'.mem, d);
      forall a: nat | a < |s0.mem| && Owned(slots, s'.regs, a)
        ensures Owned(slots, s0.regs, a)
      {
        var i :| 0 <= i < |slots| && PointsTo(s'.regs, slots[i].reg, a);
        assert slots[i] == slots2[d + i];
        assert Owned(slots2, s'.regs, a);
      }
    }
  }

  lemma {:induction false} StmtDoes(p: Program, slots: Slots, c: Counters, s: Stmt, pc: nat, fuel: nat, env: Env,
      regs: Regs, mem: Memory, tr: Trace)
    returns (k: nat, s': State)
    requires EmitStmt(slots, c, s).Some? && !c.terminated
    requires Ready(p, slots, c, pc, EmitStmt(slots, c, s).value.code, env, regs, mem)
    requires !ExecStmt(p.o, fuel, env, tr, s).Undefined?
    ensures Does(p, slots, c, EmitStmt(slots, c, s).value, pc, Running(pc, regs, mem, tr),
        ExecStmt(p.o, fuel, env, tr, s), fuel, k, s')
    decreases fuel, s, 1
  {
    hide Run, Ready, Does;
    match s
    case Let(_, _) => k, s' := LetDoes(p, slots, c, s, pc, fuel, env, regs, mem, tr);
    case Assign(_, _) => k, s' := AssignDoes(p, slots, c, s, pc, fuel, env, regs, mem, tr);
    case Return(_) => k, s' := ReturnDoes(p, slots, c, s, pc, fuel, env, regs, mem, tr);
    case ExprStmt(_) => k, s' := ExprStmtDoes(p, slots, c, s, pc, fuel, env, regs, mem, tr);
    case Free(_) => k, s' := FreeDoes(p, slots, c, s, pc, fuel, env, regs, mem, tr);
    case Zone(_, _) => k, s' := ZoneDoes(p, slots, c, s, pc, fuel, env, regs, mem, tr);
    case IfThen(_, _) => k, s' := IfThenDoes(p, slots, c, s, pc, fuel, env, regs, mem, tr);
    case IfElse(_, _, _) => k, s' := IfElseDoes(p, slots, c, s, pc, fuel, env, regs, mem, tr);
    case While(_, _) => k, s' := WhileDoes(p, slots, c, s, pc, fuel, env, regs, mem, tr);
    case Loop(_) => k, s' := LoopDoes(p, slots, c, s, pc, fuel, env, regs, mem, tr);
    case For(_, _, _, _) => k, s' := ForDoes(p, slots, c, s, pc, fuel, env, regs, mem, tr);
  }

  /** A new binding in a fresh cell. */
  lemma {:induction false} PushReaches(p: Program, slots: Slots, env: Env, s1: State, x: Name, v: Value, n: nat,
      k: nat, s2: State, regs2: Regs, fuel: nat)
    requires s1.Running? && Holds(env, slots, s1.regs, s1.mem) && SlotsBelow(slots, n)
    requires Keeps(s1.regs[n := Address(|s1.mem|, [])], regs2, n + 1)
    requires s2.Running? && s2.regs == regs2 && s2.mem == s1.mem + [Some(v)] && Run(p, s1, k) == s2
    ensures Reached(p, n, slots, s1, [Slot(x, n)] + slots, Next([Binding(x, v)] + env, s2.trace), fuel, k, s2, s2.pc)
  {
    hide Run, Holds;
    var regs1 := s1.regs[n := Address(|s1.mem|, [])];
    HoldsPush(env, slots, s1.regs, s1.mem, x, v, n);
    assert SlotsBelow([Slot(x, n)] + slots, n + 1);
    HoldsLater([Binding(x, v)] + env, [Slot(x, n)] + slots, regs1, s2.mem, regs2, s2.mem, n + 1);
    FramePrefix(s1.mem, s2.mem, slots, s1.regs);
    assert Keeps(s1.regs, regs2, n);
    PushOwners(slots, env, s1, x, n, regs2);
  }

  lemma {:induction false} PushOwners(slots: Slots, env: Env, s1: State, x: Name, n: nat, regs2: Regs)
    requires s1.Running? && Holds(env, slots, s1.regs, s1.mem) && SlotsBelow(slots, n)
    requires Keeps(s1.regs[n := Address(|s1.mem|, [])], regs2, n + 1)
    ensures NoNewOwner(slots, s1.regs, [Slot(x, n)] + slots, regs2, |s1.mem|)
  {
    var slots2 := [Slot(x, n)] + slots;
    assert Keeps(s1.regs, regs2, n);
    forall a: nat | a < |s1.mem| && Owned(slots2, regs2, a)
      ensures Owned(slots, s1.regs, a)
    {
      var i :| 0 <= i < |slots2| && PointsTo(regs2, slots2[i].reg, a);
      assert i != 0;
      assert PointsTo(regs2, slots[i - 1].reg, a);
      assert Owned(slots, regs2, a);
      OwnedKeeps(slots, s1.regs, regs2, env, s1.mem, n, a);
    }
  }

  lemma {:induction false} LetDoes(p: Program, slots: Slots, c: Counters, s: Stmt, pc: nat, fuel: nat, env: Env,
      regs: Regs, mem: Memory, tr: Trace)
    returns (k: nat, s': State)
    requires s.Let? && EmitStmt(slots, c, s).Some? && !c.terminated
    requires Ready(p, slots, c, pc, EmitStmt(slots, c, s).value.code, env, regs, mem)
    requires !ExecStmt(p.o, fuel, env, tr, s).Undefined?
    ensures Does(p, slots, c, EmitStmt(slots, c, s).value, pc, Running(pc, regs, mem, tr),
        ExecStmt(p.o, fuel, env, tr, s), fuel, k, s')
  {
    hide Run, Holds, Keeps, EmitExpr, Eval, CodeAt, OneLabelEach, Reached;
    var v := EmitExpr(slots, c, s.init).value;
    var n, r := v.next.temp, Eval(p.o, env, tr, s.init);
    CodeSplit(p.code, pc, v.code, Spill(v.out, n));
    var k1, s1 := ExprReaches(p, slots, c, s.init, pc, env, regs, mem, tr, fuel);
    RunSpill(p, s1.pc, s1.regs, s1.mem, r.trace, v.out, n, r.value);
    var regs2 := s1.regs[n := Address(|s1.mem|, [])];
    s' := Running(s1.pc + 2, regs2, s1.mem + [Some(r.value)], r.trace);
    KeepsRefl(regs2, n + 1);
    SlotsBelowLater(slots, c.temp, n);
    PushReaches(p, slots, env, s1, s.name, r.value, n, 2, s', regs2, fuel);
    ReachedThen(p, c.temp, n, slots, Running(pc, regs, mem, tr), slots, env, k1, s1, [Slot(s.name, n)] + slots,
      Next([Binding(s.name, r.value)] + env, r.trace), fuel, fuel, fuel, 2, s', s'.pc);
    k := k1 + 2;
  }

  /** An assignment to a visible binding. */
  lemma {:induction false} StoreReaches(p: Program, slots: Slots, env: Env, s1: State, i: nat, v: Value, n: nat,
      s2: State, k: nat, fuel: nat)
    requires s1.Running? && Holds(env, slots, s1.regs, s1.mem) && SlotsBelow(slots, n) && i < |env| && i < |slots|
    requires s2.Running? && Keeps(s1.regs, s2.regs, n) && Run(p, s1, k) == s2
    requires slots[i].reg in s1.regs && s1.regs[slots[i].reg].Address? && s1.regs[slots[i].reg].path == []
    requires s1.regs[slots[i].reg].cell < |s1.mem|
    requires s2.mem == s1.mem[s1.regs[slots[i].reg].cell := Some(v)]
    ensures Reached(p, n, slots, s1, slots, Next(env[i := Binding(env[i].name, v)], s2.trace), fuel, k, s2, s2.pc)
  {
    hide Run;
    HoldsStore(env, slots, s1.regs, s1.mem, i, v);
    HoldsLater(env[i := Binding(env[i].name, v)], slots, s1.regs, s2.mem, s2.regs, s2.mem, n);
    var cell := s1.regs[slots[i].reg].cell;
    assert PointsTo(s1.regs, slots[i].reg, cell);
    assert Owned(slots, s1.regs, cell);
    assert Frame(s1.mem, s2.mem, slots, s1.regs);
    forall a: nat
      ensures Owned(slots, s2.regs, a) <==> Owned(slots, s1.regs, a)
    {
      OwnedKeeps(slots, s1.regs, s2.regs, env, s1.mem, n, a);
    }
  }

  lemma {:induction false} AssignDoes(p: Program, slots: Slots, c: Counters, s: Stmt, pc: nat, fuel: nat, env: Env,
      regs: Regs, mem: Memory, tr: Trace)
    returns (k: nat, s': State)
    requires s.Assign? && EmitStmt(slots, c, s).Some? && !c.terminated
    requires Ready(p, slots, c, pc, EmitStmt(slots, c, s).value.code, env, regs, mem)
    requires !ExecStmt(p.o, fuel, env, tr, s).Undefined?
    ensures Does(p, slots, c, EmitStmt(slots, c, s).value, pc, Running(pc, regs, mem, tr),
        ExecStmt(p.o, fuel, env, tr, s), fuel, k, s')
  {
    hide Run, Holds, Keeps, EmitExpr, Eval, CodeAt, OneLabelEach, Reached, SlotOf, Lookup, Update, SlotsBelow;
    var v := EmitExpr(slots, c, s.rhs).value;
    var n, r := v.next.temp, Eval(p.o, env, tr, s.rhs);
    var ptr := SlotOf(slots, s.name).value;
    CodeSplit(p.code, pc, v.code, [Store(v.out, ptr)]);
    var k1, s1 := ExprReaches(p, slots, c, s.rhs, pc, env, regs, mem, tr, fuel);
    var i := FindSlot(env, slots, s1.regs, s1.mem, s.name);
    UpdateFirst(env, s.name, i, r.value);
    var cell := s1.regs[ptr].cell;
    RunStore(p, s1.pc, s1.regs, s1.mem, r.trace, v.out, ptr, r.value, cell);
    s' := Running(s1.pc + 1, s1.regs, s1.mem[cell := Some(r.value)], r.trace);
    KeepsRefl(s1.regs, n);
    SlotsBelowLater(slots, c.temp, n);
    StoreReaches(p, slots, env, s1, i, r.value, n, s', 1, fuel);
    ReachedThen(p, c.temp, n, slots, Running(pc, regs, mem, tr), slots, env, k1, s1, slots,
      Next(env[i := Binding(env[i].name, r.value)], r.trace), fuel, fuel, fuel, 1, s', s'.pc);
    k := k1 + 1;
  }

  lemma {:induction false} RunRet(p: Program, pc: nat, regs: Regs, mem: Memory, tr: Trace, v: Operand, x: Value)
    requires CodeAt(p.code, pc, [Ret(v)]) && ValueOf(regs, v) == Some(x)
    ensures Run(p, Running(pc, regs, mem, tr), 1) == Done(x, tr)
  {
    hide Run, Compute;
    CodeIndex(p.code, pc, [Ret(v)], 0);
    RunOne(p, Running(pc, regs, mem, tr));
  }

  lemma {:induction false} ReturnDoes(p: Program, slots: Slots, c: Counters, s: Stmt, pc: nat, fuel: nat, env: Env,
      regs: Regs, mem: Memory, tr: Trace)
    returns (k: nat, s': State)
    requires s.Return? && EmitStmt(slots, c, s).Some? && !c.terminated
    requires Ready(p, slots, c, pc, EmitStmt(slots, c, s).value.code, env, regs, mem)
    requires !ExecStmt(p.o, fuel, env, tr, s).Undefined?
    ensures Does(p, slots, c, EmitStmt(slots, c, s).value, pc, Running(pc, regs, mem, tr),
        ExecStmt(p.o, fuel, env, tr, s), fuel, k, s')
  {
    hide Run, Holds, Keeps, EmitExpr, Eval, CodeAt, OneLabelEach;
    if s.result.None? {
      RunRet(p, pc, regs, mem, tr, Void, VUnit);
      k, s' := 1, Done(VUnit, tr);
    } else {
      var v := EmitExpr(slots, c, s.result.value).value;
      var r := Eval(p.o, env, tr, s.result.value);
      CodeSplit(p.code, pc, v.code, [Ret(v.out)]);
      var k1, s1 := ExprReaches(p, slots, c, s.result.value, pc, env, regs, mem, tr, fuel);
      RunRet(p, s1.pc, s1.regs, s1.mem, r.trace, v.out, r.value);
      k, s' := k1 + 1, Done(r.value, r.trace);
      RunThen(p, Running(pc, regs, mem, tr), k1, s1, 1, s');
    }
  }

  lemma {:induction false} ExprStmtDoes(p: Program, slots: Slots, c: Counters, s: Stmt, pc: nat, fuel: nat, env: Env,
      regs: Regs, mem: Memory, tr: Trace)
    returns (k: nat, s': State)
    requires s.ExprStmt? && EmitStmt(slots, c, s).Some? && !c.terminated
    requires Ready(p, slots, c, pc, EmitStmt(slots, c, s).value.code, env, regs, mem)
    requires !ExecStmt(p.o, fuel, env, tr, s).Undefined?
    ensures Does(p, slots, c, EmitStmt(slots, c, s).value, pc, Running(pc, regs, mem, tr),
        ExecStmt(p.o, fuel, env, tr, s), fuel, k, s')
  {
    hide Run, Holds, Keeps, EmitExpr, Eval, CodeAt, OneLabelEach, Reached;
    k, s' := ExprReaches(p, slots, c, s.expr, pc, env, regs, mem, tr, fuel);
  }

  lemma {:induction false} RunFree(p: Program, pc: nat, regs: Regs, mem: Memory, tr: Trace, v: Operand, x: Value)
    requires CodeAt(p.code, pc, [FreeCall(v)]) && ValueOf(regs, v) == Some(x)
    ensures Run(p, Running(pc, regs, mem, tr), 1) == Running(pc + 1, regs, mem, tr + [Event(AFree(x), VUnit)])
  {
    hide Run, Compute;
    CodeIndex(p.code, pc, [FreeCall(v)], 0);
    RunOne(p, Running(pc, regs, mem, tr));
  }

  lemma {:induction false} FreeDoes(p: Program, slots: Slots, c: Counters, s: Stmt, pc: nat, fuel: nat, env: Env,
      regs: Regs, mem: Memory, tr: Trace)
    returns (k: nat, s': State)
    requires s.Free? && EmitStmt(slots, c, s).Some? && !c.terminated
    requires Ready(p, slots, c, pc, EmitStmt(slots, c, s).value.code, env, regs, mem)
    requires !ExecStmt(p.o, fuel, env, tr, s).Undefined?
    ensures Does(p, slots, c, EmitStmt(slots, c, s).value, pc, Running(pc, regs, mem, tr),
        ExecStmt(p.o, fuel, env, tr, s), fuel, k, s')
  {
    hide Run, Holds, Keeps, EmitExpr, Eval, CodeAt, OneLabelEach, Reached;
    var v := EmitExpr(slots, c, s.pointer).value;
    var n, r := v.next.temp, Eval(p.o, env, tr, s.pointer);
    CodeSplit(p.code, pc, v.code, [FreeCall(v.out)]);
    var k1, s1 := ExprReaches(p, slots, c, s.pointer, pc, env, regs, mem, tr, fuel);
    RunFree(p, s1.pc, s1.regs, s1.mem, r.trace, v.out, r.value);
    s' := Running(s1.pc + 1, s1.regs, s1.mem, r.trace + [Event(AFree(r.value), VUnit)]);
    KeepsRefl(s1.regs, n);
    SlotsBelowLater(slots, c.temp, n);
    ReachedQuietly(p, n, slots, env, s1, fuel, 1, s');
    ReachedThen(p, c.temp, n, slots, Running(pc, regs, mem, tr), slots, env, k1, s1, slots, Next(env, s'.trace), fuel,
      fuel, fuel, 1, s', s'.pc);
    k := k1 + 1;
  }

  lemma SameLength(env: Env, slots: Slots, regs: Regs, mem: Memory)
    requires Holds(env, slots, regs, mem)
    ensures |env| == |slots|
  {
  }

  lemma {:induction false} ZoneOpenRuns(p: Program, pc: nat, regs: Regs, mem: Memory, tr: Trace, n: nat, h: Value)
    requires CodeAt(p.code, pc, ZoneOpen(n)) && h == p.o(tr, AZoneEnter)
    ensures Run(p, Running(pc, regs, mem, tr), 3) ==
      Running(pc + 3, regs[n := Address(|mem|, [])][n + 1 := Data(h)], mem + [Some(h)], tr + [Event(AZoneEnter, h)])
  {
    hide Run, Compute;
    assert ZoneOpen(n) == [Alloca(n)] + ([ZoneEnter(n + 1)] + [Store(Reg(n + 1), n)]);
    CodeSplit(p.code, pc, [Alloca(n)], [ZoneEnter(n + 1)] + [Store(Reg(n + 1), n)]);
    CodeSplit(p.code, pc + 1, [ZoneEnter(n + 1)], [Store(Reg(n + 1), n)]);
    RunAlloca(p, pc, regs, mem, tr, n);
    var regs1, mem1 := regs[n := Address(|mem|, [])], mem + [None];
    var regs2, tr2 := regs1[n + 1 := Data(h)], tr + [Event(AZoneEnter, h)];
    CodeIndex(p.code, pc + 1, [ZoneEnter(n + 1)], 0);
    RunOne(p, Running(pc + 1, regs1, mem1, tr));
    RunStore(p, pc + 2, regs2, mem1, tr2, Reg(n + 1), n, h, |mem|);
    assert mem1[|mem| := Some(h)] == mem + [Some(h)];
    RunThen(p, Running(pc, regs, mem, tr), 1, Running(pc + 1, regs1, mem1, tr), 1, Running(pc + 2, regs2, mem1, tr2));
    RunThen(p, Running(pc, regs, mem, tr), 2, Running(pc + 2, regs2, mem1, tr2), 1,
      Running(pc + 3, regs2, mem + [Some(h)], tr2));
  }

  lemma {:induction false} ZoneDoes(p: Program, slots: Slots, c: Counters, s: Stmt, pc: nat, fuel: nat, env: Env,
      regs: Regs, mem: Memory, tr: Trace)
    returns (k: nat, s': State)
    requires s.Zone? && EmitStmt(slots, c, s).Some? && !c.terminated
    requires Ready(p, slots, c, pc, EmitStmt(slots, c, s).value.code, env, regs, mem)
    requires !ExecStmt(p.o, fuel, env, tr, s).Undefined?
    ensures Does(p, slots, c, EmitStmt(slots, c, s).value, pc, Running(pc, regs, mem, tr),
        ExecStmt(p.o, fuel, env, tr, s), fuel, k, s')
    decreases fuel, s, 0
  {
    hide Run, Holds, Keeps, EmitStmts, ExecStmts, CodeAt, OneLabelEach, Frame, NoNewOwner, ZoneOpen;
    var n, h := c.temp, p.o(tr, AZoneEnter);
    var slots1, env1 := [Slot(s.zone, n)] + slots, [Binding(s.zone, h)] + env;
    var b := EmitStmts(slots1, Temps(c, 2), s.body).value;
    ZoneOpenLength(n);
    CodeSplit(p.code, pc, ZoneOpen(n), b.code);
    ZoneOpenRuns(p, pc, regs, mem, tr, n, h);
    var regs1 := regs[n := Address(|mem|, [])];
    var s0, s1 := Running(pc, regs, mem, tr),
      Running(pc + 3, regs1[n + 1 := Data(h)], mem + [Some(h)], tr + [Event(AZoneEnter, h)]);
    KeepsRefl(regs1, n + 1);
    KeepsNew(regs1, regs1, n + 1, n + 1, Data(h));
    PushReaches(p, slots, env, s0, s.zone, h, n, 3, s1, s1.regs, fuel);
    assert SlotsBelow(slots1, n + 2);
    var k1: nat;
    k1, s' := BlockDoes(p, slots1, Temps(c, 2), s.body, pc + 3, fuel, env1, s1.regs, s1.mem, s1.trace);
    var out := ExecBlock(p.o, fuel, env1, s1.trace, s.body);
    k := 3 + k1;
    ReachedThen(p, n, n + 2, slots, s0, slots1, env1, 3, s1, slots1, out, fuel, fuel, fuel, k1, s', pc + 3 + |b.code|);
    assert slots1[1..] == slots;
    SameLength(env, slots, regs, mem);
    ReachedLeaves(p, n, slots, s0, slots1, out, fuel, k, s', pc + 3 + |b.code|);
  }

  lemma ZoneOpenLength(n: nat)
    ensures |ZoneOpen(n)| == 3
  {
  }

  /** A condition and the branch on it, to the label at index i. */
  lemma {:induction false} TestReaches(p: Program, slots: Slots, c: Counters, e: Expr, pc: nat, env: Env, regs: Regs,
      mem: Memory, tr: Trace, fuel: nat, l: nat, other: nat, i: nat)
    returns (k: nat, s2: State)
    requires EmitExpr(slots, c, e).Some? && Ready(p, slots, c, pc, EmitExpr(slots, c, e).value.code, env, regs, mem)
    requires Eval(p.o, env, tr, e).Val? && Eval(p.o, env, tr, e).value.VBool?
    requires
      var v := EmitExpr(slots, c, e).value;
      CodeAt(p.code, pc + |v.code|, [CondBr(v.out, l, other)])
    requires CodeAt(p.code, i, [Label(if Eval(p.o, env, tr, e).value.b then l else other)])
    ensures 0 < k && s2.Running? && s2.pc == i + 1 && s2.trace == Eval(p.o, env, tr, e).trace
    ensures Holds(env, slots, s2.regs, s2.mem)
    ensures Reached(p, c.temp, slots, Running(pc, regs, mem, tr), slots, Next(env, s2.trace), fuel, k, s2, s2.pc)
  {
    hide Run, Holds, Keeps, EmitExpr, Eval, CodeAt, OneLabelEach, Reached;
    var v, r := EmitExpr(slots, c, e).value, Eval(p.o, env, tr, e);
    var k1, s1 := ExprReaches(p, slots, c, e, pc, env, regs, mem, tr, fuel);
    RunBranch(p, s1.pc, s1.regs, s1.mem, r.trace, v.out, l, other, r.value.b, i);
    s2 := Running(i + 1, s1.regs, s1.mem, r.trace);
    JumpReaches(p, c.temp, slots, env, s1, fuel, s2);
    ReachedThen(p, c.temp, c.temp, slots, Running(pc, regs, mem, tr), slots, env, k1, s1, slots, Next(env, r.trace),
      fuel, fuel, fuel, 1, s2, s2.pc);
    k := k1 + 1;
  }

  /** A block and the jump that closes it, to the label at index i. */
  lemma {:induction false} BlockThenGo(p: Program, slots: Slots, c: Counters, ss: seq<Stmt>, pc: nat, fuel: nat,
      env: Env, regs: Regs, mem: Memory, tr: Trace, l: nat, i: nat)
    returns (k: nat, s': State)
    requires EmitStmts(slots, c, ss).Some? && !c.terminated
    requires Ready(p, slots, c, pc, EmitStmts(slots, c, ss).value.code, env, regs, mem)
    requires
      var b := EmitStmts(slots, c, ss).value;
      CodeAt(p.code, pc + |b.code|, BrIfOpen(b.next, l))
    requires CodeAt(p.code, i, [Label(l)])
    requires !ExecBlock(p.o, fuel, env, tr, ss).Undefined?
    ensures Reached(p, c.temp, slots, Running(pc, regs, mem, tr), slots, ExecBlock(p.o, fuel, env, tr, ss), fuel, k,
        s', i + 1)
    ensures ExecBlock(p.o, fuel, env, tr, ss).Next? ==> 0 < k
    decreases fuel, ss, 2
  {
    hide Run, Holds, Keeps, Frame, NoNewOwner, EmitStmts, ExecBlock, CodeAt, OneLabelEach;
    var b := EmitStmts(slots, c, ss).value;
    var s0 := Running(pc, regs, mem, tr);
    var k1, s1 := BlockDoes(p, slots, c, ss, pc, fuel, env, regs, mem, tr);
    var out := ExecBlock(p.o, fuel, env, tr, ss);
    if out.Next? {
      RunBr(p, s1.pc, s1.regs, s1.mem, s1.trace, l, i);
      s' := Running(i + 1, s1.regs, s1.mem, s1.trace);
      JumpReaches(p, c.temp, slots, out.env, s1, fuel, s');
      ReachedThen(p, c.temp, c.temp, slots, s0, slots, out.env, k1, s1, slots, out, fuel, fuel, fuel, 1, s', i + 1);
      k := k1 + 1;
    } else {
      k, s' := k1, s1;
    }
  }

  /** A branch, the block behind it, and the label that ends the construct. */
  lemma {:induction false} ArmLayout(code: seq<Instr>, q: nat, v: Operand, l: nat, other: nat, next: nat,
      t: seq<Instr>, go: seq<Instr>, rest: seq<Instr>)
    requires CodeAt(code, q, BranchTo(v, l, other, next) + (t + (go + rest)))
    ensures CodeAt(code, q, [CondBr(v, l, other)]) && CodeAt(code, q + 1, [Label(next)])
    ensures CodeAt(code, q + 2, t) && CodeAt(code, q + 2 + |t|, go) && CodeAt(code, q + 2 + |t| + |go|, rest)
  {
    hide CodeAt;
    assert |BranchTo(v, l, other, next)| == 2;
    CodeSplit(code, q, BranchTo(v, l, other, next), t + (go + rest));
    BranchParts(code, q, v, l, other, next);
    CodeSplit(code, q + 2, t, go + rest);
    CodeSplit(code, q + 2 + |t|, go, rest);
  }

  lemma {:induction false} IfThenDoes(p: Program, slots: Slots, c: Counters, s: Stmt, pc: nat, fuel: nat, env: Env,
      regs: Regs, mem: Memory, tr: Trace)
    returns (k: nat, s': State)
    requires s.IfThen? && EmitStmt(slots, c, s).Some? && !c.terminated
    requires Ready(p, slots, c, pc, EmitStmt(slots, c, s).value.code, env, regs, mem)
    requires !ExecStmt(p.o, fuel, env, tr, s).Undefined?
    ensures Does(p, slots, c, EmitStmt(slots, c, s).value, pc, Running(pc, regs, mem, tr),
        ExecStmt(p.o, fuel, env, tr, s), fuel, k, s')
    decreases fuel, s, 0
  {
    hide Run, Holds, Keeps, EmitExpr, EmitStmts, Eval, ExecBlock, CodeAt, OneLabelEach, Reached, BranchTo, BrIfOpen;
    var yes, merge := c.lab, c.lab + 2;
    var v := EmitExpr(slots, Labels(c, 3), s.cond).value;
    var t := EmitStmts(slots, v.next, s.thenBlock).value;
    var go, r := BrIfOpen(t.next, merge), Eval(p.o, env, tr, s.cond);
    var q := pc + |v.code|;
    CodeSplit(p.code, pc, v.code, BranchTo(v.out, yes, merge, yes) + (t.code + (go + [Label(merge)])));
    ArmLayout(p.code, q, v.out, yes, merge, yes, t.code, go, [Label(merge)]);
    BranchLength(v.out, yes, merge, yes);
    var m := q + 2 + |t.code| + |go|;
    var k1, s1 := TestReaches(p, slots, Labels(c, 3), s.cond, pc, env, regs, mem, tr, fuel, yes, merge,
      if r.value.b then q + 1 else m);
    if r.value.b {
      SlotsBelowLater(slots, c.temp, v.next.temp);
      var k2: nat;
      k2, s' := BlockThenGo(p, slots, v.next, s.thenBlock, q + 2, fuel, env, s1.regs, s1.mem, s1.trace, merge, m);
      ReachedThen(p, c.temp, v.next.temp, slots, Running(pc, regs, mem, tr), slots, env, k1, s1, slots,
        ExecBlock(p.o, fuel, env, r.trace, s.thenBlock), fuel, fuel, fuel, k2, s', m + 1);
      k := k1 + k2;
    } else {
      k, s' := k1, s1;
    }
  }

  lemma BranchLength(v: Operand, l: nat, other: nat, next: nat)
    ensures |BranchTo(v, l, other, next)| == 2
  {
  }

  lemma {:induction false} IfElseLayout(code: seq<Instr>, pc: nat, v: Emitted, t: seq<Instr>, goT: seq<Instr>,
      f: seq<Instr>, goF: seq<Instr>, yes: nat, no: nat, merge: nat)
    requires CodeAt(code, pc,
        v.code + (BranchTo(v.out, yes, no, yes) + (t + (goT + ([Label(no)] + (f + (goF + [Label(merge)])))))))
    ensures
      var q := pc + |v.code|;
      var e := q + 2 + |t| + |goT|;
      && CodeAt(code, pc, v.code) && CodeAt(code, q, [CondBr(v.out, yes, no)]) && CodeAt(code, q + 1, [Label(yes)])
      && CodeAt(code, q + 2, t) && CodeAt(code, q + 2 + |t|, goT) && CodeAt(code, e, [Label(no)])
      && CodeAt(code, e + 1, f) && CodeAt(code, e + 1 + |f|, goF) && CodeAt(code, e + 1 + |f| + |goF|, [Label(merge)])
  {
    hide CodeAt, BranchTo;
    var q, tail := pc + |v.code|, f + (goF + [Label(merge)]);
    CodeSplit(code, pc, v.code, BranchTo(v.out, yes, no, yes) + (t + (goT + ([Label(no)] + tail))));
    ArmLayout(code, q, v.out, yes, no, yes, t, goT, [Label(no)] + tail);
    var e := q + 2 + |t| + |goT|;
    CodeSplit(code, e, [Label(no)], tail);
    CodeSplit(code, e + 1, f, goF + [Label(merge)]);
    CodeSplit(code, e + 1 + |f|, goF, [Label(merge)]);
  }

  lemma {:induction false} IfElseDoes(p: Program, slots: Slots, c: Counters, s: Stmt, pc: nat, fuel: nat, env: Env,
      regs: Regs, mem: Memory, tr: Trace)
    returns (k: nat, s': State)
    requires s.IfElse? && EmitStmt(slots, c, s).Some? && !c.terminated
    requires Ready(p, slots, c, pc, EmitStmt(slots, c, s).value.code, env, regs, mem)
    requires !ExecStmt(p.o, fuel, env, tr, s).Undefined?
    ensures Does(p, slots, c, EmitStmt(slots, c, s).value, pc, Running(pc, regs, mem, tr),
        ExecStmt(p.o, fuel, env, tr, s), fuel, k, s')
    decreases fuel, s, 0
  {
    hide Run, Holds, Keeps, EmitExpr, EmitStmts, Eval, ExecBlock, CodeAt, OneLabelEach, Reached, BranchTo, BrIfOpen,
      SlotsBelow;
    var yes, no, merge := c.lab, c.lab + 1, c.lab + 2;
    var v := EmitExpr(slots, Labels(c, 3), s.cond).value;
    var t := EmitStmts(slots, v.next, s.thenBlock).value;
    var f := EmitStmts(slots, Open(t.next), s.elseBlock).value;
    var goT, goF, r := BrIfOpen(t.next, merge), BrIfOpen(f.next, merge), Eval(p.o, env, tr, s.cond);
    IfElseLayout(p.code, pc, v, t.code, goT, f.code, goF, yes, no, merge);
    BranchLength(v.out, yes, no, yes);
    var q := pc + |v.code|;
    var e := q + 2 + |t.code| + |goT|;
    var m := e + 1 + |f.code| + |goF|;
    var k1, s1 := TestReaches(p, slots, Labels(c, 3), s.cond, pc, env, regs, mem, tr, fuel, yes, no,
      if r.value.b then q + 1 else e);
    var k2: nat;
    if r.value.b {
      SlotsBelowLater(slots, c.temp, v.next.temp);
      k2, s' := BlockThenGo(p, slots, v.next, s.thenBlock, q + 2, fuel, env, s1.regs, s1.mem, s1.trace, merge, m);
    } else {
      SlotsBelowLater(slots, c.temp, t.next.temp);
      k2, s' := BlockThenGo(p, slots, Open(t.next), s.elseBlock, e + 1, fuel, env, s1.regs, s1.mem, s1.trace, merge, m);
    }
    var out := ExecBlock(p.o, fuel, env, r.trace, if r.value.b then s.thenBlock else s.elseBlock);
    ReachedThen(p, c.temp, if r.value.b then v.next.temp else t.next.temp, slots, Running(pc, regs, mem, tr), slots,
      env, k1, s1, slots, out, fuel, fuel, fuel, k2, s', m + 1);
    k := k1 + k2;
  }

  /** Where the pieces of a while loop stand, its condition at h and its end at e. */
  ghost predicate WhileAt(code: seq<Instr>, h: nat, v: Emitted, b: EmittedStmt, top: nat, body: nat, end: nat, e: nat) {
    var q := h + |v.code|;
    && 0 < h && CodeAt(code, h - 1, [Label(top)]) && CodeAt(code, h, v.code)
    && CodeAt(code, q, [CondBr(v.out, body, end)]) && CodeAt(code, q + 1, [Label(body)])
    && CodeAt(code, q + 2, b.code) && CodeAt(code, q + 2 + |b.code|, BrIfOpen(b.next, top))
    && CodeAt(code, e, [Label(end)])
  }

  lemma {:induction false} WhileRuns(p: Program, slots: Slots, c: Counters, cond: Expr, body: seq<Stmt>, h: nat,
      fuel: nat, env: Env, regs: Regs, mem: Memory, tr: Trace, top: nat, lb: nat, end: nat, e: nat)
    returns (k: nat, s': State)
    requires !c.terminated && EmitExpr(slots, c, cond).Some?
    requires EmitStmts(slots, EmitExpr(slots, c, cond).value.next, body).Some?
    requires
      var v := EmitExpr(slots, c, cond).value;
      WhileAt(p.code, h, v, EmitStmts(slots, v.next, body).value, top, lb, end, e)
    requires OneLabelEach(p.code) && SlotsBelow(slots, c.temp) && Holds(env, slots, regs, mem)
    requires !ExecWhile(p.o, fuel, env, tr, cond, body).Undefined?
    ensures Reached(p, c.temp, slots, Running(h, regs, mem, tr), slots, ExecWhile(p.o, fuel, env, tr, cond, body),
        fuel, k, s', e + 1)
    decreases fuel, body, 3
  {
    hide Run, Holds, Keeps, Frame, NoNewOwner, EmitExpr, EmitStmts, Eval, ExecBlock, CodeAt, OneLabelEach, BrIfOpen;
    var s0 := Running(h, regs, mem, tr);
    if fuel == 0 {
      RunZero(p, s0);
      k, s' := 0, s0;
    } else {
      var v := EmitExpr(slots, c, cond).value;
      var q, r := h + |v.code|, Eval(p.o, env, tr, cond);
      var k1, s1 := TestReaches(p, slots, c, cond, h, env, regs, mem, tr, fuel, lb, end,
        if r.value.b then q + 1 else e);
      if !r.value.b {
        k, s' := k1, s1;
      } else {
        SlotsBelowLater(slots, c.temp, v.next.temp);
        var k2, s2 := BlockThenGo(p, slots, v.next, body, q + 2, fuel, env, s1.regs, s1.mem, s1.trace, top, h - 1);
        var out := ExecBlock(p.o, fuel, env, r.trace, body);
        ReachedThen(p, c.temp, v.next.temp, slots, s0, slots, env, k1, s1, slots, out, fuel, fuel, fuel, k2, s2, h);
        if out.Next? {
          var k3: nat;
          k3, s' := WhileRuns(p, slots, c, cond, body, h, fuel - 1, out.env, s2.regs, s2.mem, s2.trace, top, lb, end,
            e);
          ReachedThen(p, c.temp, c.temp, slots, s0, slots, out.env, k1 + k2, s2, slots,
            ExecWhile(p.o, fuel, env, tr, cond, body), fuel, fuel, fuel - 1, k3, s', e + 1);
          k := k1 + k2 + k3;
        } else {
          k, s' := k1 + k2, s2;
        }
      }
    }
  }

  lemma {:induction false} WhileDoes(p: Program, slots: Slots, c: Counters, s: Stmt, pc: nat, fuel: nat, env: Env,
      regs: Regs, mem: Memory, tr: Trace)
    returns (k: nat, s': State)
    requires s.While? && EmitStmt(slots, c, s).Some? && !c.terminated
    requires Ready(p, slots, c, pc, EmitStmt(slots, c, s).value.code, env, regs, mem)
    requires !ExecStmt(p.o, fuel, env, tr, s).Undefined?
    ensures Does(p, slots, c, EmitStmt(slots, c, s).value, pc, Running(pc, regs, mem, tr),
        ExecStmt(p.o, fuel, env, tr, s), fuel, k, s')
    decreases fuel, s, 0
  {
    hide Run, Holds, Keeps, EmitExpr, EmitStmts, Eval, ExecWhile, CodeAt, OneLabelEach, Reached, BranchTo, BrIfOpen,
      JumpInto;
    var top, lb, end := c.lab, c.lab + 1, c.lab + 2;
    var v := EmitExpr(slots, Labels(c, 3), s.cond).value;
    var b := EmitStmts(slots, v.next, s.body).value;
    var go := BrIfOpen(b.next, top);
    var arm := BranchTo(v.out, lb, end, lb) + (b.code + (go + [Label(end)]));
    JumpIntoLength(top);
    CodeSplit(p.code, pc, JumpInto(top), v.code + arm);
    JumpIntoParts(p.code, pc, top);
    CodeSplit(p.code, pc + 2, v.code, arm);
    ArmLayout(p.code, pc + 2 + |v.code|, v.out, lb, end, lb, b.code, go, [Label(end)]);
    BranchLength(v.out, lb, end, lb);
    var e := pc + 2 + |v.code| + 2 + |b.code| + |go|;
    RunJumpInto(p, pc, regs, mem, tr, top);
    var s0, s1 := Running(pc, regs, mem, tr), Running(pc + 2, regs, mem, tr);
    JumpReaches(p, c.temp, slots, env, s0, fuel, s1);
    var k1: nat;
    k1, s' := WhileRuns(p, slots, Labels(c, 3), s.cond, s.body, pc + 2, fuel, env, regs, mem, tr, top, lb, end, e);
    ReachedThen(p, c.temp, c.temp, slots, s0, slots, env, 1, s1, slots, ExecWhile(p.o, fuel, env, tr, s.cond, s.body),
      fuel, fuel, fuel, k1, s', e + 1);
    k := 1 + k1;
  }

  lemma JumpIntoLength(l: nat)
    ensures |JumpInto(l)| == 2
  {
  }

  lemma {:induction false} LoopRuns(p: Program, slots: Slots, c: Counters, body: seq<Stmt>, h: nat, fuel: nat,
      env: Env, regs: Regs, mem: Memory, tr: Trace, top: nat, e: nat)
    returns (k: nat, s': State)
    requires !c.terminated && EmitStmts(slots, c, body).Some? && 0 < h && CodeAt(p.code, h - 1, [Label(top)])
    requires
      var b := EmitStmts(slots, c, body).value;
      CodeAt(p.code, h, b.code) && CodeAt(p.code, h + |b.code|, BrIfOpen(b.next, top))
    requires OneLabelEach(p.code) && SlotsBelow(slots, c.temp) && Holds(env, slots, regs, mem)
    requires !ExecWhile(p.o, fuel, env, tr, Bool(true), body).Undefined?
    ensures Reached(p, c.temp, slots, Running(h, regs, mem, tr), slots,
        ExecWhile(p.o, fuel, env, tr, Bool(true), body), fuel, k, s', e + 1)
    ensures !ExecWhile(p.o, fuel, env, tr, Bool(true), body).Next?
    decreases fuel, body, 3
  {
    hide Run, Holds, Keeps, Frame, NoNewOwner, EmitExpr, EmitStmts, ExecBlock, CodeAt, OneLabelEach, BrIfOpen;
    var s0 := Running(h, regs, mem, tr);
    if fuel == 0 {
      RunZero(p, s0);
      k, s' := 0, s0;
    } else {
      var k2, s2 := BlockThenGo(p, slots, c, body, h, fuel, env, regs, mem, tr, top, h - 1);
      var out := ExecBlock(p.o, fuel, env, tr, body);
      if out.Next? {
        var k3: nat;
        k3, s' := LoopRuns(p, slots, c, body, h, fuel - 1, out.env, s2.regs, s2.mem, s2.trace, top, e);
        ReachedThen(p, c.temp, c.temp, slots, s0, slots, out.env, k2, s2, slots,
          ExecWhile(p.o, fuel, env, tr, Bool(true), body), fuel, fuel, fuel - 1, k3, s', e + 1);
        k := k2 + k3;
      } else {
        k, s' := k2, s2;
      }
    }
  }

  lemma {:induction false} LoopDoes(p: Program, slots: Slots, c: Counters, s: Stmt, pc: nat, fuel: nat, env: Env,
      regs: Regs, mem: Memory, tr: Trace)
    returns (k: nat, s': State)
    requires s.Loop? && EmitStmt(slots, c, s).Some? && !c.terminated
    requires Ready(p, slots, c, pc, EmitStmt(slots, c, s).value.code, env, regs, mem)
    requires !ExecStmt(p.o, fuel, env, tr, s).Undefined?
    ensures Does(p, slots, c, EmitStmt(slots, c, s).value, pc, Running(pc, regs, mem, tr),
        ExecStmt(p.o, fuel, env, tr, s), fuel, k, s')
    decreases fuel, s, 0
  {
    hide Run, Holds, Keeps, EmitStmts, ExecWhile, CodeAt, OneLabelEach, Reached, BrIfOpen, JumpInto;
    var top, end := c.lab, c.lab + 1;
    var b := EmitStmts(slots, Labels(c, 2), s.body).value;
    var go := BrIfOpen(b.next, top);
    JumpIntoLength(top);
    CodeSplit(p.code, pc, JumpInto(top), b.code + (go + [Label(end)]));
    JumpIntoParts(p.code, pc, top);
    CodeSplit(p.code, pc + 2, b.code, go + [Label(end)]);
    CodeSplit(p.code, pc + 2 + |b.code|, go, [Label(end)]);
    var e := pc + 2 + |b.code| + |go|;
    RunJumpInto(p, pc, regs, mem, tr, top);
    var s0, s1 := Running(pc, regs, mem, tr), Running(pc + 2, regs, mem, tr);
    JumpReaches(p, c.temp, slots, env, s0, fuel, s1);
    var k1: nat;
    k1, s' := LoopRuns(p, slots, Labels(c, 2), s.body, pc + 2, fuel, env, regs, mem, tr, top, e);
    ReachedThen(p, c.temp, c.temp, slots, s0, slots, env, 1, s1, slots,
      ExecWhile(p.o, fuel, env, tr, Bool(true), s.body), fuel, fuel, fuel, k1, s', e + 1);
    k := 1 + k1;
  }

  /** The limit of a range loop stays in a cell that no binding owns. */
  ghost predicate LimitHeld(slots: Slots, regs: Regs, mem: Memory, limit: nat, cell: nat, end: int) {
    PointsTo(regs, limit, cell) && cell < |mem| && mem[cell] == Some(VInt(end)) && !Owned(slots, regs, cell)
  }

  lemma {:induction false} LimitKept(p: Program, m: nat, slots: Slots, s0: State, env: Env, fuel: nat, k: nat,
      s1: State, limit: nat, cell: nat, end: int)
    requires s1.Running? && Reached(p, m, slots, s0, slots, Next(env, s1.trace), fuel, k, s1, s1.pc) && limit < m
    requires LimitHeld(slots, s0.regs, s0.mem, limit, cell, end)
    ensures LimitHeld(slots, s1.regs, s1.mem, limit, cell, end)
  {
    hide Run, Holds, Owned;
  }

  /** The two cells of a range loop after its bounds have been stored. */
  lemma {:induction false} ForCells(env: Env, slots: Slots, regs: Regs, mem: Memory, n: nat, x: Name, lo: Value,
      end: int, regs2: Regs, mem2: Memory)
    requires Holds(env, slots, regs, mem) && SlotsBelow(slots, n)
    requires Keeps(regs[n := Address(|mem|, [])][n + 1 := Address(|mem| + 1, [])], regs2, n + 2)
    requires mem + [None, None] <= mem2
    ensures
      var mem3 := mem2[|mem| := Some(lo)][|mem| + 1 := Some(VInt(end))];
      && Holds([Binding(x, lo)] + env, [Slot(x, n)] + slots, regs2, mem3)
      && Keeps(regs, regs2, n) && Frame(mem, mem3, slots, regs)
      && NoNewOwner(slots, regs, [Slot(x, n)] + slots, regs2, |mem|)
      && PointsTo(regs2, n, |mem|) && LimitHeld([Slot(x, n)] + slots, regs2, mem3, n + 1, |mem| + 1, end)
  {
    hide Holds;
    assert mem <= mem2 by { assert mem == (mem + [None, None])[..|mem|]; }
    var mem3 := mem2[|mem| := Some(lo)][|mem| + 1 := Some(VInt(end))];
    assert Keeps(regs, regs2, n);
    forall a: nat
      ensures Owned(slots, regs2, a) ==> Owned(slots, regs, a) && a < |mem|
    {
      OwnedKeeps(slots, regs, regs2, env, mem, n, a);
      if Owned(slots, regs, a) { OwnedInMemory(env, slots, regs, mem, a); }
    }
    HoldsLater(env, slots, regs, mem, regs2, mem2, n);
    HoldsUnowned(env, slots, regs2, mem2, |mem|, lo);
    HoldsUnowned(env, slots, regs2, mem2[|mem| := Some(lo)], |mem| + 1, VInt(end));
    HoldsBind(env, slots, regs2, mem3, x, lo, n, |mem|);
    forall a: nat | Owned([Slot(x, n)] + slots, regs2, a)
      ensures a == |mem| || Owned(slots, regs2, a)
    {
      var i :| 0 <= i < |[Slot(x, n)] + slots| && PointsTo(regs2, ([Slot(x, n)] + slots)[i].reg, a);
      if i != 0 { assert PointsTo(regs2, slots[i - 1].reg, a); }
    }
  }

  lemma {:induction false} AllocasRun(p: Program, pc: nat, regs: Regs, mem: Memory, tr: Trace, n: nat)
    requires CodeAt(p.code, pc, [Alloca(n), Alloca(n + 1)])
    ensures Run(p, Running(pc, regs, mem, tr), 2)
         == Running(pc + 2, regs[n := Address(|mem|, [])][n + 1 := Address(|mem| + 1, [])], mem + [None, None], tr)
  {
    hide Run, Step;
    assert [Alloca(n), Alloca(n + 1)] == [Alloca(n)] + [Alloca(n + 1)];
    CodeSplit(p.code, pc, [Alloca(n)], [Alloca(n + 1)]);
    var regs1, mem1 := regs[n := Address(|mem|, [])], mem + [None];
    RunAlloca(p, pc, regs, mem, tr, n);
    RunAlloca(p, pc + 1, regs1, mem1, tr, n + 1);
    assert mem1 + [None] == mem + [None, None];
    RunThen(p, Running(pc, regs, mem, tr), 1, Running(pc + 1, regs1, mem1, tr), 1,
      Running(pc + 2, regs1[n + 1 := Address(|mem| + 1, [])], mem + [None, None], tr));
  }

  /** Storing the bounds and entering the loop. */
  lemma {:induction false} ForInitRuns(p: Program, pc: nat, regs: Regs, mem: Memory, tr: Trace, a: Operand,
      b: Operand, n: nat, lo: Value, hi: Value, cell: nat, top: nat)
    requires CodeAt(p.code, pc, ForInit(a, b, n, n + 1)) && CodeAt(p.code, pc + 2, JumpInto(top))
    requires OneLabelEach(p.code)
    requires ValueOf(regs, a) == Some(lo) && ValueOf(regs, b) == Some(hi)
    requires PointsTo(regs, n, cell) && PointsTo(regs, n + 1, cell + 1) && cell + 1 < |mem|
    ensures Run(p, Running(pc, regs, mem, tr), 3) ==
      Running(pc + 4, regs, mem[cell := Some(lo)][cell + 1 := Some(hi)], tr)
  {
    hide Run, Step, OneLabelEach;
    assert ForInit(a, b, n, n + 1) == [Store(a, n)] + [Store(b, n + 1)];
    CodeSplit(p.code, pc, [Store(a, n)], [Store(b, n + 1)]);
    var mem1 := mem[cell := Some(lo)];
    var mem2 := mem1[cell + 1 := Some(hi)];
    RunStore(p, pc, regs, mem, tr, a, n, lo, cell);
    RunStore(p, pc + 1, regs, mem1, tr, b, n + 1, hi, cell + 1);
    RunJumpInto(p, pc + 2, regs, mem2, tr, top);
    RunThen(p, Running(pc, regs, mem, tr), 1, Running(pc + 1, regs, mem1, tr), 1, Running(pc + 2, regs, mem2, tr));
    RunThen(p, Running(pc, regs, mem, tr), 2, Running(pc + 2, regs, mem2, tr), 1, Running(pc + 4, regs, mem2, tr));
  }

  /** Loading the variable and the limit, comparing them and branching. */
  lemma {:induction false} ForTestReaches(p: Program, h: nat, slots: Slots, env: Env, regs: Regs, mem: Memory,
      tr: Trace, n: nat, limit: nat, cell: nat, end: int, lb: nat, out: nat, i: nat, fuel: nat)
    returns (s1: State)
    requires slots != [] && CodeAt(p.code, h, ForTest(slots[0].reg, limit, n))
    requires CodeAt(p.code, h + 3, [CondBr(Reg(n + 2), lb, out)])
    requires OneLabelEach(p.code) && SlotsBelow(slots, n) && Holds(env, slots, regs, mem)
    requires LimitHeld(slots, regs, mem, limit, cell, end) && limit < n
    requires env != [] && env[0].value.VInt? && CodeAt(p.code, i, [Label(if env[0].value.i < end then lb else out)])
    ensures s1.Running? && s1.pc == i + 1 && s1.trace == tr
    ensures Reached(p, n, slots, Running(h, regs, mem, tr), slots, Next(env, tr), fuel, 4, s1, i + 1)
  {
    hide Run, Compute, OneLabelEach, Keeps, Step;
    assert SlotHolds(env[0], slots[0], regs, mem);
    assert SlotsBelow(slots, n) ==> slots[0].reg < n;
    var x := env[0].value.i;
    var c := Counters(n, 0, false);
    var l1, l2, l3 := Load(n, slots[0].reg), Load(n + 1, limit), Arith(n + 2, Less, Reg(n), Reg(n + 1));
    assert ForTest(slots[0].reg, limit, n) == ([l1] + [l2]) + [l3];
    CodeSplit(p.code, h, [l1] + [l2], [l3]);
    CodeSplit(p.code, h, [l1], [l2]);
    LoadComputes(regs, mem, n, slots[0].reg, regs[slots[0].reg].cell, [], VInt(x), VInt(x));
    JustCompute(p, c, h, regs, mem, tr, l1, Data(VInt(x)));
    var regs1 := regs[n := Data(VInt(x))];
    LoadComputes(regs1, mem, n + 1, limit, cell, [], VInt(end), VInt(end));
    ThenCompute(p, c, h, regs, mem, tr, tr, 1, regs1, mem, [l1], l2, Data(VInt(end)));
    var regs2 := regs1[n + 1 := Data(VInt(end))];
    ArithComputes(regs2, mem, n + 2, Less, TInt, Reg(n), Reg(n + 1), VInt(x), VInt(end));
    ThenCompute(p, c, h, regs, mem, tr, tr, 2, regs2, mem, [l1] + [l2], l3, Data(VBool(x < end)));
    var regs3 := regs2[n + 2 := Data(VBool(x < end))];
    RunBranch(p, h + 3, regs3, mem, tr, Reg(n + 2), lb, out, x < end, i);
    s1 := Running(i + 1, regs3, mem, tr);
    RunThen(p, Running(h, regs, mem, tr), 3, Running(h + 3, regs3, mem, tr), 1, s1);
    ReachedQuietly(p, n, slots, env, Running(h, regs, mem, tr), fuel, 4, s1);
  }

  /** Adding one to the variable and going back to the test. */
  lemma {:induction false} ForStepReaches(p: Program, pc: nat, slots: Slots, env: Env, regs: Regs, mem: Memory,
      tr: Trace, n: nat, top: nat, i: nat, fuel: nat)
    returns (s1: State)
    requires slots != [] && CodeAt(p.code, pc, ForNext(n, slots[0].reg) + StoreAndGo(Reg(n + 1), slots[0].reg, top))
    requires CodeAt(p.code, i, [Label(top)])
    requires OneLabelEach(p.code) && SlotsBelow(slots, n) && Holds(env, slots, regs, mem)
    requires env != [] && env[0].value.VInt? && InInt64(env[0].value.i + 1)
    ensures s1.Running? && s1.pc == i + 1 && s1.trace == tr
    ensures Reached(p, n, slots, Running(pc, regs, mem, tr), slots,
        Next([Binding(env[0].name, VInt(env[0].value.i + 1))] + env[1..], tr), fuel, 4, s1, i + 1)
  {
    hide Run, Compute, OneLabelEach, Keeps, Step, StoreAndGo;
    assert SlotHolds(env[0], slots[0], regs, mem);
    assert SlotsBelow(slots, n) ==> slots[0].reg < n;
    var x, r := env[0].value.i, slots[0].reg;
    var c, cell := Counters(n, 0, false), regs[r].cell;
    var l1, l2 := Load(n, r), Arith(n + 1, Add, Reg(n), ConstInt(1));
    assert ForNext(n, r) == [l1] + [l2];
    CodeSplit(p.code, pc, [l1] + [l2], StoreAndGo(Reg(n + 1), r, top));
    CodeSplit(p.code, pc, [l1], [l2]);
    LoadComputes(regs, mem, n, r, cell, [], VInt(x), VInt(x));
    JustCompute(p, c, pc, regs, mem, tr, l1, Data(VInt(x)));
    var regs1 := regs[n := Data(VInt(x))];
    ArithComputes(regs1, mem, n + 1, Add, TInt, Reg(n), ConstInt(1), VInt(x), VInt(1));
    ThenCompute(p, c, pc, regs, mem, tr, tr, 1, regs1, mem, [l1], l2, Data(VInt(x + 1)));
    var regs2, mem2 := regs1[n + 1 := Data(VInt(x + 1))], mem[cell := Some(VInt(x + 1))];
    RunStoreAndGo(p, pc + 2, i, regs2, mem, tr, Reg(n + 1), r, VInt(x + 1), cell, top);
    s1 := Running(i + 1, regs2, mem2, tr);
    RunThen(p, Running(pc, regs, mem, tr), 2, Running(pc + 2, regs2, mem, tr), 2, s1);
    StoreReaches(p, slots, env, Running(pc, regs, mem, tr), 0, VInt(x + 1), n, s1, 4, fuel);
    assert env[0 := Binding(env[0].name, VInt(x + 1))] == [Binding(env[0].name, VInt(x + 1))] + env[1..];
  }

  /** Where the pieces of a range loop stand, its test at h and its end at e. */
  ghost predicate ForAt(code: seq<Instr>, h: nat, n: nat, iter: nat, limit: nat, b: EmittedStmt, top: nat, body: nat,
      end: nat, e: nat) {
    && 0 < h && CodeAt(code, h - 1, [Label(top)]) && CodeAt(code, h, ForTest(iter, limit, n))
    && CodeAt(code, h + 3, [CondBr(Reg(n + 2), body, end)]) && CodeAt(code, h + 4, [Label(body)])
    && CodeAt(code, h + 5, b.code) && CodeAt(code, h + 5 + |b.code|, ForStep(b.next, iter, top).0)
    && CodeAt(code, e, [Label(end)])
  }

  lemma {:induction false} ForRuns(p: Program, slots: Slots, c: Counters, body: seq<Stmt>, h: nat, fuel: nat,
      env: Env, regs: Regs, mem: Memory, tr: Trace, limit: nat, cell: nat, end: int, top: nat, lb: nat, le: nat,
      e: nat)
    returns (k: nat, s': State)
    requires !c.terminated && slots != [] && env != [] && EmitStmts(slots, Temps(c, 3), body).Some?
    requires ForAt(p.code, h, c.temp, slots[0].reg, limit, EmitStmts(slots, Temps(c, 3), body).value, top, lb, le, e)
    requires OneLabelEach(p.code) && SlotsBelow(slots, c.temp) && Holds(env, slots, regs, mem)
    requires LimitHeld(slots, regs, mem, limit, cell, end) && limit < c.temp
    requires !ExecFor(p.o, fuel, env, tr, end, body).Undefined?
    ensures Reached(p, c.temp, slots, Running(h, regs, mem, tr), slots, ExecFor(p.o, fuel, env, tr, end, body), fuel,
        k, s', e + 1)
    decreases fuel, body, 3
  {
    hide Run, Holds, Keeps, Frame, NoNewOwner, EmitStmts, ExecBlock, CodeAt, OneLabelEach, LimitHeld, SlotsBelow;
    var s0, n, m := Running(h, regs, mem, tr), c.temp, c.temp + 3;
    if fuel == 0 {
      RunZero(p, s0);
      k, s' := 0, s0;
    } else {
      var more := env[0].value.i < end;
      var s1 := ForTestReaches(p, h, slots, env, regs, mem, tr, n, limit, cell, end, lb, le,
        if more then h + 4 else e, fuel);
      if !more {
        k, s' := 4, s1;
      } else {
        LimitKept(p, n, slots, s0, env, fuel, 4, s1, limit, cell, end);
        SlotsBelowLater(slots, n, m);
        var b := EmitStmts(slots, Temps(c, 3), body).value;
        var k2, s2 := BlockDoes(p, slots, Temps(c, 3), body, h + 5, fuel, env, s1.regs, s1.mem, tr);
        var out := ExecBlock(p.o, fuel, env, tr, body);
        ReachedThen(p, n, m, slots, s0, slots, env, 4, s1, slots, out, fuel, fuel, fuel, k2, s2, h + 5 + |b.code|);
        if !out.Next? {
          k, s' := 4 + k2, s2;
        } else {
          LimitKept(p, m, slots, s1, out.env, fuel, k2, s2, limit, cell, end);
          SlotsBelowLater(slots, n, b.next.temp);
          var s3 := ForStepReaches(p, h + 5 + |b.code|, slots, out.env, s2.regs, s2.mem, out.trace, b.next.temp, top,
            h - 1, fuel);
          LimitKept(p, b.next.temp, slots, s2, Stepped(out.env), fuel, 4, s3, limit, cell, end);
          ReachedThen(p, n, b.next.temp, slots, s0, slots, out.env, 4 + k2, s2, slots,
            Next(Stepped(out.env), out.trace), fuel, fuel, fuel, 4, s3, h);
          var k3: nat;
          k3, s' := ForRuns(p, slots, c, body, h, fuel - 1, Stepped(out.env), s3.regs, s3.mem, s3.trace, limit, cell,
            end, top, lb, le, e);
          ReachedThen(p, n, n, slots, s0, slots, Stepped(out.env), 8 + k2, s3, slots,
            ExecFor(p.o, fuel, env, tr, end, body), fuel, fuel, fuel - 1, k3, s', e + 1);
          k := 8 + k2 + k3;
        }
      }
    }
  }

  /** The bindings after the loop variable has been stepped. */
  function Stepped(env: Env): Env
    requires env != [] && env[0].value.VInt?
  {
    [Binding(env[0].name, VInt(env[0].value.i + 1))] + env[1..]
  }

  /** The cells, the bounds and the way into a range loop. */
  lemma {:induction false} ForEntry(p: Program, slots: Slots, c: Counters, s: Stmt, pc: nat, env: Env, regs: Regs,
      mem: Memory, tr: Trace, fuel: nat, a: Emitted, b: Emitted, lo: EvalResult, hi: EvalResult, top: nat)
    returns (k: nat, s1: State)
    requires s.For? && Some(a) == EmitExpr(slots, Labels(Temps(c, 2), 3), s.start)
    requires Some(b) == EmitExpr(slots, a.next, s.end)
    requires OneLabelEach(p.code) && SlotsBelow(slots, c.temp) && Holds(env, slots, regs, mem)
    requires CodeAt(p.code, pc, [Alloca(c.temp), Alloca(c.temp + 1)]) && CodeAt(p.code, pc + 2, a.code)
    requires CodeAt(p.code, pc + 2 + |a.code|, b.code)
    requires
      var q := pc + 2 + |a.code| + |b.code|;
      CodeAt(p.code, q, ForInit(a.out, b.out, c.temp, c.temp + 1)) && CodeAt(p.code, q + 2, JumpInto(top))
    requires lo == Eval(p.o, env, tr, s.start) && lo.Val? && hi == Eval(p.o, env, lo.trace, s.end) && hi.Val?
    requires hi.value.VInt?
    ensures s1.Running? && s1.pc == pc + 2 + |a.code| + |b.code| + 4 && s1.trace == hi.trace
    ensures
      var slots1 := [Slot(s.name, c.temp)] + slots;
      && Reached(p, c.temp, slots, Running(pc, regs, mem, tr), slots1,
        Next([Binding(s.name, lo.value)] + env, hi.trace), fuel, k, s1, s1.pc)
      && LimitHeld(slots1, s1.regs, s1.mem, c.temp + 1, |mem| + 1, hi.value.i)
  {
    hide Run, Holds, Keeps, Frame, NoNewOwner, EmitExpr, Eval, CodeAt, OneLabelEach, LimitHeld;
    var n := c.temp;
    var regsA, memA := regs[n := Address(|mem|, [])][n + 1 := Address(|mem| + 1, [])], mem + [None, None];
    var s0, c0 := Running(pc, regs, mem, tr), Labels(Temps(c, 2), 3);
    AllocasRun(p, pc, regs, mem, tr, n);
    AllocasHold(env, slots, regs, mem, n);
    var kb, regsB, memB := ExprRuns(p, slots, c0, s.start, pc + 2, env, regsA, memA, tr);
    HoldsLater(env, slots, regsA, memA, regsB, memB, n + 2);
    SlotsBelowLater(slots, n, a.next.temp);
    var kc, regsC, memC := ExprRuns(p, slots, a.next, s.end, pc + 2 + |a.code|, env, regsB, memB, lo.trace);
    ValueKeeps(regsB, regsC, a.out, a.next.temp);
    KeepsTransitive(regsA, regsB, regsC, n + 2, a.next.temp);
    var q := pc + 2 + |a.code| + |b.code|;
    ForCells(env, slots, regs, mem, n, s.name, lo.value, hi.value.i, regsC, memC);
    LimitPoints([Slot(s.name, n)] + slots, regsC, memC[|mem| := Some(lo.value)][|mem| + 1 := Some(hi.value)], n + 1,
      |mem| + 1, hi.value.i);
    ForInitRuns(p, q, regsC, memC, hi.trace, a.out, b.out, n, lo.value, hi.value, |mem|, top);
    s1 := Running(q + 4, regsC, memC[|mem| := Some(lo.value)][|mem| + 1 := Some(hi.value)], hi.trace);
    k := 2 + kb + kc + 3;
    RunThen(p, s0, 2, Running(pc + 2, regsA, memA, tr), kb, Running(pc + 2 + |a.code|, regsB, memB, lo.trace));
    RunThen(p, s0, 2 + kb, Running(pc + 2 + |a.code|, regsB, memB, lo.trace), kc, Running(q, regsC, memC, hi.trace));
    RunThen(p, s0, 2 + kb + kc, Running(q, regsC, memC, hi.trace), 3, s1);
  }

  lemma LimitPoints(slots: Slots, regs: Regs, mem: Memory, limit: nat, cell: nat, end: int)
    requires LimitHeld(slots, regs, mem, limit, cell, end)
    ensures PointsTo(regs, limit, cell)
  {
  }

  lemma {:induction false} AllocasHold(env: Env, slots: Slots, regs: Regs, mem: Memory, n: nat)
    requires Holds(env, slots, regs, mem) && SlotsBelow(slots, n)
    ensures Holds(env, slots, regs[n := Address(|mem|, [])][n + 1 := Address(|mem| + 1, [])], mem + [None, None])
    ensures SlotsBelow(slots, n + 2)
  {
    hide Holds;
    HoldsLater(env, slots, regs, mem, regs[n := Address(|mem|, [])][n + 1 := Address(|mem| + 1, [])],
      mem + [None, None], n);
  }

  lemma {:induction false} ForTailLayout(code: seq<Instr>, q: nat, n: nat, iter: nat, inner: EmittedStmt, top: nat,
      lb: nat, le: nat)
    requires
      CodeAt(code, q, JumpInto(top) + (ForTest(iter, iter + 1, n) +
        (BranchTo(Reg(n + 2), lb, le, lb) + (inner.code + (ForStep(inner.next, iter, top).0 + [Label(le)])))))
    ensures CodeAt(code, q, JumpInto(top))
    ensures ForAt(code, q + 2, n, iter, iter + 1, inner, top, lb, le,
        q + 7 + |inner.code| + |ForStep(inner.next, iter, top).0|)
  {
    hide CodeAt, ForStep, JumpInto, ForTest, BranchTo;
    var step := ForStep(inner.next, iter, top).0;
    var arm := BranchTo(Reg(n + 2), lb, le, lb) + (inner.code + (step + [Label(le)]));
    ForLengths(Void, Void, iter, top, n, lb, le);
    CodeSplit(code, q, JumpInto(top), ForTest(iter, iter + 1, n) + arm);
    JumpIntoParts(code, q, top);
    CodeSplit(code, q + 2, ForTest(iter, iter + 1, n), arm);
    ArmLayout(code, q + 5, Reg(n + 2), lb, le, lb, inner.code, step, [Label(le)]);
  }

  /** The pieces of an emitted range loop. */
  lemma {:induction false} ForLayout(code: seq<Instr>, pc: nat, a: Emitted, b: Emitted, iter: nat, tail: seq<Instr>)
    requires CodeAt(code, pc,
        [Alloca(iter), Alloca(iter + 1)] + (a.code + (b.code + (ForInit(a.out, b.out, iter, iter + 1) + tail))))
    ensures CodeAt(code, pc, [Alloca(iter), Alloca(iter + 1)]) && CodeAt(code, pc + 2, a.code)
    ensures CodeAt(code, pc + 2 + |a.code|, b.code)
    ensures
      var q := pc + 2 + |a.code| + |b.code|;
      CodeAt(code, q, ForInit(a.out, b.out, iter, iter + 1)) && CodeAt(code, q + 2, tail)
  {
    hide CodeAt, ForInit;
    var init := ForInit(a.out, b.out, iter, iter + 1);
    ForLengths(a.out, b.out, iter, 0, 0, 0, 0);
    CodeSplit(code, pc, [Alloca(iter), Alloca(iter + 1)], a.code + (b.code + (init + tail)));
    CodeSplit(code, pc + 2, a.code, b.code + (init + tail));
    CodeSplit(code, pc + 2 + |a.code|, b.code, init + tail);
    CodeSplit(code, pc + 2 + |a.code| + |b.code|, init, tail);
  }

  lemma {:induction false} ForDoes(p: Program, slots: Slots, c: Counters, s: Stmt, pc: nat, fuel: nat, env: Env,
      regs: Regs, mem: Memory, tr: Trace)
    returns (k: nat, s': State)
    requires s.For? && EmitStmt(slots, c, s).Some? && !c.terminated
    requires Ready(p, slots, c, pc, EmitStmt(slots, c, s).value.code, env, regs, mem)
    requires !ExecStmt(p.o, fuel, env, tr, s).Undefined?
    ensures Does(p, slots, c, EmitStmt(slots, c, s).value, pc, Running(pc, regs, mem, tr),
        ExecStmt(p.o, fuel, env, tr, s), fuel, k, s')
    decreases fuel, s, 0
  {
    hide Run, Holds, Keeps, EmitExpr, EmitStmts, Eval, ExecFor, CodeAt, OneLabelEach, Frame, NoNewOwner, ForInit,
      ForTest, ForStep, JumpInto, BranchTo, LimitHeld;
    var iter, top, lb, le := c.temp, c.lab, c.lab + 1, c.lab + 2;
    var a := EmitExpr(slots, Labels(Temps(c, 2), 3), s.start).value;
    var b := EmitExpr(slots, a.next, s.end).value;
    var slots1 := [Slot(s.name, iter)] + slots;
    var inner := EmitStmts(slots1, Temps(b.next, 3), s.body).value;
    var lo := Eval(p.o, env, tr, s.start);
    var hi := Eval(p.o, env, lo.trace, s.end);
    var env1, s0 := [Binding(s.name, lo.value)] + env, Running(pc, regs, mem, tr);
    var n, q := b.next.temp, pc + 2 + |a.code| + |b.code|;
    ForLayout(p.code, pc, a, b, iter, JumpInto(top) + (ForTest(iter, iter + 1, n) +
        (BranchTo(Reg(n + 2), lb, le, lb) + (inner.code + (ForStep(inner.next, iter, top).0 + [Label(le)])))));
    ForTailLayout(p.code, q + 2, n, iter, inner, top, lb, le);
    var k1, s1 := ForEntry(p, slots, c, s, pc, env, regs, mem, tr, fuel, a, b, lo, hi, top);
    var e := q + 9 + |inner.code| + |ForStep(inner.next, iter, top).0|;
    assert SlotsBelow(slots1, b.next.temp);
    var k2: nat;
    k2, s' := ForRuns(p, slots1, b.next, s.body, s1.pc, fuel, env1, s1.regs, s1.mem, s1.trace, iter + 1, |mem| + 1,
      hi.value.i, top, lb, le, e);
    var out := ExecFor(p.o, fuel, env1, hi.trace, hi.value.i, s.body);
    k := k1 + k2;
    ReachedThen(p, iter, b.next.temp, slots, s0, slots1, env1, k1, s1, slots1, out, fuel, fuel, fuel, k2, s', e + 1);
    assert slots1[1..] == slots;
    SameLength(env, slots, regs, mem);
    ReachedLeaves(p, iter, slots, s0, slots1, out, fuel, k, s', e + 1);
    ForLengths(a.out, b.out, iter, top, n, lb, le);
    ForOpen(inner.next, iter, top);
  }

  lemma ForLengths(a: Operand, b: Operand, iter: nat, top: nat, n: nat, lb: nat, le: nat)
    ensures |ForInit(a, b, iter, iter + 1)| == 2 && |JumpInto(top)| == 2 && |ForTest(iter, iter + 1, n)| == 3
    ensures |BranchTo(Reg(n + 2), lb, le, lb)| == 2
  {
  }

  lemma ForOpen(c: Counters, iter: nat, top: nat)
    ensures c.temp <= ForStep(c, iter, top).1.temp
  {
  }
}
