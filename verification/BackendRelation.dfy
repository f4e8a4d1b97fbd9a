/** How a machine state represents an IR environment, and what single pieces of code do. */
module BackendRelation {
  import opened Ir
  import opened Values
  import opened IrSemantics
  import opened Machine
  import opened Backend
  import opened BackendShape
  import opened BackendLabels

  /** The stream holds c at pc. */
  predicate CodeAt(code: seq<Instr>, pc: nat, c: seq<Instr>) {
    pc + |c| <= |code| && code[pc..pc + |c|] == c
  }

  lemma {:induction false} CodeSplit(code: seq<Instr>, pc: nat, a: seq<Instr>, b: seq<Instr>)
    requires CodeAt(code, pc, a + b)
    ensures CodeAt(code, pc, a) && CodeAt(code, pc + |a|, b)
  {
    assert code[pc..pc + |a|] == (a + b)[..|a|] == a;
    assert code[pc + |a|..pc + |a| + |b|] == (a + b)[|a|..] == b;
  }

  lemma {:induction false} CodeIndex(code: seq<Instr>, pc: nat, c: seq<Instr>, i: nat)
    requires CodeAt(code, pc, c) && i < |c|
    ensures pc + i < |code| && code[pc + i] == c[i]
  {
    assert code[pc..pc + |c|][i] == c[i];
  }

  ghost predicate OneLabelEach(code: seq<Instr>) {
    forall l: nat :: Defs(code, l) <= 1
  }

  /** The register holds the address of a whole cell. */
  predicate PointsTo(regs: Regs, r: nat, cell: nat) {
    r in regs && regs[r] == Address(cell, [])
  }

  predicate SlotHolds(b: Binding, s: Slot, regs: Regs, mem: Memory) {
    && b.name == s.name
    && s.reg in regs && regs[s.reg].Address? && regs[s.reg].path == []
    && regs[s.reg].cell < |mem| && mem[regs[s.reg].cell] == Some(b.value)
  }

  /** Every binding lives in a cell of its own. */
  predicate Holds(env: Env, slots: Slots, regs: Regs, mem: Memory) {
    && |env| == |slots|
    && (forall i :: 0 <= i < |env| ==> SlotHolds(env[i], slots[i], regs, mem))
    && (forall i, j :: 0 <= i < j < |slots| ==> regs[slots[i].reg] != regs[slots[j].reg])
  }

  /** Registers below n keep their values. */
  ghost predicate Keeps(regs: Regs, regs': Regs, n: nat) {
    forall r: nat :: r < n && r in regs ==> r in regs' && regs'[r] == regs[r]
  }

  lemma KeepsTransitive(a: Regs, b: Regs, c: Regs, n: nat, m: nat)
    requires Keeps(a, b, n) && Keeps(b, c, m) && n <= m
    ensures Keeps(a, c, n)
  {
  }

  lemma KeepsNew(a: Regs, b: Regs, n: nat, r: nat, v: RegValue)
    requires Keeps(a, b, n) && n <= r
    ensures Keeps(a, b[r := v], n)
  {
  }

  lemma KeepsRefl(a: Regs, n: nat)
    ensures Keeps(a, a, n)
  {
  }

  /** Evaluating an expression only adds cells, so every binding still holds. */
  lemma {:induction false} HoldsLater(env: Env, slots: Slots, regs: Regs, mem: Memory, regs': Regs, mem': Memory,
      n: nat)
    requires Holds(env, slots, regs, mem) && SlotsBelow(slots, n)
    requires Keeps(regs, regs', n) && mem <= mem'
    ensures Holds(env, slots, regs', mem')
  {
    forall i | 0 <= i < |env|
      ensures SlotHolds(env[i], slots[i], regs', mem') && regs'[slots[i].reg] == regs[slots[i].reg]
    {
      assert SlotHolds(env[i], slots[i], regs, mem);
      assert slots[i].reg < n;
    }
  }

  lemma {:induction false} HoldsTail(env: Env, slots: Slots, regs: Regs, mem: Memory)
    requires Holds(env, slots, regs, mem) && env != []
    ensures Holds(env[1..], slots[1..], regs, mem)
  {
    forall i | 0 <= i < |env[1..]|
      ensures SlotHolds(env[1..][i], slots[1..][i], regs, mem)
    {
      assert SlotHolds(env[i + 1], slots[i + 1], regs, mem);
    }
    forall i, j | 0 <= i < j < |slots[1..]|
      ensures regs[slots[1..][i].reg] != regs[slots[1..][j].reg]
    {
      assert regs[slots[i + 1].reg] != regs[slots[j + 1].reg];
    }
  }

  lemma {:induction false} HoldsSuffix(env: Env, slots: Slots, regs: Regs, mem: Memory, k: nat)
    requires Holds(env, slots, regs, mem) && k <= |env|
    ensures Holds(env[k..], slots[k..], regs, mem)
    decreases k
  {
    if k == 0 {
      assert env[0..] == env && slots[0..] == slots;
    } else {
      HoldsTail(env, slots, regs, mem);
      HoldsSuffix(env[1..], slots[1..], regs, mem, k - 1);
      assert env[1..][k - 1..] == env[k..] && slots[1..][k - 1..] == slots[k..];
    }
  }

  /** Where a visible name lives. */
  lemma {:induction false} FindSlot(env: Env, slots: Slots, regs: Regs, mem: Memory, x: Name) returns (i: nat)
    requires Holds(env, slots, regs, mem)
    requires Lookup(env, x).Some? || SlotOf(slots, x).Some?
    ensures i < |env| && i < |slots| && slots[i].name == x && SlotOf(slots, x) == Some(slots[i].reg)
    ensures Lookup(env, x) == Some(env[i].value) && SlotHolds(env[i], slots[i], regs, mem)
    ensures forall j :: 0 <= j < i ==> env[j].name != x
    decreases env
  {
    hide Holds;
    HoldsFirst(env, slots, regs, mem);
    assert env != [];
    if env[0].name == x {
      i := 0;
    } else {
      HoldsTail(env, slots, regs, mem);
      i := FindSlot(env[1..], slots[1..], regs, mem, x);
      assert forall j :: 1 <= j < i + 1 ==> env[j] == env[1..][j - 1];
      i := i + 1;
    }
  }

  lemma HoldsFirst(env: Env, slots: Slots, regs: Regs, mem: Memory)
    requires Holds(env, slots, regs, mem)
    ensures |env| == |slots| && (env != [] ==> SlotHolds(env[0], slots[0], regs, mem))
  {
  }

  /** Binding a fresh cell. */
  lemma {:induction false} HoldsPush(env: Env, slots: Slots, regs: Regs, mem: Memory, x: Name, v: Value, n: nat)
    requires Holds(env, slots, regs, mem) && SlotsBelow(slots, n)
    ensures Holds([Binding(x, v)] + env, [Slot(x, n)] + slots, regs[n := Address(|mem|, [])], mem + [Some(v)])
  {
    var regs1, mem1 := regs[n := Address(|mem|, [])], mem + [Some(v)];
    HoldsLater(env, slots, regs, mem, regs1, mem1, n);
    var env1, slots1 := [Binding(x, v)] + env, [Slot(x, n)] + slots;
    forall i | 0 <= i < |env1|
      ensures SlotHolds(env1[i], slots1[i], regs1, mem1)
      ensures 0 < i ==> regs1[slots1[i].reg].cell < |mem|
    {
      if 0 < i {
        assert SlotHolds(env[i - 1], slots[i - 1], regs1, mem1);
        assert SlotHolds(env[i - 1], slots[i - 1], regs, mem);
        assert slots[i - 1].reg < n;
      }
    }
    forall i, j | 0 <= i < j < |slots1|
      ensures regs1[slots1[i].reg] != regs1[slots1[j].reg]
    {
      assert regs1[slots1[j].reg].cell < |mem|;
      if 0 < i {
        assert regs1[slots[i - 1].reg] != regs1[slots[j - 1].reg];
      }
    }
  }

  /** Overwriting the cell of one binding. */
  lemma {:induction false} HoldsStore(env: Env, slots: Slots, regs: Regs, mem: Memory, i: nat, v: Value)
    requires Holds(env, slots, regs, mem) && i < |env|
    ensures
      var cell := regs[slots[i].reg].cell;
      cell < |mem| && Holds(env[i := Binding(env[i].name, v)], slots, regs, mem[cell := Some(v)])
  {
    assert SlotHolds(env[i], slots[i], regs, mem);
    var cell := regs[slots[i].reg].cell;
    var env1, mem1 := env[i := Binding(env[i].name, v)], mem[cell := Some(v)];
    forall j | 0 <= j < |env|
      ensures SlotHolds(env1[j], slots[j], regs, mem1)
    {
      assert SlotHolds(env[j], slots[j], regs, mem);
      if j < i {
        assert regs[slots[j].reg] != regs[slots[i].reg];
      } else if i < j {
        assert regs[slots[i].reg] != regs[slots[j].reg];
      }
    }
  }

  /** a is the cell of a visible binding. */
  predicate Owned(slots: Slots, regs: Regs, a: nat) {
    exists i :: 0 <= i < |slots| && PointsTo(regs, slots[i].reg, a)
  }

  lemma {:induction false} OwnedInMemory(env: Env, slots: Slots, regs: Regs, mem: Memory, a: nat)
    requires Holds(env, slots, regs, mem) && Owned(slots, regs, a)
    ensures a < |mem|
  {
    var i :| 0 <= i < |slots| && PointsTo(regs, slots[i].reg, a);
    assert SlotHolds(env[i], slots[i], regs, mem);
  }

  /** Writing a cell that no binding owns. */
  lemma {:induction false} HoldsUnowned(env: Env, slots: Slots, regs: Regs, mem: Memory, cell: nat, v: Value)
    requires Holds(env, slots, regs, mem) && cell < |mem| && !Owned(slots, regs, cell)
    ensures Holds(env, slots, regs, mem[cell := Some(v)])
  {
    forall i | 0 <= i < |env|
      ensures SlotHolds(env[i], slots[i], regs, mem[cell := Some(v)])
    {
      assert SlotHolds(env[i], slots[i], regs, mem);
      assert PointsTo(regs, slots[i].reg, regs[slots[i].reg].cell);
    }
  }

  /** Binding an existing cell that no binding owns. */
  lemma {:induction false} HoldsBind(env: Env, slots: Slots, regs: Regs, mem: Memory, x: Name, v: Value, n: nat,
      cell: nat)
    requires Holds(env, slots, regs, mem) && PointsTo(regs, n, cell) && cell < |mem| && mem[cell] == Some(v)
    requires !Owned(slots, regs, cell)
    ensures Holds([Binding(x, v)] + env, [Slot(x, n)] + slots, regs, mem)
  {
    var env1, slots1 := [Binding(x, v)] + env, [Slot(x, n)] + slots;
    forall i | 0 <= i < |env1|
      ensures SlotHolds(env1[i], slots1[i], regs, mem)
      ensures 0 < i ==> regs[slots1[i].reg] != regs[n]
    {
      if 0 < i {
        assert SlotHolds(env[i - 1], slots[i - 1], regs, mem);
        assert !PointsTo(regs, slots[i - 1].reg, cell);
      }
    }
    forall i, j | 0 <= i < j < |slots1|
      ensures regs[slots1[i].reg] != regs[slots1[j].reg]
    {
      if 0 < i {
        assert regs[slots[i - 1].reg] != regs[slots[j - 1].reg];
      }
    }
  }

  /** Only visible bindings and new cells changed. */
  ghost predicate Frame(mem: Memory, mem': Memory, slots: Slots, regs: Regs) {
    && |mem| <= |mem'|
    && forall a: nat :: a < |mem| && !Owned(slots, regs, a) ==> mem'[a] == mem[a]
  }

  lemma FramePrefix(mem: Memory, mem': Memory, slots: Slots, regs: Regs)
    requires mem <= mem'
    ensures Frame(mem, mem', slots, regs)
  {
  }

  /** Frames compose: later bindings are old ones or live in new cells. */
  lemma {:induction false} FrameTransitive(m0: Memory, m1: Memory, m2: Memory, slots: Slots, regs: Regs,
      slots1: Slots, regs1: Regs)
    requires Frame(m0, m1, slots, regs) && Frame(m1, m2, slots1, regs1)
    requires forall a: nat :: a < |m0| && Owned(slots1, regs1, a) ==> Owned(slots, regs, a)
    ensures Frame(m0, m2, slots, regs)
  {
    forall a: nat | a < |m0| && !Owned(slots, regs, a)
      ensures m2[a] == m0[a]
    {
      assert m1[a] == m0[a];
      assert !Owned(slots1, regs1, a);
    }
  }

  /** Ownership does not depend on registers above n. */
  lemma {:induction false} OwnedKeeps(slots: Slots, regs: Regs, regs': Regs, env: Env, mem: Memory, n: nat, a: nat)
    requires Holds(env, slots, regs, mem) && SlotsBelow(slots, n) && Keeps(regs, regs', n)
    ensures Owned(slots, regs', a) <==> Owned(slots, regs, a)
  {
    forall i | 0 <= i < |slots|
      ensures PointsTo(regs', slots[i].reg, a) <==> PointsTo(regs, slots[i].reg, a)
    {
      assert SlotHolds(env[i], slots[i], regs, mem);
      assert slots[i].reg < n;
    }
  }

  lemma {:induction false} RunThen(p: Program, s: State, j: nat, t: State, k: nat, u: State)
    requires Run(p, s, j) == t && Run(p, t, k) == u
    ensures Run(p, s, j + k) == u
  {
    RunAdd(p, s, j, k);
  }

  lemma {:induction false} RunOne(p: Program, s: State)
    ensures Run(p, s, 1) == Step(p, s)
  {
    assert Run(p, Step(p, s), 0) == Step(p, s);
  }

  predicate Computes(i: Instr) {
    match i
    case Load(_, _) => true
    case StrAddr(_, _) => true
    case Neg(_, _) => true
    case Xor(_, _) => true
    case Arith(_, _, _, _) => true
    case IcmpEq(_, _, _) => true
    case StrCmp(_, _, _) => true
    case AndI1(_, _, _) => true
    case InsertFlag(_, _, _) => true
    case InsertPayload(_, _, _) => true
    case Extract(_, _, _) => true
    case Gep(_, _, _) => true
    case SizeGep(_, _) => true
    case PtrToInt(_, _) => true
    case _ => false
  }

  /** One instruction that only defines its register. */
  lemma {:induction false} RunCompute(p: Program, pc: nat, regs: Regs, mem: Memory, tr: Trace, i: Instr, v: RegValue)
    requires CodeAt(p.code, pc, [i]) && Computes(i) && Compute(regs, mem, i) == Some(v)
    ensures Run(p, Running(pc, regs, mem, tr), 1) == Running(pc + 1, regs[i.r := v], mem, tr)
  {
    hide Run, Compute;
    CodeIndex(p.code, pc, [i], 0);
    RunOne(p, Running(pc, regs, mem, tr));
  }

  lemma {:induction false} RunAlloca(p: Program, pc: nat, regs: Regs, mem: Memory, tr: Trace, r: nat)
    requires CodeAt(p.code, pc, [Alloca(r)])
    ensures Run(p, Running(pc, regs, mem, tr), 1) == Running(pc + 1, regs[r := Address(|mem|, [])], mem + [None], tr)
  {
    hide Run, Compute;
    CodeIndex(p.code, pc, [Alloca(r)], 0);
    RunOne(p, Running(pc, regs, mem, tr));
  }

  lemma {:induction false} RunStore(p: Program, pc: nat, regs: Regs, mem: Memory, tr: Trace, v: Operand, ptr: nat,
      x: Value, cell: nat)
    requires CodeAt(p.code, pc, [Store(v, ptr)]) && ValueOf(regs, v) == Some(x)
    requires PointsTo(regs, ptr, cell) && cell < |mem|
    ensures Run(p, Running(pc, regs, mem, tr), 1) == Running(pc + 1, regs, mem[cell := Some(x)], tr)
  {
    hide Run, Compute;
    CodeIndex(p.code, pc, [Store(v, ptr)], 0);
    RunOne(p, Running(pc, regs, mem, tr));
  }

  /** A value put into a fresh cell. */
  lemma {:induction false} RunSpill(p: Program, pc: nat, regs: Regs, mem: Memory, tr: Trace, v: Operand, n: nat,
      x: Value)
    requires CodeAt(p.code, pc, Spill(v, n)) && ValueOf(regs, v) == Some(x) && Below(v, n)
    ensures Run(p, Running(pc, regs, mem, tr), 2) == Running(pc + 2, regs[n := Address(|mem|, [])], mem + [Some(x)], tr)
  {
    hide Run, Step;
    assert Spill(v, n) == [Alloca(n)] + [Store(v, n)];
    CodeSplit(p.code, pc, [Alloca(n)], [Store(v, n)]);
    var regs1, mem1 := regs[n := Address(|mem|, [])], mem + [None];
    RunAlloca(p, pc, regs, mem, tr, n);
    assert ValueOf(regs1, v) == Some(x);
    RunStore(p, pc + 1, regs1, mem1, tr, v, n, x, |mem|);
    assert mem1[|mem| := Some(x)] == mem + [Some(x)];
    RunThen(p, Running(pc, regs, mem, tr), 1, Running(pc + 1, regs1, mem1, tr), 1,
      Running(pc + 2, regs1, mem + [Some(x)], tr));
  }

  /** Jumping to the label at index i. */
  lemma {:induction false} GotoLabel(p: Program, l: nat, i: nat, regs: Regs, mem: Memory, tr: Trace)
    requires OneLabelEach(p.code) && i < |p.code| && p.code[i] == Label(l)
    ensures Goto(p, l, regs, mem, tr) == Running(i + 1, regs, mem, tr)
  {
    FoundWhereDefined(p.code, l, i);
  }

  lemma {:induction false} RunBr(p: Program, pc: nat, regs: Regs, mem: Memory, tr: Trace, l: nat, i: nat)
    requires CodeAt(p.code, pc, [Br(l)]) && OneLabelEach(p.code) && CodeAt(p.code, i, [Label(l)])
    ensures Run(p, Running(pc, regs, mem, tr), 1) == Running(i + 1, regs, mem, tr)
  {
    hide Run, Compute;
    CodeIndex(p.code, pc, [Br(l)], 0);
    CodeIndex(p.code, i, [Label(l)], 0);
    GotoLabel(p, l, i, regs, mem, tr);
    RunOne(p, Running(pc, regs, mem, tr));
  }

  /** A conditional branch to the label at index i. */
  lemma {:induction false} RunBranch(p: Program, pc: nat, regs: Regs, mem: Memory, tr: Trace, v: Operand, l: nat,
      other: nat, b: bool, i: nat)
    requires CodeAt(p.code, pc, [CondBr(v, l, other)]) && OneLabelEach(p.code) && ValueOf(regs, v) == Some(VBool(b))
    requires CodeAt(p.code, i, [Label(if b then l else other)])
    ensures Run(p, Running(pc, regs, mem, tr), 1) == Running(i + 1, regs, mem, tr)
  {
    hide Run, Compute;
    CodeIndex(p.code, pc, [CondBr(v, l, other)], 0);
    CodeIndex(p.code, i, [Label(if b then l else other)], 0);
    GotoLabel(p, if b then l else other, i, regs, mem, tr);
    RunOne(p, Running(pc, regs, mem, tr));
  }

  lemma {:induction false} BranchParts(code: seq<Instr>, pc: nat, v: Operand, l: nat, other: nat, next: nat)
    requires CodeAt(code, pc, BranchTo(v, l, other, next))
    ensures CodeAt(code, pc, [CondBr(v, l, other)]) && CodeAt(code, pc + 1, [Label(next)])
  {
    assert BranchTo(v, l, other, next) == [CondBr(v, l, other)] + [Label(next)];
    CodeSplit(code, pc, [CondBr(v, l, other)], [Label(next)]);
  }

  lemma {:induction false} JumpIntoParts(code: seq<Instr>, pc: nat, l: nat)
    requires CodeAt(code, pc, JumpInto(l))
    ensures CodeAt(code, pc, [Br(l)]) && CodeAt(code, pc + 1, [Label(l)])
  {
    assert JumpInto(l) == [Br(l)] + [Label(l)];
    CodeSplit(code, pc, [Br(l)], [Label(l)]);
  }

  /** Entering a loop from above. */
  lemma {:induction false} RunJumpInto(p: Program, pc: nat, regs: Regs, mem: Memory, tr: Trace, l: nat)
    requires CodeAt(p.code, pc, JumpInto(l)) && OneLabelEach(p.code)
    ensures Run(p, Running(pc, regs, mem, tr), 1) == Running(pc + 2, regs, mem, tr)
  {
    JumpIntoParts(p.code, pc, l);
    RunBr(p, pc, regs, mem, tr, l, pc + 1);
  }

  /** Storing to a cell and jumping to the join, which reads it back into n. */
  lemma {:induction false} RunToJoin(p: Program, pc: nat, join: nat, regs: Regs, mem: Memory, tr: Trace, v: Operand,
      ptr: nat, x: Value, cell: nat, merge: nat, n: nat)
    requires CodeAt(p.code, pc, StoreAndGo(v, ptr, merge)) && CodeAt(p.code, join, Join(ptr, merge, n))
    requires OneLabelEach(p.code)
    requires ValueOf(regs, v) == Some(x) && PointsTo(regs, ptr, cell) && cell < |mem|
    ensures Run(p, Running(pc, regs, mem, tr), 3) == Running(join + 2, regs[n := Data(x)], mem[cell := Some(x)], tr)
  {
    hide Run, Step, OneLabelEach;
    var mem1 := mem[cell := Some(x)];
    assert Join(ptr, merge, n) == [Label(merge)] + [Load(n, ptr)];
    CodeSplit(p.code, join, [Label(merge)], [Load(n, ptr)]);
    RunStoreAndGo(p, pc, join, regs, mem, tr, v, ptr, x, cell, merge);
    RunCompute(p, join + 1, regs, mem1, tr, Load(n, ptr), Data(x));
    RunThen(p, Running(pc, regs, mem, tr), 2, Running(join + 1, regs, mem1, tr), 1,
      Running(join + 2, regs[n := Data(x)], mem1, tr));
  }

  lemma {:induction false} RunStoreAndGo(p: Program, pc: nat, join: nat, regs: Regs, mem: Memory, tr: Trace,
      v: Operand, ptr: nat, x: Value, cell: nat, l: nat)
    requires CodeAt(p.code, pc, StoreAndGo(v, ptr, l)) && CodeAt(p.code, join, [Label(l)]) && OneLabelEach(p.code)
    requires ValueOf(regs, v) == Some(x) && PointsTo(regs, ptr, cell) && cell < |mem|
    ensures Run(p, Running(pc, regs, mem, tr), 2) == Running(join + 1, regs, mem[cell := Some(x)], tr)
  {
    hide Run, Step, OneLabelEach;
    assert StoreAndGo(v, ptr, l) == [Store(v, ptr)] + [Br(l)];
    CodeSplit(p.code, pc, [Store(v, ptr)], [Br(l)]);
    var mem1 := mem[cell := Some(x)];
    RunStore(p, pc, regs, mem, tr, v, ptr, x, cell);
    RunBr(p, pc + 1, regs, mem1, tr, l, join);
    RunThen(p, Running(pc, regs, mem, tr), 1, Running(pc + 1, regs, mem1, tr), 1, Running(join + 1, regs, mem1, tr));
  }
}
