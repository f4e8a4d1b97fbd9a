/** Bodies the checker accepts although they read the value of an err. */
module ResultFlowGaps {
  import opened Ir
  import opened Values
  import opened IrSemantics
  import opened Source
  import opened GuaranteedReturn
  import opened ResultFlow
  import opened ResultFlowProof
  import opened ResultFlowTheorem

  /** No deferred statement is pending. */
  const NOTHING: seq<set<Due>> := [{}]

  const READ_OK: SExpr := SField(SName("r"), OkField)
  const STALE_IF: SStmt := SIfElse(READ_OK, [SAssign("r", SErr(TResult(TInt)))], [SReturn(None)])
  const STALE_READ: SStmt := SLet("v", false, TInt, SField(SName("r"), ValueField))
  const STALE: seq<SStmt> := [SLet("r", true, TResult(TInt), SOk(SInt(1))), STALE_IF, STALE_READ]

  /** `let mut r = ok 1; if r.ok { r = err; } else { return; } let v = r.value;` is accepted, and
      reads the value of an err: stability cannot be dropped. */
  lemma {:induction false} StaleProofAccepted(c: Context, fuel: nat, tr: Trace)
    ensures
      var r := CheckStmts(Flow([], [{}]), NOTHING, STALE);
      r.accepted && !r.stable && !SafeRest(c, fuel, [], [], [[]], tr, STALE)
  {
    StaleChecks();
    StaleRuns(c, fuel, tr);
  }

  const STALE_INFO: Info := Info("r", true, TResult(TInt), None)

  lemma {:induction false} StaleProof()
    ensures
      var p := BuildProof([STALE_INFO], READ_OK, 0);
      Find([STALE_INFO], "r") == Some(0) && Marks(p, true) == {0} && Marks(p, false) == {}
  {
    assert BuildProof([STALE_INFO], READ_OK, 0) == Some(Leaf(0, true));
  }

  lemma {:induction false} StaleThen()
    ensures CheckBlock(Flow([STALE_INFO], [{}]), NOTHING, {0}, STALE_IF.thenBlock) ==
      Checked(Flow([STALE_INFO], [{}]), true, true)
  {
    var t, inner := STALE_IF.thenBlock, Flow([STALE_INFO], [{0}, {}]);
    StaleProof();
    var gone := Invalidate(inner, 0);
    assert gone.infos == [STALE_INFO];
    assert gone.guards[0] == {} && gone.guards[1] == {} && gone.guards == [{}, {}];
    assert CheckStmt(inner, [{}] + NOTHING, t[0]) == Checked(gone, true, true);
    assert t[1..] == [];
    assert CheckStmts(gone, [{}] + NOTHING, []) == Checked(gone, true, true);
    assert CheckStmts(inner, [{}] + NOTHING, t) == Checked(gone, true, true);
    assert [{0}] + [{}] == inner.guards;
  }

  lemma {:induction false} StaleElse()
    ensures CheckBlock(Flow([STALE_INFO], [{}]), NOTHING, {}, STALE_IF.elseBlock) ==
      Checked(Flow([STALE_INFO], [{}]), true, true)
  {
    var f, inner := STALE_IF.elseBlock, Enter(Flow([STALE_INFO], [{}]), {});
    assert CheckStmt(inner, [{}] + NOTHING, f[0]) == Checked(inner, true, true);
    assert f[1..] == [];
    assert CheckStmts(inner, [{}] + NOTHING, f) == Checked(inner, true, true);
  }

  lemma {:induction false} StaleIfChecks()
    ensures
      var r := CheckIfElse(Flow([STALE_INFO], [{}]), NOTHING, STALE_IF);
      r.flow == Flow([STALE_INFO], [{0}]) && r.accepted && !r.stable
  {
    hide CheckBlock, BuildProof, Marks;
    var t, f, flow := STALE_IF.thenBlock, STALE_IF.elseBlock, Flow([STALE_INFO], [{}]);
    StaleProof();
    StaleThen();
    StaleElse();
    assert BlockReturns(f) && !BlockReturns(t) by { assert !BlockReturns(t[1..]); }
    assert NamesIn([STALE_INFO]) == ["r"] by { assert [STALE_INFO][1..] == []; }
    assert 0 in AssignedBy(["r"], t[0]).spoiled && 0 in Assigned(["r"], t).spoiled;
    assert flow.guards[0] + {0} == {0} && Mark(flow, {0}) == Flow([STALE_INFO], [{0}]);
    assert Mark(flow, {0}).guards[0] + {} == {0} && Mark(Mark(flow, {0}), {}) == Flow([STALE_INFO], [{0}]);
  }

  lemma {:induction false} MakeChecks()
    ensures CheckStmt(Flow([], [{}]), NOTHING, STALE[0]) == Checked(Flow([STALE_INFO], [{}]), true, true)
  {
    assert [STALE_INFO] + [] == [STALE_INFO];
  }

  lemma {:induction false} StaleChecks()
    ensures var r := CheckStmts(Flow([], [{}]), NOTHING, STALE); r.accepted && !r.stable
  {
    hide CheckStmt;
    var flow1, flow2 := Flow([STALE_INFO], [{}]), Flow([STALE_INFO], [{0}]);
    MakeChecks();
    StaleIfChecks();
    StaleReadChecks();
    assert STALE[1..] == [STALE_IF, STALE_READ] && [STALE_IF, STALE_READ][1..] == [STALE_READ];
    IfElseChecks(flow1, STALE_IF);
    assert CheckStmts(flow1, NOTHING, [STALE_IF, STALE_READ]).accepted;
    assert !CheckStmts(flow1, NOTHING, [STALE_IF, STALE_READ]).stable;
  }

  lemma IfElseChecks(flow: Flow, s: SStmt)
    requires flow.guards != [] && s.SIfElse?
    ensures CheckStmt(flow, NOTHING, s) == CheckIfElse(flow, NOTHING, s)
  {
  }

  lemma {:induction false} StaleReadChecks()
    ensures CheckStmts(Flow([STALE_INFO], [{0}]), NOTHING, [STALE_READ]).accepted
  {
    var flow := Flow([STALE_INFO], [{0}]);
    StaleProof();
    assert 0 in flow.guards[0];
    assert AcceptsExpr(flow, STALE_READ.init);
    assert [STALE_READ][1..] == [];
    assert CheckStmts(CheckStmt(flow, NOTHING, STALE_READ).flow, NOTHING, []).accepted;
  }

  lemma {:induction false} StaleIfRuns(c: Context, fuel: nat, tr: Trace)
    ensures ExecS(c, fuel, [Binding(User("r"), VResult(true, VInt(1)))], [], [[]], tr, STALE_IF) ==
      Next([Binding(User("r"), VResult(false, VInt(0)))], tr)
  {
    var b1, b2 := Binding(User("r"), VResult(true, VInt(1))), Binding(User("r"), VResult(false, VInt(0)));
    var t := STALE_IF.thenBlock;
    assert Lookup([b1], User("r")) == Some(b1.value);
    assert EvalS(c.o, c.cs, |c.cs|, [b1], [], tr, SName("r")) == Val(b1.value, tr);
    assert EvalS(c.o, c.cs, |c.cs|, [b1], [], tr, READ_OK) == Val(VBool(true), tr);
    assert t[1..] == [] && [b2] + [b1][1..] == [b2];
    assert Update([b1], User("r"), b2.value) == [b2];
    var frames: seq<Frame> := [[], []];
    assert [[]] + [[]] == frames;
    assert ExecS(c, fuel, [b1], [], frames, tr, t[0]) == Next([b2], tr);
    assert ExecRest(c, fuel, [b2], [], frames, tr, []) == Next([b2], tr);
    assert ExecRest(c, fuel, [b1], [], frames, tr, t) == Next([b2], tr);
    assert [b2][0..] == [b2];
  }

  lemma {:induction false} StaleRuns(c: Context, fuel: nat, tr: Trace)
    ensures !SafeRest(c, fuel, [], [], [[]], tr, STALE)
  {
    var b1, b2 := Binding(User("r"), VResult(true, VInt(1))), Binding(User("r"), VResult(false, VInt(0)));
    StaleIfRuns(c, fuel, tr);
    assert STALE[1..] == [STALE_IF, STALE_READ] && STALE[1..][1..] == [STALE_READ];
    assert [b1] + [] == [b1];
    assert ExecS(c, fuel, [], [], [[]], tr, STALE[0]) == Next([b1], tr) by {
      assert EvalS(c.o, c.cs, |c.cs|, [], [], tr, SInt(1)) == Val(VInt(1), tr);
    }
    assert Lookup([b2], User("r")) == Some(b2.value);
    assert EvalS(c.o, c.cs, |c.cs|, [b2], [], tr, SName("r")) == Val(b2.value, tr);
    assert !SafeExpr(c, |c.cs|, [b2], [], tr, STALE_READ.init);
    assert !SafeRest(c, fuel, [b2], [], [[]], tr, [STALE_READ]);
    assert !SafeRest(c, fuel, [b1], [], [[]], tr, [STALE_IF, STALE_READ]);
  }

  // Deferred statements and loops

  const MAKE: SStmt := SLet("r", true, TResult(TInt), SOk(SInt(1)))
  const RENEW: SStmt := SAssign("r", SOk(SInt(1)))
  const SPOIL: SStmt := SAssign("r", SErr(TResult(TInt)))
  const READ_VALUE: SExpr := SField(SName("r"), ValueField)
  const OK_R: Binding := Binding(User("r"), VResult(true, VInt(1)))
  const ERR_R: Binding := Binding(User("r"), VResult(false, VInt(0)))

  /** `let mut r = ok 1; r = ok 1; defer r.value; r = err;` */
  const LATER: seq<SStmt> := [MAKE, RENEW, SDefer(DeferExpr(READ_VALUE)), SPOIL]

  /** `let mut r = ok 1; r = ok 1; loop { let v = r.value; r = err; }` */
  const TURNS: seq<SStmt> := [MAKE, RENEW, SLoop([STALE_READ, SPOIL])]

  const PROVEN: Flow := Flow([STALE_INFO], [{0}])
  const UNPROVEN: Flow := Flow([STALE_INFO], [{}])

  lemma {:induction false} ProvenStart(ss: seq<SStmt>)
    ensures
      var r, rest := CheckStmts(Flow([], [{}]), NOTHING, [MAKE, RENEW] + ss), CheckStmts(PROVEN, NOTHING, ss);
      r.accepted == rest.accepted && r.stable == rest.stable
  {
    hide BuildProof;
    StaleProof();
    var all := [MAKE, RENEW] + ss;
    assert all[1..] == [RENEW] + ss && all[1..][1..] == ss;
    assert [STALE_INFO] + [] == [STALE_INFO];
    assert CheckStmt(Flow([], [{}]), NOTHING, MAKE) == Checked(UNPROVEN, true, true);
    var gone := Invalidate(UNPROVEN, 0);
    assert gone.infos == [STALE_INFO] && gone.guards[0] == {} && gone.guards == [{}];
    assert Mark(gone, {0}).guards[0] == {0} && Mark(gone, {0}) == PROVEN;
    assert CheckStmt(UNPROVEN, NOTHING, RENEW) == Checked(PROVEN, true, true);
    assert CheckStmts(UNPROVEN, NOTHING, [RENEW] + ss).accepted == CheckStmts(PROVEN, NOTHING, ss).accepted;
  }

  lemma {:induction false} ProvenRun(c: Context, fuel: nat, tr: Trace, ss: seq<SStmt>)
    requires !SafeRest(c, fuel, [OK_R], [], [[]], tr, ss)
    ensures !SafeRest(c, fuel, [], [], [[]], tr, [MAKE, RENEW] + ss)
  {
    var all := [MAKE, RENEW] + ss;
    assert all[1..] == [RENEW] + ss && all[1..][1..] == ss;
    assert [OK_R] + [] == [OK_R] && [OK_R] + [OK_R][1..] == [OK_R];
    assert EvalS(c.o, c.cs, |c.cs|, [], [], tr, SInt(1)) == Val(VInt(1), tr);
    assert ExecS(c, fuel, [], [], [[]], tr, MAKE) == Next([OK_R], tr);
    assert Update([OK_R], User("r"), OK_R.value) == [OK_R];
    assert EvalS(c.o, c.cs, |c.cs|, [OK_R], [], tr, SInt(1)) == Val(VInt(1), tr);
    assert ExecS(c, fuel, [OK_R], [], [[]], tr, RENEW) == Next([OK_R], tr);
    assert !SafeRest(c, fuel, [OK_R], [], [[]], tr, [RENEW] + ss);
  }

  lemma {:induction false} SpoilRuns(c: Context, fuel: nat, frames: seq<Frame>, tr: Trace)
    ensures ExecS(c, fuel, [OK_R], [], frames, tr, SPOIL) == Next([ERR_R], tr)
    ensures ExecS(c, fuel, [Binding(User("v"), VInt(1)), OK_R], [], frames, tr, SPOIL) ==
      Next([Binding(User("v"), VInt(1)), ERR_R], tr)
  {
    var v := Binding(User("v"), VInt(1));
    assert [ERR_R] + [OK_R][1..] == [ERR_R] && Update([OK_R], User("r"), ERR_R.value) == [ERR_R];
    assert [v, OK_R][1..] == [OK_R] && [v] + [ERR_R] == [v, ERR_R];
    assert Update([v, OK_R], User("r"), ERR_R.value) == [v, ERR_R];
    assert Lookup([OK_R], User("r")) == Some(OK_R.value);
    assert Lookup([v, OK_R], User("r")) == Some(OK_R.value);
  }

  lemma {:induction false} ErrRead(c: Context, tr: Trace)
    ensures !SafeExpr(c, |c.cs|, [ERR_R], [], tr, READ_VALUE)
  {
    assert Lookup([ERR_R], User("r")) == Some(ERR_R.value);
    assert EvalS(c.o, c.cs, |c.cs|, [ERR_R], [], tr, SName("r")) == Val(ERR_R.value, tr);
  }

  lemma {:induction false} NotProven(infos: seq<Info>, guards: seq<set<nat>>)
    requires infos == [STALE_INFO] && (guards == [{}] || guards == [{}, {}])
    ensures !AcceptsExpr(Flow(infos, guards), READ_VALUE)
  {
    StaleProof();
  }

  /** A deferred read is checked where it is written and runs after the result is spoiled. */
  lemma {:induction false} DeferredReadAccepted(c: Context, fuel: nat, tr: Trace)
    ensures
      var r := CheckStmts(Flow([], [{}]), NOTHING, LATER);
      r.accepted && !r.stable && !SafeRest(c, fuel, [], [], [[]], tr, LATER)
  {
    var rest := [SDefer(DeferExpr(READ_VALUE)), SPOIL];
    assert LATER == [MAKE, RENEW] + rest;
    ProvenStart(rest);
    LaterChecks();
    LaterRuns(c, fuel, tr);
    ProvenRun(c, fuel, tr, rest);
  }

  lemma {:induction false} SpoilForgets(pending: seq<set<Due>>)
    ensures CheckStmt(PROVEN, pending, SPOIL) == Checked(UNPROVEN, true, true)
  {
    StaleProof();
    var gone := Invalidate(PROVEN, 0);
    assert gone.infos == [STALE_INFO] && gone.guards[0] == {} && gone == UNPROVEN;
  }

  lemma {:induction false} NotDue(due: set<Due>)
    requires Due(DeferExpr(READ_VALUE), 1) in due
    ensures !AcceptsDue(UNPROVEN, due)
  {
    var trimmed := Trim(UNPROVEN, 1);
    assert trimmed.guards[0] == {} && trimmed.guards == [{}] && trimmed.infos == [STALE_INFO];
    NotProven(trimmed.infos, trimmed.guards);
  }

  lemma {:induction false} LaterChecks()
    ensures
      var r := CheckStmts(PROVEN, NOTHING, [SDefer(DeferExpr(READ_VALUE)), SPOIL]);
      r.accepted && !r.stable
  {
    hide CheckStmt, AcceptsDue;
    var rest := [SDefer(DeferExpr(READ_VALUE)), SPOIL];
    var pending := [NOTHING[0] + {Due(DeferExpr(READ_VALUE), 1)}] + NOTHING[1..];
    StaleProof();
    assert 0 in PROVEN.guards[0] && AcceptsExpr(PROVEN, READ_VALUE);
    assert rest[1..] == [SPOIL] && [SPOIL][1..] == [];
    SpoilForgets(pending);
    NotDue(pending[0]);
    assert CheckStmts(UNPROVEN, pending, []) == Checked(UNPROVEN, true, false);
    assert CheckStmts(PROVEN, pending, [SPOIL]) == Checked(UNPROVEN, true, false);
  }

  const OWN: Frame := [Pending(DeferExpr(READ_VALUE), 1, 0)]

  lemma {:induction false} OwnFails(c: Context, tr: Trace)
    ensures !SafeFrame(c, [ERR_R], [], tr, OWN)
  {
    hide SafeExpr;
    assert Innermost([ERR_R], 1) == [ERR_R];
    ErrRead(c, tr);
    assert !SafeEntry(c, [ERR_R], [], tr, OWN[0]);
  }

  lemma {:induction false} SpoilThenExit(c: Context, fuel: nat, tr: Trace)
    ensures !SafeRest(c, fuel, [OK_R], [], [OWN], tr, [SPOIL])
  {
    hide ExecS, SafeFrame;
    assert [SPOIL][1..] == [];
    SpoilRuns(c, fuel, [OWN], tr);
    OwnFails(c, tr);
    assert !SafeRest(c, fuel, [ERR_R], [], [OWN], tr, []);
  }

  lemma {:induction false} LaterRuns(c: Context, fuel: nat, tr: Trace)
    ensures !SafeRest(c, fuel, [OK_R], [], [[]], tr, [SDefer(DeferExpr(READ_VALUE)), SPOIL])
  {
    hide ExecS, SafeStmt, SafeFrame;
    var rest := [SDefer(DeferExpr(READ_VALUE)), SPOIL];
    var none: Frame := [];
    assert rest[1..] == [SPOIL];
    assert OWN + none == OWN && [OWN + none] + [none][1..] == [OWN];
    SpoilThenExit(c, fuel, tr);
  }

  /** A loop body is checked once, with what is known before its first turn. */
  lemma {:induction false} SecondTurnAccepted(c: Context, fuel: nat, tr: Trace)
    requires 2 <= fuel
    ensures
      var r := CheckStmts(Flow([], [{}]), NOTHING, TURNS);
      r.accepted && !r.stable && !SafeRest(c, fuel, [], [], [[]], tr, TURNS)
  {
    var rest := [SLoop([STALE_READ, SPOIL])];
    assert TURNS == [MAKE, RENEW] + rest;
    ProvenStart(rest);
    TurnsCheck();
    TurnsRun(c, fuel, tr);
    ProvenRun(c, fuel, tr, rest);
  }

  const VALUE_INFO: Info := Info("v", false, TInt, None)

  const READING: Flow := Flow([VALUE_INFO, STALE_INFO], [{}, {0}])
  const SPOILED: Flow := Flow([VALUE_INFO, STALE_INFO], [{}, {}])

  lemma {:induction false} ReadChecks(pending: seq<set<Due>>)
    ensures CheckStmt(Enter(PROVEN, {}), pending, STALE_READ) == Checked(READING, true, true)
    ensures !CheckStmt(Enter(UNPROVEN, {}), pending, STALE_READ).accepted
  {
    StaleProof();
    var inner, inner2 := Enter(PROVEN, {}), Enter(UNPROVEN, {});
    assert 0 in inner.guards[1] && AcceptsExpr(inner, READ_VALUE);
    NotProven(inner2.infos, inner2.guards);
  }

  lemma {:induction false} SpoilChecks(pending: seq<set<Due>>)
    ensures CheckStmt(READING, pending, SPOIL) == Checked(SPOILED, true, true)
  {
    StaleProof();
    assert READING.infos[1..] == [STALE_INFO] && Find(READING.infos, "r") == Some(0);
    var gone := Invalidate(READING, 0);
    assert gone.infos == READING.infos && gone.guards[0] == {} && gone.guards[1] == {} && gone == SPOILED;
  }

  lemma {:induction false} TurnChecks()
    ensures CheckBlock(PROVEN, NOTHING, {}, [STALE_READ, SPOIL]) == Checked(UNPROVEN, true, true)
    ensures !CheckBlock(UNPROVEN, NOTHING, {}, [STALE_READ, SPOIL]).accepted
  {
    hide CheckStmt;
    var body, pending := [STALE_READ, SPOIL], [{}] + NOTHING;
    assert body[1..] == [SPOIL] && [SPOIL][1..] == [];
    ReadChecks(pending);
    SpoilChecks(pending);
    assert CheckStmts(SPOILED, pending, []) == Checked(SPOILED, true, true);
    assert CheckStmts(READING, pending, [SPOIL]) == Checked(SPOILED, true, true);
    assert CheckStmts(Enter(PROVEN, {}), pending, body) == Checked(SPOILED, true, true);
    assert Exit(SPOILED, 1) == UNPROVEN;
  }

  lemma {:induction false} TurnsCheck()
    ensures
      var r := CheckStmts(PROVEN, NOTHING, [SLoop([STALE_READ, SPOIL])]);
      r.accepted && !r.stable
  {
    hide CheckBlock;
    var s := SLoop([STALE_READ, SPOIL]);
    TurnChecks();
    assert BuildProof(PROVEN.infos, SBool(true), 0) == None && BuildProof(UNPROVEN.infos, SBool(true), 0) == None;
    assert [s][1..] == [];
    assert CheckStmt(PROVEN, NOTHING, s) == Checked(UNPROVEN, true, false);
    assert CheckStmts(UNPROVEN, NOTHING, []).accepted;
  }

  lemma {:induction false} TurnRuns(c: Context, fuel: nat, frames: seq<Frame>, tr: Trace)
    ensures ExecInner(c, fuel, [OK_R], [], frames, tr, [STALE_READ, SPOIL]) == Next([ERR_R], tr)
    ensures !SafeInner(c, fuel, [ERR_R], [], frames, tr, [STALE_READ, SPOIL])
  {
    var body, inner, v := [STALE_READ, SPOIL], [[]] + frames, Binding(User("v"), VInt(1));
    assert body[1..] == [SPOIL] && [SPOIL][1..] == [];
    assert Lookup([OK_R], User("r")) == Some(OK_R.value);
    assert EvalS(c.o, c.cs, |c.cs|, [OK_R], [], tr, SName("r")) == Val(OK_R.value, tr);
    assert ExecS(c, fuel, [OK_R], [], inner, tr, STALE_READ) == Next([v, OK_R], tr);
    SpoilRuns(c, fuel, inner, tr);
    assert ExecRest(c, fuel, [v, ERR_R], [], inner, tr, []) == Next([v, ERR_R], tr);
    assert ExecRest(c, fuel, [v, OK_R], [], inner, tr, [SPOIL]) == Next([v, ERR_R], tr);
    assert ExecRest(c, fuel, [OK_R], [], inner, tr, body) == Next([v, ERR_R], tr);
    assert [v, ERR_R][1..] == [ERR_R];
    ErrRead(c, tr);
    assert !SafeStmt(c, fuel, [ERR_R], [], inner, tr, STALE_READ);
    assert !SafeRest(c, fuel, [ERR_R], [], inner, tr, body);
  }

  lemma {:induction false} TurnsRun(c: Context, fuel: nat, tr: Trace)
    requires 2 <= fuel
    ensures !SafeRest(c, fuel, [OK_R], [], [[]], tr, [SLoop([STALE_READ, SPOIL])])
  {
    hide ExecInner, SafeInner;
    var body := [STALE_READ, SPOIL];
    TurnRuns(c, fuel, [[]], tr);
    TurnRuns(c, fuel - 1, [[]], tr);
    assert EvalS(c.o, c.cs, |c.cs|, [OK_R], [], tr, SBool(true)) == Val(VBool(true), tr);
    assert EvalS(c.o, c.cs, |c.cs|, [ERR_R], [], tr, SBool(true)) == Val(VBool(true), tr);
    assert !SafeWhile(c, fuel - 1, [ERR_R], [], [[]], tr, SBool(true), body);
    assert !SafeWhile(c, fuel, [OK_R], [], [[]], tr, SBool(true), body);
  }
}
