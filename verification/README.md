# cnegative in Dafny

cnegative is a small compiler: lexer, parser, checker, typed IR, optimizer and an LLVM text
backend, with a tracking allocator of its own and a runtime it emits into every program. This
project models the parts of it that must preserve meaning or keep an invariant, and proves what
they preserve. `dafny verify dfyconfig.toml` checks everything.

## The compiler, end to end

`Source` is the checked language with `defer`, `try` and `zone`, under an interpreter that keeps a
run-time stack of defer frames. `Lowering` is the static translation that copies the deferred
statements onto every exit, `Optimizer` folds constants and drops code after a `return`, `Backend`
emits labelled blocks for the machine in `Machine`. `Compilable` and `Emittable` say which functions compile,
`Progress` that typed ones are never undefined, and `EndToEnd` puts these together. The main results are `Pipeline.CompiledRuns` and
`Pipeline.CompiledEnds`: for every fuel, callee behaviour and argument list, the emitted code of a
function gives the value, the call trace and the kind of end its source has, and the other way
round. Semantics are big-step with fuel; callees, the allocator and the terminal are an oracle over
the history of events; where C or LLVM leave arithmetic undefined (int64 overflow, division by
zero, `INT64_MIN / -1`) the outcome is `Undefined` and nothing is claimed.

Each pass that works by changing things is also written that way and proved against its function:
`Lowerer` (statement lists, frames and the name counter), `Optimizer.OptimizeBlock` (compaction of a
statement array), `OptimizerNodes` (expression nodes overwritten on the heap) and `Emitter` (counters,
the terminated flag, the scope and the instruction stream).

## The checker, the front end, the runtime

`NameMap` is the open-addressing table behind all scopes; the `Result*` files are the proofs that a `result` is ok,
what they imply and what they accept; `GuaranteedReturn` and `ConstEval` the other two analyses. `Lexing`, `Spelling`,
`LexerClass`, `SourceText`, `Parser*`, `Printer`, `Precedence` and `Module*` are the front end. `Operators` says what
the arithmetic shared by source, optimizer and machine computes. `Memory*` and `Allocator` are the
compiler's allocator; `RuntimeMemory`, `LineBuffer`, `StringList` and `ZoneRuntime` are the emitted runtime.

## Where the code does not do what one would expect

Six findings; each has a concrete input and the condition under which the code is right.

- A deferred statement is copied to an exit by name, so a local bound again in between captures it:
  `let x = 1; defer f(x); if true { let x = 2; return; }` calls `f(2)` (`Capture.CaptureChangesMeaning`). A
  copy resolves as written exactly when it is uncaptured (`Capture.CopyMeansTheSame`), lowering
  preserves meaning wherever that holds at every exit (`DefersSafe`), and distinct names give it
  (`Capture.DistinctIsSafe`).
- The expression of a `return` runs after the cleanups, so a `zalloc` in it allocates in a zone already
  released: `zone { return zalloc int == zalloc int; } return false;` passes the return analysis and does so
  whenever allocation answers with pointers (`Zones.ReturnAllocatesTooLate`). By the expression alone
  (`Zones.ReturnNestsExactly`): without a `zalloc` the run always nests, with one in an operand that is
  always evaluated it never does, and without branches in the expression it nests if and only if there
  is no `zalloc`.
- A `result` proved ok by an `if` whose other branch returns stays proved although the branch that falls
  through left it an err (`ResultFlowGaps.StaleProofAccepted`).
- A loop body is checked once, with what is known before its first turn, and a deferred statement where it
  is written: `r = ok 1; loop { let v = r.value; r = err; }` and `r = ok 1; defer r.value; r = err;` are
  accepted and read the value of an err (`ResultFlowGaps.SecondTurnAccepted`,
  `ResultFlowGaps.DeferredReadAccepted`). Every body the checker accepts reads only ok results if it would
  also be accepted with a second pass over each loop body and a second look at each deferred
  statement at every exit that runs it, and no such `if` spoils what it proves (`ResultFlowTheorem.BodyReadsOk`).
  Where each result such a branch spoils is surely left an err, the facts after the `if` are true exactly
  then (`ResultFlowTheorem.MarksTrueExactly`).
- The lexer's main loop never moves past a NUL byte; it ends exactly on texts without one
  (`Lexing.EndsExactlyWithoutNul`).
- A file module that shares its name with an imported standard library module is diagnosed if and only if
  the library module is met before the file when the import lists are followed depth first
  (`ModuleLoader.Project.Run`). `ModuleClash` has files whose clash is reported with two imports in one order and
  not in the other (`ModuleClash.ClashDependsOnOrder`); without such a clash loading diagnoses exactly the
  faults of the files.

## Model

| member | source | states |
|---|---|---|
| Pipeline.CompiledRuns | src/backend/llvm_text.c:3105-3157 | For every fuel the machine running the compiled function ends as the source does: same value, same events, `ret void` for a fall-through of a void function, still running when the source is out of fuel |
| Pipeline.CompiledEnds | src/backend/llvm_text.c:3105-3157 | Conversely, a machine run that has ended after k steps is the source's run with fuel k + 1, which is not out of fuel |
| Pipeline.NeverCrashes | src/backend/llvm_text.c:3146-3152 | Compiled code of a function the return analysis accepts never reaches `unreachable` or gets stuck in any number of steps, unless the source is undefined |
| Pipeline.CompiledZonesNest | src/ir/lower.c:1313-1361 | The trace of every finished run of compiled code opens and closes zones in proper nesting and leaves none open |
| EndToEnd.CheckedRunsSafely | src/backend/llvm_text.c:3105-3157 | A typed function without arithmetic, within the limits of the backend and capturing no deferred statement, compiles, and its code on typed arguments and callees never crashes in any number of steps |
| Compilable.CompilesExactly | src/ir/lower.c:953-1595 | Lowering succeeds if and only if every name is a local in scope or an earlier constant, assigned names are locals, `zalloc` stands in a zone, `try` in a result function and `err` has a result type, for every kind of statement and expression; compilation then succeeds if and only if what the optimizer leaves is within the limits of the backend |
| Compilable.CheckedCompiles | src/ir/lower.c:953-1595 | A function that meets these conditions and calls with at most 32 arguments (4 for a builtin) and no equality at void compiles |
| Compilable.RestLowers | src/ir/lower.c:1530-1595 | The same for the rest of a block under any pending cleanups |
| Emittable.FunctionEmits | src/backend/llvm_text.c:2589-2651 | The backend has code for a function if and only if its locals are in scope, calls have at most 32 arguments (4 for a builtin) and no equality is at void |
| Emittable.OptStmtsReady | src/ir/optimize.c:351-408 | Optimizing keeps code that the backend can emit |
| Progress.TypedIsDefined | src/sema/typecheck.c:2651-2891 | A well-typed body without arithmetic is never undefined, for any fuel, typed callees and arguments, and what it returns has the declared type |
| Progress.ExprProgress | src/sema/typecheck.c:1865-2530 | A well-typed expression without arithmetic has a value of its type |
| LoweringTheorem.LoweringPreserves | src/ir/lower.c:1530-1595 | The lowered, defer-free body gives the trace, outcome, value and visible environment of the interpreter with defer frames, for every fuel and any start of the name counter |
| LoweringTheorem.RestPreserved | src/ir/lower.c:1541-1592 | The induction behind it: any rest of a block under any stack of pending frames, related scope by scope |
| LoweringTheorem.TryPreserved | src/ir/lower.c:1233-1311 | A `try` binds the payload on ok, and on err runs all frames innermost first before returning err |
| LoweringTheorem.ZonePreserved | src/ir/lower.c:1313-1361 | A zone's release runs after the defers of its body on fall-through and on every exit through it |
| LoweringTheorem.ForPreserved | src/ir/lower.c:1488-1519 | Each turn of a `for` body under pending frames, for every fuel |
| LoweringProof.ExprPreserved | src/ir/lower.c:953-1195 | A lowered expression, with constants inlined, has the value and events of the source expression wherever its names mean the same |
| LoweringProof.FramesPreserved | src/ir/lower.c:1222-1231 | The copied cleanup of all frames performs the events of running them, innermost frame first |
| LoweringProof.FramePreserved | src/ir/lower.c:1197-1220 | One frame, newest entry first |
| Capture.CopyMeansTheSame | src/ir/lower.c:126-150 | Every local of a pending deferred statement resolves at an exit to the binding it had where it was written if and only if none of them was bound again in between |
| Capture.DistinctIsSafe | src/ir/lower.c:1197-1231 | With pairwise distinct bound names no exit of a body captures anything |
| Capture.CaptureChangesMeaning | src/ir/lower.c:1197-1220 | A concrete body whose lowering calls `f(2)` where the source calls `f(1)` |
| Lowerer.IrBlock.Push | src/ir/lower.c:1530-1595 | A statement is appended to the block under construction |
| Lowerer.LowerContext.GeneratedName | src/ir/lower.c:163-191 | Names carry the counter, which advances by one, so no two are equal |
| Lowerer.LowerContext.EmitLocalDeferredEntries | src/ir/lower.c:1197-1220 | The loop over a frame appends exactly the copies of its entries, newest first, or fails when one does not lower |
| Lowerer.LowerContext.EmitDeferredEntries | src/ir/lower.c:1222-1231 | The walk over the parent frames appends all copies, innermost frame first |
| Lowerer.LowerContext.LowerTryStatement | src/ir/lower.c:1233-1311 | Appends the temporary, the guarded early exit with its cleanup, and the payload binding |
| Lowerer.LowerContext.LowerZoneStatement | src/ir/lower.c:1313-1361 | The zone's own frame holds its release, below the frame of its body |
| Lowerer.LowerContext.LowerStatement | src/ir/lower.c:1363-1528 | Every other statement becomes its translation and the counter goes on |
| Lowerer.LowerContext.LowerBlockStatements | src/ir/lower.c:1530-1595 | The block loop, which mutates the statement list, the frame and the scope, produces the translation all theorems above are about |
| OptimizerProof.ExprOptimized | src/ir/optimize.c:274-349 | Optimizing an expression keeps value and call trace in every environment, wherever the original is defined |
| OptimizerProof.StmtsOptimized | src/ir/optimize.c:351-408 | Optimizing a block keeps outcome, trace and value for every fuel, wherever the original is defined |
| OptimizerProof.WhileOptimized | src/ir/optimize.c:378-381 | Loops turn by turn, including the turns after which fuel runs out |
| OptimizerProof.StmtsBecomeNormal | src/ir/optimize.c:351-408 | The result has no foldable operator left and no statement after a `return`, at any depth |
| OptimizerProof.OptimizeTwice | src/ir/optimize.c:351-408 | A second pass, even on another host, changes nothing |
| Operators.QuotientExactly | src/ir/optimize.c:210-214 | The quotient of a division is the one number that leaves a remainder smaller than the divisor and with the sign of the dividend |
| Operators.ArithmeticExactly | src/ir/optimize.c:198-254 | Source, folder and machine compute v for an operator exactly if v is its meaning, stated without division, and an int64 |
| Operators.DivisionUndefined | src/ir/optimize.c:210-219 | On int64 operands division and remainder are undefined exactly by zero and for INT64_MIN by -1 |
| Operators.EqualsExactly | src/backend/llvm_text.c:1149-1290 | Equality at a type is identity of values at any depth of results, and there is none at void |
| Operators.ComparesAsIntegers | src/ir/optimize.c:222-225 | Less is the strict order of the integers, and the other comparisons follow from it |
| Operators.ZeroIsAllZero | src/backend/llvm_text.c:1638-1648 | The payload of an err is zero throughout |
| OptimizerProof.FoldedIsMeant | src/ir/optimize.c:198-254 | Two literals fold to the meaning of the operator, -7 / 2 to -3, and only a division by zero stays |
| Optimizer.OptimizeBlock | src/ir/optimize.c:351-408 | In place: the array holds the optimized statements up to the first `return`, compacted to the front, and the count is theirs; the statements destroyed are exactly those behind it, and there are some only behind a `return` |
| Optimizer.OptimizeStatement | src/ir/optimize.c:357-397 | A statement and the blocks inside it |
| OptimizerNodes.OptimizeNode | src/ir/optimize.c:274-349 | Rewriting the nodes of an expression in place leaves a separate tree that is the optimized expression; every node of the old tree is either still in it or destroyed once, and none is both |
| OptimizerNodes.OptExprBottomUp | src/ir/optimize.c:274-349 | Optimizing is optimizing the children and then folding at the node |
| OptimizerNodes.FoldNode | src/ir/optimize.c:179-272 | Folding a node whose children are folded overwrites it with the folded expression |
| OptimizerNodes.FoldUnaryNode | src/ir/optimize.c:179-196 | A negated or inverted literal becomes the literal; anything else stays |
| OptimizerNodes.FoldBinaryNode | src/ir/optimize.c:198-254 | The operators by operand kind; a division or modulus by the literal zero stays |
| OptimizerNodes.FoldIfNode | src/ir/optimize.c:256-272 | An if-expression on a literal condition becomes the branch it selects |
| OptimizerNodes.ReplaceWithChild | src/ir/optimize.c:256-272 | The node becomes a copy of the selected child, whose own node is destroyed together with the other children |
| OptimizerNodes.DestroyTree | src/ir/optimize.c:7-83 | Destroying a tree frees exactly its nodes, each once |
| ConstEval.EvaluatedIsFolded | src/sema/typecheck.c:1382-1480 | Whenever the checker's evaluator gives v, lowering with constants inlined and optimizing gives the literal v |
| ConstEval.EvaluatedIsMeant | src/sema/typecheck.c:1382-1480 | and v is the run-time value, wherever that is defined |
| ConstEval.EvaluatesExactly | src/sema/typecheck.c:1382-1480 | The evaluator gives v if and only if the expression is made of integer literals, accepted constants, negation and arithmetic and folds to v |
| BackendTheorem.FunctionRuns | src/backend/llvm_text.c:2865-3103 | For every fuel, the emitted blocks run from the entry end as the structured body does |
| BackendTheorem.MachineEnds | src/backend/llvm_text.c:2865-3103 | A machine run that ends is the run of the body with more fuel than steps |
| BackendTheorem.MachineDiverges | src/backend/llvm_text.c:2960-3053 | A body that is out of fuel at k + 1 is still running on the machine after k steps |
| BackendStmt.StmtsDo | src/backend/llvm_text.c:3074-3103 | The simulation: any statement list at any place in the code, with slots for every name in scope and no slot of an outer name touched |
| BackendExpr.ExprRuns | src/backend/llvm_text.c:2653-2856 | The same for an expression: its operand holds its value and memory it does not own is as before |
| BackendExpr.ShortCircuitRuns | src/backend/llvm_text.c:1509-1547 | `&&` and `\|\|` evaluate the right operand exactly when the left one does not decide |
| BackendExpr.IfExprRuns | src/backend/llvm_text.c:1549-1584 | Exactly one branch of an if-expression is evaluated, through the result slot |
| BackendExpr.ResultEqualityRuns | src/backend/llvm_text.c:1149-1290 | Results are equal when their flags agree and their payloads are equal; the payloads are compared always, also those of two errs |
| BackendShape.FunctionReads | src/backend/llvm_text.c:910-999 | In emission order every block ends in exactly one terminator with nothing behind it, and every register is assigned once, in increasing order, before any use |
| BackendLabels.FunctionLabels | src/backend/llvm_text.c:825-835 | Every label is defined at most once, and exactly once if anything branches to it |
| Emitter.FunctionEmitter.NextTemp | src/backend/llvm_text.c:825-829 | Register numbers count up |
| Emitter.FunctionEmitter.NextLabel | src/backend/llvm_text.c:831-835 | Label numbers count up |
| Emitter.FunctionEmitter.LowerExpression | src/backend/llvm_text.c:2653-2856 | The emitter's counters, stream and operand after an expression are those of the function all backend theorems are about; it fails exactly where that has no code |
| Emitter.FunctionEmitter.LowerShortCircuit | src/backend/llvm_text.c:1509-1547 | The same for `&&` and `\|\|` |
| Emitter.FunctionEmitter.LowerIfExpression | src/backend/llvm_text.c:1549-1584 | The same for if-expressions |
| Emitter.FunctionEmitter.LowerEquality | src/backend/llvm_text.c:1149-1290 | The same for equality by operand type |
| Emitter.FunctionEmitter.LowerCall | src/backend/llvm_text.c:2589-2651 | The same for calls, arguments left to right |
| Emitter.FunctionEmitter.LowerZoneAlloc | src/backend/llvm_text.c:2818-2838 | The same for `zalloc` |
| Emitter.FunctionEmitter.EmitBlock | src/backend/llvm_text.c:3074-3103 | The statement loop, with its own scope released at the end and a fresh block after a terminator |
| Emitter.FunctionEmitter.EmitStatement | src/backend/llvm_text.c:2865-3072 | Every statement kind |
| Emitter.FunctionEmitter.EmitIfStatement | src/backend/llvm_text.c:2924-2959 | `if` with and without `else` |
| Emitter.FunctionEmitter.EmitWhileStatement | src/backend/llvm_text.c:2960-2983 | `while` |
| Emitter.FunctionEmitter.EmitForStatement | src/backend/llvm_text.c:3000-3053 | `for`, with its two slots and the bound evaluated once |
| Emitter.FunctionEmitter.EmitBody | src/backend/llvm_text.c:3105-3157 | The whole function: parameters into slots, body, closing `ret void` or `unreachable` |
| GuaranteedReturn.NeverFallsThrough | src/sema/typecheck.c:2539-2572 | No run of an accepted block falls off its end, whatever the fuel, the environment and the pending defers |
| GuaranteedReturn.ReturnsExactly | src/sema/typecheck.c:2539-2572 | A block is accepted if and only if no path through it reaches its end, every condition taken both ways, each loop body passed once, and zones, `while` and `for` passed whatever they hold |
| Zones.BodyNests | src/ir/lower.c:1313-1361 | Every run of a body enters and releases zones in proper nesting, and `zalloc` hits the innermost open one |
| Zones.PlainExactly | src/ir/lower.c:1313-1361 | The condition of that result: no expression calls the release primitive and no `return` inside a zone allocates |
| Zones.ReturnNestsExactly | src/ir/lower.c:1570-1577 | By the expression of a `return`, which runs after the cleanups: no `zalloc` in it and the trace nests, one in an always evaluated operand and it never does; for expressions without branches it nests if and only if there is no `zalloc` |
| Zones.ReturnAllocatesTooLate | src/ir/lower.c:1570-1577 | A concrete body, accepted by the return analysis, that returns after allocating in the zone it has just released, for every oracle that answers allocations with pointers |
| NameMap.ProbeFinds | src/sema/typecheck.c:143-150 | Where linear probing stops is the key's slot if the key is bound and a free slot if it is not |
| NameMap.PutStores | src/sema/typecheck.c:178-209 | Storing at that place gives the table of the updated map |
| NameMap.FindSlot | src/sema/typecheck.c:143-150 | Probing ends, because a slot is free, at the first slot that is free or holds the key |
| NameMap.NextCapacity | src/sema/typecheck.c:135-141 | The smallest power of two from 16 up that is enough |
| Powers.OnePower | src/sema/typecheck.c:135-141 | There is one power of two between a number and its double, so the capacity is determined |
| NameMap.Map.Lookup | src/sema/typecheck.c:211-232 | The binding of the mathematical map |
| NameMap.Map.Reserve | src/sema/typecheck.c:152-176 | Growing keeps every binding; a failed allocation changes nothing |
| NameMap.Map.Rehash | src/sema/typecheck.c:152-176 | The new table stores the same map with the same count |
| NameMap.Map.Insert | src/sema/typecheck.c:178-209 | Binds the key, or with `replace` off leaves an existing binding alone and says so; the table starts at 16 slots and doubles exactly when the next binding would fill 70 percent |
| ResultFlowProof.BranchMarksHold | src/sema/typecheck.c:1208-1343 | If every alias's stored proof agrees with its value and the condition evaluates to a truth, every binding marked for that branch is ok |
| ResultFlowProof.BuildConsistent | src/sema/typecheck.c:1208-1297 | The proof built for a condition, however partial, agrees with its value, through not, and, or, comparison with a literal and aliases |
| ResultGuards.MarksExactly | src/sema/typecheck.c:1299-1345 | A proof in which no result occurs twice marks a result for a branch if and only if the result is ok in every case that gives its formula the truth of the branch |
| ResultGuards.BuildsExactly | src/sema/typecheck.c:1208-1297 | Up to 32 levels deep a proof is built for a condition if and only if the condition says something about a result |
| ResultGuards.GuardsExactly | src/sema/typecheck.c:1208-1345 | For `.ok` of distinct results under not, and, or and comparison with a literal, a branch proves a result ok if and only if it is ok whenever the condition has the truth of the branch |
| ResultGuards.TruthIsValue | src/sema/typecheck.c:1208-1297 | That truth is what the condition evaluates to |
| ResultGuards.AliasMarksAlike | src/sema/typecheck.c:2671-2676 | An immutable boolean bound to a condition proves what the condition does |
| ResultFlowProof.AcceptedIsSafe | src/sema/typecheck.c:1758-1863 | With true facts, every `.value` an accepted expression reads is read from an ok result |
| ResultGuards.AcceptsExactly | src/sema/typecheck.c:1758-1863 | An expression is accepted if and only if every `.value` it reads is of a name that the flow or an arm around the read proves ok |
| ResultForgets.CheckForgets | src/sema/typecheck.c:614-634 | Checking a piece removes from the facts of the scopes around it exactly those about the results it assigns |
| ResultForgets.LoopSettles | src/sema/typecheck.c:2817-2850 | A second pass over a loop body leaves the facts as the first one did |
| ResultForgets.ChangedByLast | src/sema/typecheck.c:2702-2721 | A branch of assignments spoils a result, makes it ok or leaves it an err by its last assignment to it |
| ResultFlowTheorem.RestFlow | src/sema/typecheck.c:2651-2891 | Checking statement by statement keeps the facts true along every run, loops, zones and deferred statements included, and every read on the way is of an ok result |
| ResultFlowTheorem.WhileFlow | src/sema/typecheck.c:2817-2827 | The facts at the head of a loop hold at every turn if its body keeps them, for every fuel |
| ResultFlowTheorem.ForFlow | src/sema/typecheck.c:2828-2850 | The same for `for`, whose variable goes on between turns |
| ResultFlowTheorem.FramesAreSafe | src/sema/typecheck.c:2749-2750 | A deferred statement reads ok results at every exit where it would be accepted with what is known there of the bindings it sees |
| ResultFlowTheorem.BodyReadsOk | src/sema/typecheck.c:2651-2891 | Every accepted body whose facts are stable reads only ok results in every run: no `if` spoils what it proves for the code after it, loops pass a second time, deferred statements pass again at their exits |
| ResultAccepts.AcceptedExactly | src/sema/typecheck.c:2651-2940 | A body that assigns no result is accepted if and only if every read of `.value`, in every kind of statement, is dominated by a condition that proves it and every assignment is to a mutable name in scope |
| ResultStable.UnassignedReadsOk | src/sema/typecheck.c:2651-2940 | and then every run of it reads only ok results, without further condition |
| ResultFlowTheorem.RuinedMarkIsFalse | src/sema/typecheck.c:2798-2816 | What an `if` proves for the code after it is false where its branch that falls through surely leaves one of the proved results an err |
| ResultFlowTheorem.MarksTrueExactly | src/sema/typecheck.c:2798-2816 | Where each result that branch spoils is surely left an err, the facts after the `if` are true if and only if it spoils none that the condition proved |
| ResultFlowGaps.StaleProofAccepted | src/sema/typecheck.c:2798-2816 | A concrete accepted body that reads the value of an err after such an `if` |
| ResultFlowGaps.SecondTurnAccepted | src/sema/typecheck.c:2825-2827 | A concrete accepted body that reads the value of an err in the second turn of a loop |
| ResultFlowGaps.DeferredReadAccepted | src/sema/typecheck.c:2749-2750 | A concrete accepted body whose deferred statement reads the value of an err |
| ResultFlowFacts.TrueAssign | src/sema/typecheck.c:2677-2721 | Assigning a result and invalidating what depends on it keeps the facts true |
| ResultScopes.Scopes.IsOk | src/sema/typecheck.c:510-523 | The search through the scope chain finds a guard exactly when the facts prove the result |
| ResultScopes.Scopes.MarkOk | src/sema/typecheck.c:525-540 | One more fact in the innermost scope, not stored twice |
| ResultScopes.Scopes.InvalidateResultProofs | src/sema/typecheck.c:614-634 | Removes the result from every scope and every stored proof that depends on it, and nothing else |
| Lexing.LexingUnique | src/lex/lexer.c:206-351 | A text has at most one lexing: tokens that spell their kind, are as long as possible, and have only whitespace and comments between them |
| Lexing.StuckHasNoLexing | src/lex/lexer.c:206-351 | Where the lexer diagnoses, no lexing of the text exists |
| Lexing.ByteIsCovered | src/lex/lexer.c:104-196 | Each byte of a lexed text is in one token with its delimiters, or in the whitespace and comments before one |
| Lexing.EndsExactlyWithoutNul | src/lex/lexer.c:18-33 | The main loop reaches the end of the text if and only if the text holds no NUL byte |
| LexerClass.Lexer.Advance | src/lex/lexer.c:18-33 | Line and column stay those of the offset; a NUL is not passed |
| LexerClass.Lexer.SkipWhitespace | src/lex/lexer.c:104-121 | Stops at the first byte outside whitespace and comments |
| LexerClass.Lexer.ScanString | src/lex/lexer.c:142-172 | A closed string gives its token, an escaped byte never closes it; otherwise a diagnostic and no token |
| LexerClass.Lexer.ScanRawString | src/lex/lexer.c:174-196 | The same for raw strings, up to the backquote |
| LexerClass.Lexer.ScanNumber | src/lex/lexer.c:123-130 | The longest run of digits |
| LexerClass.Lexer.ScanIdentifier | src/lex/lexer.c:132-140 | The longest word, as a keyword exactly if it is one |
| LexerClass.Lexer.ScanToken | src/lex/lexer.c:213-341 | One round of the main loop gives a token ending where it stops, or a diagnostic exactly where no token starts |
| LexerClass.Lexer.OneRound | src/lex/lexer.c:206-351 | On any text, one turn of the main loop ends at the offset the rounds of `Lexing` give, with the tokens so far still lexing the text up to there, or a diagnostic and no lexing |
| LexerClass.Lexer.RunRounds | src/lex/lexer.c:206-351 | On any text, any number of turns of the main loop ends at the offset of that many rounds, the sequence `Lexing.EndsExactlyWithoutNul` speaks of |
| LexerClass.Lexer.Run | src/lex/lexer.c:206-351 | On a text without NUL bytes the loop ends; without a diagnostic the tokens are the lexing of the text, with one there is none; offsets increase strictly and each line and column is that of its offset |
| Spelling.StringStopsExactly | src/lex/lexer.c:142-172 | A string stops at the one place where an even run of backslashes stands before a quote or newline, or at a NUL or the end, and every quote and newline before it has an odd run |
| Spelling.QuotedLexes | src/lex/lexer.c:142-172 | Any text without NUL, with a backslash before each quote, backslash and newline and between quotes, lexes to one string token over all of it |
| Spelling.RawLexes | src/lex/lexer.c:174-196 | Any text without NUL and backquote between backquotes lexes to one string token |
| Spelling.WordLexes | src/lex/lexer.c:55-97 | A word lexes to one token, a keyword exactly if it is one of the 38 listed |
| Spelling.NumberLexes | src/lex/lexer.c:123-130 | Digits lex to one number |
| Spelling.SignLexes | src/lex/lexer.c:221-316 | Each sign and each pair of signs lexes to one token |
| Spelling.BlankLexes | src/lex/lexer.c:104-121 | Whitespace and a comment lex to nothing |
| LexerClass.NumberTail | src/asm/scan_fallback.c:15-20 | The end of the digits |
| LexerClass.IdentifierTail | src/asm/scan_fallback.c:22-27 | The end of the word |
| SourceText.BuildLineTable | src/support/source.c:66-76 | The table holds the start of every line |
| SourceText.CountLines | src/support/source.c:18-26 | One more than the newlines |
| SourceText.Position | src/support/source.c:97-112 | The binary search gives the line by counting newlines and the column from the line start, which is what the lexer stores; behind the end the column goes on |
| ParserProof.RoundTrip | src/parse/parser.c:386-849 | Printing any expression, struct literals included, with parentheses only where the levels demand them and parsing the tokens, between any tokens before and any after that do not continue it, returns the expression and consumes exactly its tokens |
| ParserProof.PrintInjective | src/parse/parser.c:520-849 | No two expressions print alike |
| Precedence.LevelledParses | src/parse/parser.c:768-829 | Operands and operators without parentheses parse to the tree in which right operands bind tighter and left operands not looser, by the written-out chain of operator classes |
| Precedence.ThreeOperands | src/parse/parser.c:768-829 | `a p b q c` groups to the right exactly if q is in a later class of that chain than p |
| Precedence.PrefixBinds | src/parse/parser.c:708-747 | A prefix operator takes the operand behind it and not the chain |
| Precedence.SpelledParses | src/parse/parser.c:386-706 | Each other form, spelled out over names and literals, parses to itself |
| ParserProof.ChainParses | src/parse/parser.c:768-829 | A chain folds its operands to the left and stops at an operator of another level |
| ParserProof.PostfixParses | src/parse/parser.c:616-706 | Calls, indexes, slices and fields in any order behind a primary |
| ParserProof.IfParses | src/parse/parser.c:482-518 | If-expressions with `else if`, without taking `name {` for a struct literal |
| ParserProof.StructParses | src/parse/parser.c:421-448 | Struct literals, with or without a module name, their fields parsed up to the closing brace |
| Printer.SecondToken | src/parse/parser.c:572-582 | No printed expression has a colon behind its first token, so a block or list never looks like the fields of a struct literal |
| Printer.DecimalDigits | src/parse/parser.c:523-531 | Reading the digits of a number gives the number |
| ParserClass.ExpressionParser.Expression | src/parse/parser.c:831-849 | The cursor parser reports an error exactly when the grammar rejects, and otherwise returns the grammar's expression with the cursor behind it; on every token stream it ends |
| ParserClass.ExpressionParser.Chain | src/parse/parser.c:768-829 | The same for a binary chain, whose loop keeps what it has when a right operand fails |
| ParserClass.ExpressionParser.Unary | src/parse/parser.c:708-747 | The same for prefix operators |
| ParserClass.ExpressionParser.Postfix | src/parse/parser.c:616-706 | The same for the postfix loop, which an error inside a suffix ends |
| ParserClass.ExpressionParser.Primary | src/parse/parser.c:520-614 | The same for primaries |
| ParserClass.ExpressionParser.ArrayLiteral | src/parse/parser.c:386-419 | The same for array literals, listed or repeated |
| ParserClass.ExpressionParser.IfExpression | src/parse/parser.c:482-518 | The same for if-expressions |
| ParserClass.ExpressionParser.Name | src/parse/parser.c:571-600 | The same for names and for the lookahead that tells a struct literal |
| ParserClass.ExpressionParser.StructLiteral | src/parse/parser.c:421-448 | The same for struct literals |
| ParserClass.ExpressionParser.Fields | src/parse/parser.c:430-445 | The loop over the fields, commas optional, which an error in a field ends |
| ParserClass.Value | src/parse/parser.c:523-531 | The loop over the digits computes the decimal value |
| ModuleGraph.CompleteIsSound | src/support/project.c:1720-1862 | A finished load without diagnostics: the files the entry reaches are acyclic, readable, resolvable and distinctly named, and they are exactly the files loaded |
| ModuleGraph.NoCycle | src/support/project.c:1741-1756 | No import route leads back to where it started, because every import was finished before its importer |
| ModuleLoader.LoadingIsCycle | src/support/project.c:1741-1756 | An import of a module that is still loading closes a cycle of the import graph |
| ModuleLoader.Project.FindByPath | src/support/project.c:1375-1382 | Finds a module with the path exactly if there is one |
| ModuleLoader.Project.FindByName | src/support/project.c:1384-1391 | Finds a module with the name exactly if there is one |
| ModuleLoader.Project.LoadBuiltin | src/support/project.c:1708-1718 | A standard library module is created at its first import and found at the others |
| ModuleLoader.Project.Load | src/support/project.c:1720-1862 | Loads a path once, leaves every module already there as it was, ends because each new file uses up one of the files on disk, and without a diagnostic returns the finished module of that path |
| ModuleLoader.Project.LoadImport | src/support/project.c:1823-1857 | One import: resolved to a finished module or diagnosed |
| ModuleLoader.Project.Read | src/support/project.c:1817-1857 | Reading a file that is being loaded: without a diagnostic every import is resolved in order and the modules are met as the depth-first order says |
| ModuleLoader.Project.Run | src/support/project.c:1864-1893 | A diagnostic if and only if the files are at fault or a library module is met before a file of the same name; without such a clash, if and only if the files are at fault. Without a diagnostic exactly the reachable files are loaded, in depth-first order |
| ModuleOrder.ReportedIsClash | src/support/project.c:1759-1772 | A name clash with the library that is reported is one of the files reached |
| ModuleClash.ClashIsSound | src/support/project.c:1708-1718 | The concrete files have no fault but a name clash with the library |
| ModuleClash.ClashDependsOnOrder | src/support/project.c:1759-1772 | and the clash is reported if and only if the library import stands first |
| ModuleClash.LoadClash | src/support/project.c:1708-1772 | as loading them shows |
| Allocator.RunIsLongest | src/support/memory.c:361-376 | A prefix of the free history fits both quarantine limits if and only if it is no longer than the run that is kept |
| Allocator.RunGrowsByOne | src/support/memory.c:378-388 | One more free lengthens the run by at most that block, so eviction only ever takes the oldest |
| Allocator.QuarantineLimits | src/support/memory.c:361-376 | The quarantine keeps a prefix of the free history if and only if it is at most 64 blocks and 1 MiB |
| Allocator.Allocator.Alloc | src/support/memory.c:484-516 | A new live block, counted, with the peak the highest level ever; overflow and a failed malloc abort with their codes and change nothing |
| Allocator.Allocator.Calloc | src/support/memory.c:518-534 | The same for count times size: overflow of the product or of the block aborts, a failed calloc aborts with its code, and otherwise the block is live and counted |
| Allocator.Allocator.Realloc | src/support/memory.c:536-603 | The live block moves and is re-indexed, others stay; a freed or unknown pointer aborts with its code |
| Allocator.Allocator.Free | src/support/memory.c:628-670 | Succeeds exactly on live pointers and reports a double free exactly on quarantined ones; afterwards the quarantine is the longest newest run of the free history within 64 blocks and 1 MiB |
| Allocator.Allocator.Diagnose | src/support/memory.c:633-663 | A pointer that is not live is a double free exactly if it is quarantined, else inside a known block whose start is named, else outside all of them |
| Allocator.Allocator.EvictQuarantine | src/support/memory.c:361-376 | Evicts the oldest until both limits hold and no further |
| Allocator.Allocator.MoveToQuarantine | src/support/memory.c:378-388 | The block leaves the live table and heads the quarantine |
| MemoryTable.RecordTable.Find | src/support/memory.c:215-229 | Finds a record exactly if one in the list has the pointer |
| MemoryTable.RecordTable.Add | src/support/memory.c:503-510 | List, index, count and bytes together; the capacity stays a power of two of at least twice the count |
| MemoryTable.RecordTable.Remove | src/support/memory.c:665-668 | The same for removal |
| MemoryRecords.RecordList.InsertHead | src/support/memory.c:271-280 | The doubly linked list is the old one with the record in front |
| MemoryRecords.RecordList.Remove | src/support/memory.c:282-297 | The list without that record, relinked on both sides |
| MemoryRecords.RecordIndex.Find | src/support/memory.c:215-229 | The bucket chain finds the member with that pointer, or there is none |
| MemoryRecords.RecordIndex.Insert | src/support/memory.c:265-269 | The member joins the chain of its bucket |
| MemoryRecords.RecordIndex.Remove | src/support/memory.c:243-263 | The member leaves its chain, the others stay |
| MemoryRecords.RecordIndex.Rehash | src/support/memory.c:181-213 | The new buckets index exactly the records of the list |
| MemoryRecords.CapacityFor | src/support/memory.c:169-175 | The smallest power of two from 16 up that is at least twice the count |
| LineBuffer.Ensure | src/backend/stdlib/lines.c:68-98 | Room for the slots with the lines untouched, the capacity 8 or doubled or what is needed, or a failed realloc and memory as it was |
| LineBuffer.Insert | src/backend/stdlib/lines.c:277-322 | The lines with a copy at the index, owned by the buffer alone; a failure leaves all memory as it was, the copy freed |
| LineBuffer.Set | src/backend/stdlib/lines.c:241-273 | The line replaced and its copy freed, even when the new value is that very line |
| LineBuffer.Remove | src/backend/stdlib/lines.c:335-374 | The lines without that one, its copy freed |
| LineBuffer.Push | src/backend/stdlib/lines.c:326-331 | One more line at the end |
| LineBuffer.Get | src/backend/stdlib/lines.c:216-237 | The line's copy, exactly for indexes inside |
| LineBuffer.Clear | src/backend/stdlib/lines.c:168-184 | No lines left, all copies freed, nothing else touched |
| LineBuffer.FreeItems | src/backend/stdlib/lines.c:43-64 | Frees each of the first items once |
| LineBuffer.WithCapacity | src/backend/stdlib/lines.c:111-138 | An empty buffer with that room, 8 at least, or memory as it was |
| LineBuffer.Release | src/backend/stdlib/lines.c:142-164 | Memory without what the buffer owned, and with everything else |
| LineBuffer.ApplyAll | src/backend/stdlib/lines.c:187-374 | Any sequence of edits on a fresh buffer: the lines are those of the edits that succeeded, and while no allocation fails an edit succeeds exactly if its index is allowed |
| LineBuffer.ReadAll | src/backend/stdlib/lines.c:216-237 | Reading line by line gives the lines |
| LineBuffer.Live | src/backend/stdlib/lines.c:27-374 | A whole life with allocations failing anywhere: the texts read back before release are those of the edits that succeeded, which are all allowed ones while no allocation fails, and after release memory is what it was before creation |
| StringList.Strings.Track | src/backend/stdlib/core.c:121-136 | The string heads the list of owned strings, even if it is there already, or no node could be allocated and nothing changed |
| StringList.Strings.Free | src/backend/stdlib/core.c:140-182 | Frees an owned string and its newest node and unlinks it wherever it is, and does nothing for any other pointer; in a list of distinct live strings a second call does nothing |
| ZoneRuntime.ZoneEnter | src/backend/stdlib/core.c:186-197 | An empty zone on top of unchanged memory |
| ZoneRuntime.ZoneAlloc | src/backend/stdlib/core.c:201-233 | A fresh payload owned by the zone, or memory exactly as it was, whichever of the two allocations fails |
| ZoneRuntime.ZoneRelease | src/backend/stdlib/core.c:237-265 | Each node, each payload and the zone are freed once, and nothing else |
| ZoneRuntime.Perform | src/backend/stdlib/core.c:186-265 | Each event of a trace has its effect on memory: a zone entered, a payload added to the innermost zone, or that zone and all it owns freed |
| ZoneRuntime.HoldsNext | src/backend/stdlib/core.c:186-265 | While no allocation fails the open zones own one payload for each allocation of the trace since they were entered |
| ZoneRuntime.Replay | src/backend/stdlib/core.c:186-265 | Any trace that nests, such as every compiled run leaves: the memories after its events are related one by one by the effects of the events, every open zone owns what was allocated in it, and when all zones are closed memory is as before |

## Left out

- Pointers, slices, arrays, structs and u8 in the IR and the backend, and assignment to anything but a local: the compiled fragment is int, bool, str and result values.
- Types on nodes, name resolution across modules and type checking as such: the models start from nodes with their types, and constants are listed so that each uses earlier ones only.
- Builtin calls and all foreign calls are events whose results an oracle gives; the tables of builtin signatures, symbol mangling, string collection and the module framing of the backend are not modelled.
- LoweringTheorem.LoweringPreserves: requires that no exit captures a pending deferred statement; the converse is shown for name resolution only, because a captured copy may still compute the same.
- ResultFlowTheorem.BodyReadsOk: address-of and assignment to anything but a local are outside the fragment; stability is sufficient for every run to be safe, it holds wherever no result is assigned (`ResultStable.UnassignedReadsOk`), and it is necessary for the facts only where `ResultFlowTheorem.MarksTrueExactly` says so, because a spoiled result may never be read.
- Zones.ReturnNestsExactly: for an expression with branches whose `zalloc` may be skipped neither half applies, because nesting then depends on the run.
- Emitter.FunctionEmitter.LowerEquality: src/backend/llvm_text.c:1189-1203 makes several emitting calls as arguments of one C call, whose order C leaves open; the model takes them left to right.
- LexerClass.Lexer.ScanToken: src/lex/lexer.c:266-313 reads the second byte of a sign in one argument of a call and the length in another, whose order C leaves open; the model reads the byte first.
- Progress.TypedIsDefined: arithmetic may overflow or divide by zero and is left out; so is equality of strings, which an err may hold as null. `Operators.ArithmeticExactly` says where arithmetic is defined.
- OptimizerNodes.DestroyTree: which nodes are freed is a ghost result, since the heap of the model has no free.
- Lowerer.LowerContext.LowerStatement: expressions are lowered to values, not to nodes allocated one by one.
- ParserProof.RoundTrip: literals are unbounded; in the source one of 2^63 or more overflows int64. `alloc` and `zalloc` with their types are outside the expression fragment, and a struct literal has at least one field, because the lookahead takes `name {}` for a name.
- LexerClass.Lexer.Run: requires a text without NUL bytes, on which alone the loop ends; `LexerClass.Lexer.RunRounds` is the loop on any text, cut off after any number of turns.
- ParserClass.ExpressionParser.StructLiteral: after an error in its first field the source keeps a literal without fields where the model keeps the name; what a parse yields beside an error is not stated.
- Statement, declaration and type parsing, diagnostics texts and error recovery between statements.
- Allocator.Allocator.Alloc: the answer of malloc is a parameter that overlaps no block not yet given back; Calloc and Realloc likewise.
- ModuleLoader.Project.Load: an absolute path never looks like the path of a standard library module; modules are known by their place in the project's list instead of by address; the file system, path rules and the lexer and parser's verdict on a file are parameters.
- Guard bytes and poison of the allocator, its leak report, and failed allocation of its own records and buckets, which abort.
- Overflow of sizes in the name map and of capacities in the line buffer.
- StringList.Strings.Free: requires an owned string to be live, which a list that owns it once guarantees; a string tracked twice is left to the callers.
- Zone escape analysis, the remaining standard library modules of the runtime, the driver, the toolchain and everything that touches files, processes, the network or the terminal.
