# A verified model of the Snowball compiler

Snowball is a small object-oriented language with a compiler to LLVM and a runtime in C++. This project
models the parts of it that decide what a program means, and proves what they are for.

1. **Lowering of control flow** (`Ir`, `BlockGraph`, `Lowering`, `LoweringFrame`, `LoweringSound`,
   `LoweringTheorem`, `GraphShape`, `GraphLinks`, `Conditions`, `EvaluationOrder`). Blocks, conditionals,
   the three loop layouts, `break`, `continue`, `return`, calls, integer operators, casts to `bool` and
   short circuits are lowered to a graph of basic blocks by a builder that is modelled as the object it is.
   The graph has a step semantics, the structured program an interpreter; they are proved to agree in both
   directions.
2. **The operator tree builder** (`OperatorTree`, `OperatorTreeTheorem`, `PrecedenceClimbing`,
   `ExpressionList`, `OperatorClasses`): the list of operands and operators is reduced in place, and the
   result is proved to be the one tree that binds as precedences say.
3. **Exception tables** (`Leb128`, `EncodedPointer`, `PointerCodes`, `ActionTable`, `Lsda`, `LsdaTheorem`):
   variable-length numbers (section 7.6 of DWARF version 3), encoded pointers, type table, action chains,
   call-site table and the personality routine in both phases (section 1.6 of the Itanium C++ ABI:
   Exception Handling).
4. **Virtual tables and the type checker's traversal** (`VirtualTable`, `VirtualTableTheorem`,
   `VirtualIndex`, `VirtualProgram`, `VirtualReports`, `Checker`, `CheckerTheorem`).
5. **Types and layout** (`Types`, `Mangling`, `Layout`).
6. **Lexer, positions and scopes** (`Tokens`, `Lexer`, `Tokenizer`, `LexerPositions`, `LexerPrinting`,
   `LexerNumbers`, `LexerTexts`, `TokenTexts`, `LexerEnd`, `Positions`, `Scopes`).

Where the source updates state, there is a class or a loop (`LLVMBuilder`, `OperatorList`, `TokenCursor`,
the readers of section 3, the two `TypeChecker`s, `Tokenizer`, `TransformContext`) whose methods are proved
equal to functions, and the theorems are about these functions.

A few predicates come in pairs such as `PointerAt(seal, ...)` and `Pointer(...)`, the second being the first
for every `seal`, which the first ignores. They say the same: `Pointer(...)` that `ReadPointer` delivers this
value here. The quantifier keeps the definition folded where a proof does not mention `PointerAt`.

What the code does and its documentation does not say:

- Code behind a `break`, `continue` or `return` in the same block is still emitted, behind the terminator
  (`GraphShape.BlocksCompleteIffWellFormed`). It does not change the meaning, as nothing behind a
  terminator is reached.
- A condition kept in a byte is tested by its lowest bit, and a number as a condition is cut to a byte
  before: it is taken for false exactly if it is even (`Conditions.LoweredTestIsRight`,
  `Conditions.NumberTestIsRight`, `Conditions.EvenTakenForFalse`). Programs that test only `bool` variables
  holding 0 or 1, comparisons and their combinations are not concerned
  (`Conditions.BooleanProgramsPreserved`).
- A variable on the left of an integer operator is read behind the right operand, so a call there can
  change it (`EvaluationOrder.OrderIsKeptIff`, exactly when).
- `!` and `~` behind an operand are accepted by the token loop and fail an assertion of the tree builder
  (`ExpressionList.BuildSucceedsIff`).
- The `mut` of `&mut x` is lost when the operator tree is built (`OperatorTreeTheorem.MarksKeptIff`,
  `ExpressionList.MutReferenceIsReference`).
- An action chain can link back to a record it has passed; exactly then the runtime does not end
  (`ActionTable.EndlessIff`, `Lsda.RunsForeverIff`).
- A new method that follows an override in its class can get a virtual index that is not its slot
  (`VirtualIndex.OverrideThenNewIsWrong`, exactly when: `VirtualIndex.IndexIsSlotIff`). Each class has a
  pass over functions it shares with others, and the last pass that meets a function decides, so the order
  of the passes matters (`VirtualProgram.LastPassDecides`, `VirtualProgram.OrderOfPassesMatters`); where all
  lists are ordered well it does not (`VirtualProgram.NumbersAreSlots`).
- The space of the virtual table pointer is added behind the padding, so a class with one need not have a
  multiple of its alignment as size (`Layout.SizeWithVtableIsAlignedIff`); an empty class and an empty
  interface with a virtual table have different sizes (`Layout.LayoutsAgreeIff`).
- After `1..5` or `2.x` the columns on the rest of the line are too large by one
  (`LexerPositions.NumberGood`). A second dot behind a fraction with digits, as in `1.5..`, takes the last
  digit away and records a dot instead; no other number that begins with a digit loses text
  (`LexerNumbers.NumberSpelledIff`).
- An empty source gives no end token, every other source that lexes gives one (`LexerEnd.LexedEnd`); the
  positions of a whole text give back the empty string (`Positions.RangeGivesBackIff`).

## Model

| member | source | states |
|---|---|---|
| LoweringTheorem.LoweringPreservesMeaning | src/builder/llvm/buildWhileLoop.cc:11-62 | For every body with `break` and `continue` only inside loops, well formed or not: the emitted block graph halts with a result and a store exactly when the structured program ends with them, so it runs for ever exactly when the program does |
| LoweringTheorem.LoweredCodeNeverStuck | src/builder/llvm/buildFunc.cc:240-258 | From the entry the machine never reaches a missing block, a block that runs out, or a phi without an incoming value, at any step count |
| LoweringTheorem.FunctionSim | src/builder/llvm/buildFunc.cc:240-258 | As long as the fuel of the structured run lasts, some number of steps from the entry ends with the same returned value and store; a function that falls off its end returns nothing, `self` or zero by its kind |
| LoweringTheorem.EmptyBodyReturns | src/builder/llvm/buildFunc.cc:240-258 | A function with nothing in its body returns nothing, the object or zero by its kind, and nothing else |
| LoweringTheorem.StmtSim | src/builder/llvm/buildBlock.cc:12-14 | Any statement, from a builder state at the end of the current block: the steps end behind the statement, at the break or continue target, or halted, as the statement ends, with its store |
| LoweringTheorem.IfSim | src/builder/llvm/buildConditional.cc:14-29 | Both arms and the missing else arm reach the continue block with the store of the arm taken, unless they leave |
| LoweringTheorem.WhileSim | src/builder/llvm/buildWhileLoop.cc:50-59 | The while layout repeats test and body as the structured loop does, `continue` going to the test |
| LoweringTheorem.ForSim | src/builder/llvm/buildWhileLoop.cc:32-49 | The layout with a step runs the step behind the body and behind every `continue`, before the next test |
| LoweringTheorem.DoWhileSim | src/builder/llvm/buildWhileLoop.cc:22-30 | The do-while layout runs the body before the first test, `continue` going to the test |
| LoweringTheorem.LoopSim | src/builder/llvm/buildWhileLoop.cc:11-62 | All three layouts with the loop targets set: a `break` of the body ends the loop normally, other ways out are passed on |
| LoweringTheorem.NormalEndOpen | src/builder/llvm/buildConditional.cc:8-9 | A statement that ends normally leaves the builder in a block without a terminator, so the branch that is emitted only then is emitted |
| LoweringSound.ExprSim | src/builder/llvm/buildOperator.cc:13-16 | Code of an expression computes its value and its effect on the store into the operand handed back, the left variable of an operator being read behind the right operand |
| LoweringSound.ArithSim | src/builder/llvm/buildOperator.cc:13-16 | Integer operators with the late load of a variable on the left |
| LoweringSound.CastSim | src/builder/llvm/buildCast.cc:23-40 | A cast to `bool` cuts the value to a byte, and emits nothing for what is a byte already |
| EvaluationOrder.OrderIsKeptIff | src/builder/llvm/buildOperator.cc:13-16 | The lowered expression applies the same operators to the same operands as an evaluation from left to right if and only if, wherever that comes to an operator with a variable on its left, the right operand leaves the value of the variable unchanged; then value and store are the same, too |
| EvaluationOrder.CallFreeUndisturbed | src/builder/llvm/buildOperator.cc:13-16 | An expression without calls is never disturbed |
| EvaluationOrder.CounterReadLate | src/builder/llvm/buildOperator.cc:13-16 | `n - next()` where `next` counts `n` up: the lowered code subtracts from the new `n` |
| LoweringSound.ShortCircuitSim | src/builder/llvm/buildOperator.cc:99-136 | Nested `and` and `or`: the right operand runs only when the left does not decide, and the phi is the boolean of the formula |
| LoweringSound.RightSim | src/builder/llvm/buildOperator.cc:99-136 | From the branch on the left operand to the join, by either way, the phi has the value of the whole |
| LoweringSound.NotSim | src/builder/llvm/buildOperator.cc:137-149 | Negation gives 1 exactly for a zero operand |
| LoweringSound.ToBoolSim | src/builder/llvm/toBool.cc:16-19 | The comparison with zero is inserted unless the value is one bit wide; either way the result is 1 exactly when the value is not zero |
| LoweringSound.CondBrSim | src/builder/llvm/createCondBr.cc:14-19 | A condition kept in a byte is cut to its lowest bit; the branch taken is the one the cut condition chooses |
| LoweringSound.ArgsSim | src/builder/llvm/buildCall.cc:74-76 | Arguments are evaluated in order, each seeing the store the ones before left |
| LoweringFrame.StmtGrows | src/builder/llvm/buildBlock.cc:12-14 | Emission appends: existing blocks other than the current one are untouched, the current one is extended, no block or register number is reused |
| LoweringFrame.ExprGrows | src/builder/llvm/buildOperator.cc:99-136 | The same for expressions |
| GraphShape.BlocksCompleteIffWellFormed | src/builder/llvm/buildBlock.cc:12-14 | Every block of a function ends in exactly one terminator with nothing behind it if and only if nothing that emits code stands behind a `break`, `continue` or `return` in its block |
| GraphShape.IllFormedBreaks | src/builder/llvm/buildBlock.cc:12-14 | A statement with emitting code behind a jump leaves a block with something behind its terminator, for good |
| GraphShape.CodeBehindReturn | src/builder/llvm/buildBlock.cc:12-14 | The body `{ return; x = 1 }`: some block is not complete |
| GraphShape.ShapeStmt | src/builder/llvm/buildWhileLoop.cc:14-61 | A well-formed statement closes all blocks it creates but the one it leaves the builder in, which is open exactly when the statement can end normally |
| GraphLinks.FunctionLinked | src/builder/llvm/buildOperator.cc:99-136 | Every branch target exists; every phi stands first in its block; its two incoming blocks are exactly the predecessors of the block |
| GraphLinks.LinkRight | src/builder/llvm/buildOperator.cc:99-136 | The same is kept by one short circuit, its right operand being arbitrary code with blocks of its own |
| GraphLinks.LinkLoop | src/builder/llvm/buildWhileLoop.cc:14-61 | The same is kept by a loop |
| Conditions.CleanRunsPreserved | src/builder/llvm/createCondBr.cc:14-19 | If no condition evaluated on the run of the program is about an even number other than zero and tested as a byte, however long it runs, the graph does what the program with conditions meaning "not zero" does |
| Conditions.BooleanProgramsPreserved | src/builder/llvm/createCondBr.cc:14-19 | In particular when `bool` variables, which are bytes, hold 0 or 1 at the start, functions that return `bool` return 0 or 1, and only `bool`, or what holds 0 or 1, is tested as a byte or assigned to a `bool` variable: `while flag` included, `while n` with a number `n` not |
| Conditions.WellTypedClean | src/builder/llvm/createCondBr.cc:14-19 | On such a program no condition is ever misjudged, and the `bool` variables stay 0 or 1 |
| Conditions.LoweredTestIsRight | src/builder/llvm/createCondBr.cc:15-17 | The lowered test of one condition agrees with "not zero" if and only if what it is about, before the cast to `bool` that is put around numbers, is not an even number other than zero, or is not tested as a byte |
| Conditions.NumberTestIsRight | src/visitors/transform/utils/getBooleanValue.cc:11-16 | A number as a condition, cast to `bool` by cutting it to a byte, is tested rightly if and only if it is 0 or odd |
| Conditions.EvenTakenForFalse | src/builder/llvm/buildCast.cc:30-40 | The byte 2, the number 2 and the number 256 as conditions: the program returns 1, the graph halts with 0 |
| Ir.WidthsKeep | src/builder/llvm/buildCast.cc:30-40 | A byte holds 0 to 255 and counts round, a bit 0 and 1 |
| Lowering.LLVMBuilder.VisitWhileLoop | src/builder/llvm/buildWhileLoop.cc:11-62 | The builder emits what the emission function says, restores the loop targets and moves to the block behind |
| Lowering.LLVMBuilder.LayOutDoWhile | src/builder/llvm/buildWhileLoop.cc:22-30 | The same for the do-while layout |
| Lowering.LLVMBuilder.LayOutFor | src/builder/llvm/buildWhileLoop.cc:32-49 | The same for the layout with a step; the continue target changes behind the test |
| Lowering.LLVMBuilder.LayOutWhile | src/builder/llvm/buildWhileLoop.cc:50-59 | The same for the while layout |
| Lowering.LLVMBuilder.VisitConditional | src/builder/llvm/buildConditional.cc:14-29 | The same for conditionals |
| Lowering.LLVMBuilder.VisitBlock | src/builder/llvm/buildBlock.cc:12-14 | The same for blocks |
| Lowering.LLVMBuilder.Build | src/builder/llvm/buildLoopFlow.cc:11-22 | The same for any statement; a jump branches to the current target |
| Lowering.LLVMBuilder.BuildExpr | src/builder/llvm/buildOperator.cc:99-149 | The same for expressions |
| Lowering.LLVMBuilder.BuildFork | src/builder/llvm/buildOperator.cc:99-105 | The two blocks of a short circuit and the branch on the left operand |
| Lowering.LLVMBuilder.BuildJoin | src/builder/llvm/buildOperator.cc:106-116 | The branch to the join and the phi with the block the right operand ended in |
| Lowering.LLVMBuilder.CreateCondBr | src/builder/llvm/createCondBr.cc:14-19 | Truncation of a byte, then the conditional branch |
| Lowering.LLVMBuilder.Cast | src/builder/llvm/buildCast.cc:23-40 | The cast of a value to `bool`, by its width |
| Lowering.LLVMBuilder.ToBool | src/builder/llvm/toBool.cc:16-19 | Comparison with zero unless one bit wide |
| Lowering.LLVMBuilder.BuildBody | src/builder/llvm/buildFunc.cc:240-258 | Entry branch, body, and the closing return only where the current block is open |
| OperatorTreeTheorem.BuildsTheOneBoundTree | src/parser/buildOperatorTree.cc:14-153 | On every list `unary* operand (binary unary* operand)*` the builder succeeds with the reference tree; that tree has the list, without the `mut` marks of its references, as its yield, its binary nodes bind their left child at least as tightly and their right child more tightly, unary operators bind tightest, and it is the only such tree; assignments associate to the left like all others |
| OperatorTreeTheorem.MarksKeptIff | src/parser/buildOperatorTree.cc:122-129 | The tree has the list as it is for its yield, marks included, if and only if no operator of the list is marked: the node rebuilt around its operand never has the mark |
| OperatorClasses.PairBinds | src/parser/buildOperatorTree.cc:24-90 | For any two binary operators of the eleven classes written out in the order of the source: the parse of the tokens `a o1 b o2 c` is `(a o1 b) o2 c` if and only if the class of `o1` does not come behind that of `o2`, and `a o1 (b o2 c)` otherwise |
| OperatorClasses.PrefixBinds | src/parser/buildOperatorTree.cc:15-23 | A prefix operator on either side of a binary operator takes its operand alone |
| OperatorClasses.ClassesComplete | src/parser/parseExpr.cc:113-249 | The tokens of the classes and `!` and `~` are all tokens that stand for an operator behind an operand, those of the six prefix operators all that stand for one in front of it, each for the operator written beside it |
| OperatorTreeTheorem.BuildConserves | src/parser/buildOperatorTree.cc:14-153 | Whatever list it succeeds on, the tree has exactly the operators and operands of the list in their order, the marks of references aside |
| OperatorTreeTheorem.ReduceConserves | src/parser/buildOperatorTree.cc:114-151 | Every round keeps the flattening of the list, marks aside, and makes the list shorter, for any list |
| OperatorTreeTheorem.BuildKeepsInvariant | src/parser/buildOperatorTree.cc:114-151 | On well-formed lists of trees that fit their operators no assertion of a round fails and the invariant holds to the end |
| OperatorTreeTheorem.UnaryStep | src/parser/buildOperatorTree.cc:115-129 | A round that collapses a unary run keeps the invariant |
| OperatorTreeTheorem.BinaryStep | src/parser/buildOperatorTree.cc:130-151 | A round that collapses a binary operator keeps the invariant; its neighbours are operands |
| OperatorTreeTheorem.SelectedIsLeftmostLowest | src/parser/buildOperatorTree.cc:18-113 | The scan selects the leftmost operator of lowest precedence |
| OperatorTreeTheorem.BoundIsReference | src/parser/buildOperatorTree.cc:18-113 | A tree bound as precedences say is determined by its yield |
| PrecedenceClimbing.BuildIsPrecedenceClimbing | src/parser/buildOperatorTree.cc:14-153 | One-pass precedence climbing consumes the whole list and gives the same tree |
| PrecedenceClimbing.ClimbIs | src/parser/buildOperatorTree.cc:18-113 | A climb consumes the longest front whose operators bind at least as tightly as asked, as one bound tree |
| ExpressionList.BuildSucceedsIff | src/parser/parseExpr.cc:208-261 | On the lists of the token loop the builder succeeds if and only if no `!` or `~` stands behind an operand; otherwise an assertion fails, never a reported error |
| ExpressionList.InfixNotFails | src/parser/parseExpr.cc:236-238 | `a ! b` is a list of the token loop on which the builder fails |
| ExpressionList.ReadExprIff | src/parser/parseExpr.cc:17-262 | The token loop returns a list and a rest if and only if the list is one of its grammar, spells the tokens consumed, `&mut` being two tokens of one operator, and the rest begins with no infix operator |
| ExpressionList.BuiltTreeSpellsTokens | src/parser/parseExpr.cc:17-263 | Token loop and builder together give a bound tree whose yield is the list that spells the tokens consumed, without its marks; the list itself if and only if no reference is marked |
| ExpressionList.MarksAreDropped | src/parser/parseExpr.cc:132-135 | Every expression is parsed to the tree it has without the `mut` of its references, or fails alike |
| ExpressionList.MutReferenceIsReference | src/parser/buildOperatorTree.cc:122-129 | `&mut x` is parsed to the tree of `&x`, as the node rebuilt does not copy the mark |
| ExpressionList.AssignmentRejectedIff | src/parser/parseExpr.cc:263-271 | Where assignments are not allowed, looking at the root is enough: an expression is rejected if and only if an assignment operator stands anywhere in its list; otherwise the tree is the reference tree |
| ExpressionList.TokenCursor.ParseExpr | src/parser/parseExpr.cc:17-271 | The list, its tree and the check of its root: result and tokens consumed |
| ExpressionList.TokenCursor.CollectAll | src/parser/parseExpr.cc:19-262 | The loop over the token cursor: the list, or where an expression was expected but not found |
| OperatorTree.OperatorList.Select | src/parser/buildOperatorTree.cc:18-113 | The inner scan |
| OperatorTree.OperatorList.CollapseUnary | src/parser/buildOperatorTree.cc:115-129 | The run of operators is nested onto the operand behind it from the inside out, in place; nothing changes if there is no operand |
| OperatorTree.OperatorList.CollapseBinary | src/parser/buildOperatorTree.cc:130-151 | Three items become one, in place |
| OperatorTree.OperatorList.BuildOperatorTree | src/parser/buildOperatorTree.cc:14-153 | The loop returns what repeated reduction of the list gives |
| Leb128.ReadULEB128 | runtime/libs/exceptions.cc:144-160 | The loop returns the number the groups spell (section 7.6 of DWARF version 3), up to four groups, and the position behind it |
| Leb128.ReadSLEB128 | runtime/libs/exceptions.cc:167-187 | The same for the signed form, as a machine word |
| Leb128.UnsignedRoundTrip | runtime/libs/exceptions.cc:144-160 | Reading an encoded number below 2^28 gives it back and stops right behind it, wherever it stands |
| Leb128.SignedRoundTrip | runtime/libs/exceptions.cc:167-187 | The same for signed numbers of 28 bits |
| Leb128.OrIsPlus | runtime/libs/exceptions.cc:152 | The bitwise or of the readers adds: what is shifted lands above the bits gathered before |
| Leb128.SignIsPlus | runtime/libs/exceptions.cc:182-184 | Spreading the sign is an addition, too |
| EncodedPointer.ReadEncodedPointer | runtime/libs/exceptions.cc:220-296 | Omitted, fixed and variable formats, sign extension of the signed ones, the aborts, and the position behind |
| EncodedPointer.PointerRoundTrip | runtime/libs/exceptions.cc:220-296 | In every plain encoding a pointer it can carry is read back, and reading stops right behind it |
| EncodedPointer.FixedRoundTrip | runtime/libs/exceptions.cc:228-263 | Little-endian numbers of any width are read back |
| PointerCodes.TwoByCode | runtime/libs/exceptions.cc:243-260 | Codes 2 and 0x0A: two bytes, the second times 256, unsigned and sign-extended to a word, and the position two bytes on |
| PointerCodes.FourByCode | runtime/libs/exceptions.cc:247-264 | Codes 3 and 0x0B: the same for four bytes |
| PointerCodes.EightByCode | runtime/libs/exceptions.cc:227-268 | Codes 0, 4 and 0x0C: the same for eight bytes, which are the word |
| PointerCodes.OtherByCode | runtime/libs/exceptions.cc:220-273 | Code 0xFF reads nothing; codes 1 and 9 read the numbers in groups of seven bits; all other codes below 16 stop the runtime |
| PointerCodes.UpperBits | runtime/libs/exceptions.cc:275-293 | With upper bits the value is read as without them first; bases other than the position stop the runtime |
| PointerCodes.SizeByCode | runtime/libs/exceptions.cc:189-212 | The size of an entry of the type table: 2, 4 or 8 by the low four bits, 0 for an omitted table, and otherwise the runtime stops |
| PointerCodes.ReadByGroups | runtime/libs/exceptions.cc:144-187 | For any bytes with at most four groups: the low seven bits of each, times powers of 128, bit 6 of the last being the sign of the signed form, and the position behind the last group |
| ActionTable.HandleActionValue | runtime/libs/exceptions.cc:317-397 | The walk of a chain in any bytes, unless it is still going on after one record more than there are bytes: match, no match, or what stops it |
| ActionTable.ChainMatchIff | runtime/libs/exceptions.cc:348-396 | For any bytes: matched with k if and only if the chain begins with k readable records of which the last one is the first with a positive filter whose type is the thrown type, the ones before being cleanups or other types; no match if and only if the chain ends and all are cleanups or other types. What stands behind the match does not matter |
| ActionTable.ChainNames | runtime/libs/exceptions.cc:348-396 | On records and types written out the walk gives the first record that names the type |
| ActionTable.ChainRoundTrip | runtime/libs/exceptions.cc:348-353 | A chain of records anywhere in an action table, linked by any distances, forwards or backwards, is read back |
| ActionTable.ConsecutiveWritten | runtime/libs/exceptions.cc:348-353 | Records one behind the other are such a chain |
| ActionTable.EndlessIff | runtime/libs/exceptions.cc:344-394 | For any bytes: the walk goes on for ever if and only if it is still going on after one record more than there are bytes, and if and only if it comes back to a record with every record on the way read and passed over |
| ActionTable.EndlessChain | runtime/libs/exceptions.cc:344-394 | The bytes 0 and 127 are a record that links to itself: the walk never decides |
| ActionTable.LookupEncoded | runtime/libs/exceptions.cc:374-379 | In a type table written backwards from its end every filter finds its own type |
| Lsda.HandleLsda | runtime/libs/exceptions.cc:411-581 | Header, walk and response on the bytes: the outcome is that of the decoded table, unless the chain of the call site selected loops |
| Lsda.RunsForeverIff | runtime/libs/exceptions.cc:411-581 | The runtime runs for ever on a table if and only if its header can be read, a call site with a landing pad is selected, and the action chain of that site goes on for ever in the sense of `ActionTable.EndlessIff` |
| Lsda.WalkCallSites | runtime/libs/exceptions.cc:469-578 | The loop stops at the first record with a landing pad whose range contains the pc, and terminates |
| Lsda.Land | runtime/libs/exceptions.cc:508-577 | What is done there in either phase |
| Lsda.SiteAdvances | runtime/libs/exceptions.cc:469-478 | Every iteration gets at least a byte further, whatever the encoding |
| LsdaTheorem.LayoutNeverLoops | runtime/libs/exceptions.cc:411-581 | On a table laid out from records, their chains linked in any way that ends, it never does |
| Lsda.PhasesAgree | runtime/libs/exceptions.cc:505-577 | On the same table, pc and exception: a handler found in the search phase is the record whose pad the cleanup phase installs with a positive selector; otherwise cleanup continues or installs with selector 0; unreadable tables fail alike, and an endless chain is endless in both |
| LsdaTheorem.SelectIsFirst | runtime/libs/exceptions.cc:469-508 | The search over records gives the first one with a nonzero landing pad whose range contains the pc, nothing exactly if there is none |
| LsdaTheorem.TableSpelled | runtime/libs/exceptions.cc:469-478 | The walk over the bytes of an encoded call-site table, wherever it stands, finds what the search over its records finds |
| LsdaTheorem.TableFound | runtime/libs/exceptions.cc:469-578 | The same without the seal, for any bytes that spell a table |
| LsdaTheorem.HeaderRoundTrip | runtime/libs/exceptions.cc:440-466 | The header of an encoded table is read back: encodings, end of the type table, bounds of the call-site table |
| LsdaTheorem.PersonalityOnLayout | runtime/libs/exceptions.cc:411-581 | On the bytes of a whole table written from call sites, action chains and type pointers, wherever they stand, the routine does not run for ever and answers in both phases as these records ask for |
| LsdaTheorem.CaughtOnLayout | runtime/libs/exceptions.cc:505-577 | On such a table: a handler is found if and only if the first call site that covers the pc with a landing pad leads to a chain with a record that names the type thrown; the cleanup phase installs this landing pad with the number of the first such record, and goes on if and only if there is no such call site |
| LsdaTheorem.CaughtAtAddress | runtime/libs/exceptions.cc:411-581 | The same by addresses: with `i` the first record that has a landing pad and whose range, from the start of the function, holds the instruction before `ip`, the search finds a handler exactly if a record of its chain names the type thrown, and the cleanup goes to that pad with the number of that record, or 0; with no such record both go on |
| LsdaTheorem.ActionReachesChain | runtime/libs/exceptions.cc:495-497 | An action is the distance of a chain in the action table plus one: the adjusted entry is the start of that chain |
| LsdaTheorem.FiltersFindTypes | runtime/libs/exceptions.cc:374-379 | In a whole encoded table every filter finds the type of its pointer |
| VirtualTable.TypeChecker.FixTypes | src/visitors/TypeChecker.cc:743-801 | One pass: the new table is the merge of the tables of the chain; numbers, override marks and reports are those of the pass in order; other classes keep their tables |
| VirtualTable.TypeChecker.AddFunction | src/visitors/TypeChecker.cc:766-795 | One function: appended with the running number, or put over the one it overrides, with a report if it is the class's own and not marked |
| VirtualTable.TypeChecker.Find | src/visitors/TypeChecker.cc:770-773 | First slot with the same name and type ignoring self |
| VirtualTable.SameSlotIffSameKey | src/ast/types/FunctionType.cc:61-73 | Name and type ignoring self compare equal exactly if their keys do, that is if names, arguments without self, return types and variadic flags are equal |
| VirtualTableTheorem.ChainTable | src/visitors/TypeChecker.cc:761-798 | The table of a chain has no key twice, exactly the keys of the chain, and holds exactly the last function from root to leaf for every key |
| VirtualTableTheorem.AncestorSlots | src/visitors/TypeChecker.cc:761-798 | The slots of an ancestor are the first slots of a descendant |
| VirtualTableTheorem.MergedAgain | src/visitors/TypeChecker.cc:743-801 | A pass over a merged table changes nothing |
| VirtualTableTheorem.SameTable | src/visitors/TypeChecker.cc:743-801 | Whichever ancestors are merged already, a pass gives a class the same table |
| VirtualTableTheorem.AnyOrder | src/visitors/TypeChecker.cc:434-436 | Passes over a hierarchy in any order and any number end with the same tables |
| VirtualIndex.NumberIsSlotIff | src/visitors/TypeChecker.cc:763-794 | The number given is the slot if and only if the function overrides, or is the first in an empty table, or stands behind a function that holds the last slot and has the right number |
| VirtualIndex.AllNumberedIffGood | src/visitors/TypeChecker.cc:763-794 | All numbers of a list are slots of the merged table if and only if every new function stands at the start with an empty table or behind one that holds the last slot |
| VirtualIndex.IndexIsSlotIff | src/visitors/TypeChecker.cc:763-798 | After the pass over a chain the number stored in a function is its slot if and only if its last occurrence was numbered well |
| VirtualIndex.OverrideThenNewIsWrong | src/visitors/TypeChecker.cc:763-794 | An override of the first of two slots followed by a new method: the new one gets 1 and sits in slot 2 |
| VirtualIndex.InheritedFirstIsGood | src/visitors/TypeChecker.cc:763-794 | A list that begins with the inherited keys in slot order is numbered well, a merged table in particular |
| VirtualIndex.CreateVirtualTable | src/builder/llvm/createVirtualTable.cc:17-31 | Two null entries, then for every function in order its code, or null if it is a declaration |
| VirtualIndex.DispatchReachesLast | src/builder/llvm/buildCall.cc:113-134 | With the slot as number, a call through any class of the chain loads the code of the most derived function with the key from the table of the last class, and null only if that is a declaration |
| VirtualTable.TypeChecker.FixAllTypes | src/visitors/TypeChecker.cc:434-435 | The passes for all classes one after the other, over the same function objects: tables, numbers, marks and reports |
| VirtualReports.PassReports | src/visitors/TypeChecker.cc:774-790 | A pass reports exactly those of the own functions of the class that have the name and the type, ignoring self, of one before them in the chain and are not marked `override`, each once, and marks them |
| VirtualProgram.NumbersAreSlots | src/visitors/TypeChecker.cc:434-435 | After passes over the classes of a hierarchy, in any order and any number: if every original list is ordered well over the tables above it, the number of every function of the chain of a class that had a pass is its slot in the table of every class that has the function |
| VirtualProgram.CallReachesLast | src/builder/llvm/buildCall.cc:111-138 | Then a call of any function of the chain of a class, on an object of that class, loads with the number left the code of the last function of the chain with its key from the final table, and null only if that is a declaration |
| VirtualProgram.LastPassDecides | src/visitors/TypeChecker.cc:763-798 | Whatever the lists: the last pass that meets a function leaves its number, and it is the slot if and only if the class of the list it was met in last had been merged before or its original list numbers the function well |
| VirtualProgram.OrderOfPassesMatters | src/visitors/TypeChecker.cc:434-435 | A class with an override in front of a new method, and a child: merged before its child the new method ends with its slot, after its child with a wrong number |
| Checker.TypeChecker.VisitFunc | src/visitors/TypeChecker.cc:58-71 | A checked function is left alone; otherwise it is marked, its body visited in its own context, and context and current function are restored; terminates on recursive programs |
| Checker.TypeChecker.VisitCall | src/visitors/TypeChecker.cc:189-244 | Reports calls of functions that are not implemented, or unsafe outside an unsafe context; goes on to the callee, then to the arguments; the first operand of an assignment to what is not mutable is visited once more before that is reported |
| Checker.TypeChecker.CheckMutability | src/visitors/TypeChecker.cc:478-492 | The second visit of such an operand and the report |
| Checker.TypeChecker.VisitDereference | src/visitors/TypeChecker.cc:86-118 | Reports a pointer dereference outside an unsafe context, behind what the operand reports |
| Checker.TypeChecker.VisitBlock | src/visitors/TypeChecker.cc:427-432 | An unsafe block makes its items unsafe and nothing else |
| Checker.TypeChecker.VisitSwitch | src/visitors/TypeChecker.cc:169-187 | Visits scrutinee and case blocks, not the default |
| Checker.TypeChecker.VisitWhileLoop | src/visitors/TypeChecker.cc:302-305 | Visits condition and body, not the step |
| Checker.TypeChecker.VisitConditional | src/visitors/TypeChecker.cc:307-311 | Visits condition, block and the other arm |
| Checker.TypeChecker.VisitTryCatch | src/visitors/TypeChecker.cc:266-271 | Visits the block and the catch blocks |
| Checker.TypeChecker.Visit | src/visitors/TypeChecker.cc:58-445 | Any value, functions used as values included: its own errors and those of the bodies entered are added, everything it refers to is checked, directly or not, and nothing else; the unsafe flag is restored |
| Checker.TypeChecker.Codegen | src/visitors/TypeChecker.cc:434-444 | Variables, then functions from the end: the same for all of them together; succeeds exactly without errors |
| CheckerTheorem.RunChecksReached | src/visitors/TypeChecker.cc:434-444 | A run from the start checks the least set of functions that contains the roots and what its members call, each once, and reports exactly its own errors and those of their bodies |
| CheckerTheorem.RunsAgree | src/visitors/TypeChecker.cc:434-444 | In whatever order a run goes, the functions checked and the errors are the same |
| CheckerTheorem.VisitedParts | src/visitors/TypeChecker.cc:58-432 | Which parts of a value are visited: all but the default and the case values of a switch, the step of a loop and the base of a member access |
| CheckerTheorem.ReportedIffExposed | src/visitors/TypeChecker.cc:86-242 | A value reports an error exactly if visits lead to its cause - a dereference of a pointer, a call of an unsafe function that is implemented, a call of one that is not, an assignment to what is not mutable - and, for the first two, outside an unsafe context and through no unsafe block |
| CheckerTheorem.ReportedOnce | src/visitors/TypeChecker.cc:86-242 | A call or a dereference reports its own cause at most once |
| CheckerTheorem.OperandReportedTwice | src/visitors/TypeChecker.cc:450-495 | What the first operand of a call reports is reported twice where the call assigns to it and it is not mutable, and the assignment is reported |
| CheckerTheorem.CalleeIffNamed | src/visitors/TypeChecker.cc:58-432 | A visit goes on to exactly the functions that are called, or used as values, at the end of a way down through visited parts |
| CheckerTheorem.UnsafeCallReported | src/visitors/TypeChecker.cc:222-235 | A call of an unsafe function is reported in a safe context and not in an unsafe one |
| CheckerTheorem.BodyReports | src/visitors/TypeChecker.cc:58-71 | A function body, whoever calls it, reports exactly the errors whose causes are exposed in it; what unsafe contexts allow is allowed in the body of an unsafe function that is not exempt |
| CheckerTheorem.RunReports | src/visitors/TypeChecker.cc:434-444 | A whole run reports an error if and only if it is one of a variable or of the body of a function reached |
| CheckerTheorem.RunReportsExposed | src/visitors/TypeChecker.cc:434-444 | A whole run reports an error of any of the four kinds if and only if its cause is exposed in a variable, or in the body of a function reached from the variables and the functions of the module |
| Types.IsIffSameShape | src/ast/types/FunctionType.cc:30-40 | `is` holds exactly between types of the same shape: primitives by name, pointers whatever their mutability |
| Types.IsEquivalence | src/ast/types/PointerType.h:35-38 | So `is` is an equivalence, and pointers of different mutability are equal |
| Types.MangleFunction | src/ast/types/FunctionType.cc:42-50 | The loop that appends to the result gives the mangled name |
| Mangling.TypeDecodes | src/ast/types/PointerType.cc:28-31 | Whatever follows a mangled name, a decoder reads the shape of the type and then the suffixes that follow |
| Mangling.MangledDecodes | src/ast/types/FunctionType.cc:42-50 | A mangled name decodes to the shape of its type |
| Mangling.MangledIffIs | src/ast/types/Type.h:71-77 | Mangled names are equal if and only if the types are equal under `is`, at any nesting |
| Mangling.PrimitivesDiffer | src/ast/types/PrimitiveTypes.h:79-97 | Primitive types are equal under `is` if and only if they are the same, an integer of one bit being `bool` with either sign |
| Mangling.PrimitiveNames | src/ast/types/PrimitiveTypes.h:12-21 | Primitive types by the names the language has for them, and unsigned ones |
| Mangling.MangledNames | src/ast/types/FunctionType.cc:42-50 | A pointer, and a function from a number to a reference, mangled |
| Mangling.DigitsValue | src/ast/types/Type.h:77 | The decimal length in a name is read back |
| Layout.FieldPlaced | src/ast/types/DefinedType.cc:131-137 | Every field starts at a multiple of its alignment with less padding before it than the alignment |
| Layout.NoOverlap | src/ast/types/DefinedType.cc:131-137 | A field ends before any later one starts |
| Layout.LeastPlacement | src/ast/types/DefinedType.cc:131-140 | Of all placements at aligned starts in which no field begins before an earlier one ends, the loop gives every field the earliest start; the padded size is the least multiple of the largest alignment that holds them |
| Layout.AlignmentIsLargest | src/ast/types/DefinedType.cc:146-154 | The alignment is that of some field, at least that of every field, and 1 without fields |
| Layout.SizeBy | src/ast/types/DefinedType.cc:141-143 | The size is the padded size, 1 instead of 0, and 8 more for a virtual table, in classes before and in interfaces after that |
| Layout.PaddingIsNext | src/ast/types/DefinedType.cc:134-135 | The first padding formula adds nothing, the second goes to the next multiple |
| Layout.SizeHolds | src/ast/types/DefinedType.cc:129-144 | A size is positive and holds all fields |
| Layout.SizeIsAlignedIff | src/ast/types/DefinedType.cc:138-143 | Without a virtual table a size is a multiple of the largest alignment if and only if there is something to hold or that alignment is 1 |
| Layout.VtableLosesAlignment | src/ast/types/DefinedType.cc:141 | One field of 16 bytes aligned at 16: with a virtual table the size is no multiple of 16 |
| Layout.EmptyLayoutsDiffer | src/ast/types/Interface.cc:85-99 | With a virtual table and nothing else the size is 8 in a class and 9 in an interface |
| Layout.SizeWithVtableIsAlignedIff | src/ast/types/DefinedType.cc:141 | With a virtual table, if and only if 8 is |
| Layout.SizeAlignsEveryField | src/ast/types/DefinedType.cc:146-154 | With powers of two, the size of something to hold is a multiple of every alignment |
| Layout.LayoutsAgreeIff | src/ast/types/Interface.cc:85-99 | Class and interface sizes agree if and only if there is no virtual table or something else to hold |
| Layout.MultipleIffRemainder | src/ast/types/DefinedType.cc:135 | Multiples are what the remainder operator says |
| Layout.PlaceFields | src/ast/types/DefinedType.cc:131-137 | The loop over the fields and the addresses at which it places them |
| Layout.ClassSizeOf | src/ast/types/DefinedType.cc:129-144 | The whole size computation of a class |
| Layout.InterfaceSizeOf | src/ast/types/Interface.cc:85-99 | The whole size computation of an interface |
| Layout.ComputeAlignment | src/ast/types/DefinedType.cc:146-154 | The largest alignment, 1 if there is none |
| LexerPrinting.PrintThenLex | src/lexer/tokens/token.h:216-328 | Lexing the blank-separated text of symbols, brackets, operators, keywords and other identifiers gives back kinds and identifiers and an end token; for no tokens it gives none, not even the end |
| LexerEnd.LexedEnd | src/lexer/lexer.cc:35-41 | Every source that lexes: no tokens if and only if it is empty, otherwise the last token is an end token; an end token elsewhere stands for a zero character |
| LexerPrinting.TokenRead | src/lexer/lexer.cc:45-738 | One printed token followed by a blank or the end is read as itself, and the lexer stops right behind it |
| Tokens.KeywordRecognised | src/lexer/lexer.cc:594-676 | The chain of comparisons recognises the spelling of every keyword as that keyword |
| Tokens.KeywordsDiffer | src/lexer/tokens/token.h:274-314 | No two keywords are spelled alike |
| Tokens.IdentifierIff | src/lexer/lexer.cc:594-680 | A word is an identifier exactly if it is no keyword and neither `true` nor `false` |
| Tokens.SymbolRead | src/lexer/lexer.cc:109-236 | A symbol followed by a blank or the end is read as itself, the dot excepted |
| Tokens.WidthIsSpelling | src/lexer/lexer.cc:109-236 | Punctuation eats as many characters as its spelling has; `>>` is two tokens |
| TokenTexts.KeywordIff | src/constants.h:220-262 | A word is a keyword if and only if the list of all words, written out, gives it that keyword |
| TokenTexts.SymbolTextIff | src/lexer/tokens/token.h:216-270 | The text of every symbol |
| TokenTexts.SymbolLexed | src/lexer/lexer.cc:109-236 | The text of any symbol but the dot, before a blank or the end, is one token with the line and column where it stands, and the lexer goes on behind it |
| LexerPositions.LexedTokensStand | src/lexer/lexer.cc:764-770 | Of any source that lexes, every token recorded directly has the line and column of its offset, the column too large by the number of set-backs on the line, and its text stands at that offset |
| LexerPositions.PositionsLeadBack | src/utils/utils.cc:52-75 | Without set-backs on the line, the position of a symbol or word leads back to its text |
| LexerPositions.StepGood | src/lexer/lexer.cc:45-738 | Every round keeps line and column right up to the set-backs: blanks, newlines, comments, strings with escapes, numbers with suffixes |
| LexerPositions.NumberGood | src/lexer/lexer.cc:569-577 | A number sets the lexer back once for a range and once for a dot at its end, and leaves the cursor right but for that |
| LexerPositions.RangeSetsBack | src/lexer/lexer.cc:569-577 | `1..` sets the lexer back, so the columns behind it are too large |
| LexerPositions.NumberColumn | src/lexer/lexer.cc:540-551 | A number records a column too large by the dots it gives away |
| LexerNumbers.NumberSpelledIff | src/lexer/lexer.cc:500-577 | The digits and dots recorded for a number spell the text from one cursor to the next, but for the suffix letters, if and only if no second dot follows a fraction that has digits; if one does, the last digit is lost and a dot recorded in its place |
| LexerNumbers.DigitIsLost | src/lexer/lexer.cc:502-507 | `1.5..` gives the number 1 and three dots, and the next token is read from the last dot of the text |
| LexerNumbers.NumberKindIff | src/lexer/lexer.cc:497-554 | A number is a fraction if and only if it has no base prefix, its digits end in a dot, a digit follows the dot, and no second dot follows the digits behind it; otherwise an integer |
| LexerNumbers.BaseNumber | src/lexer/lexer.cc:492-554 | A zero, the letter of a base and all digits of that base are one integer, recorded with the suffix letters in front and the column where it begins |
| LexerTexts.LiteralMeans | src/lexer/lexer.cc:237-452 | Text between quotes that is spelled by characters, escapes with their codes, hexadecimal escapes of any length and joined lines is recorded with what these mean; a character only if that is one |
| LexerTexts.LiteralIsPieces | src/lexer/lexer.cc:237-452 | Every literal accepted is spelled that way |
| LexerTexts.CharStands | src/lexer/lexer.cc:237-359 | A plain character literal is recorded with the line and column where it begins |
| LexerTexts.BlockCommentEnds | src/lexer/lexer.cc:65-98 | A block comment ends behind its first `*/`; it is an error exactly if there is none before a zero character or the end |
| LexerTexts.LineCommentEnds | src/lexer/lexer.cc:54-64 | A line comment goes to the first newline or zero character and records nothing but the end token there |
| LexerTexts.BlanksSkipped | src/lexer/lexer.cc:45-51 | A space or tab moves on one column and a newline to the next line, neither being recorded; a zero character is an end token |
| LexerTexts.DotBeginsFraction | src/lexer/lexer.cc:464-481 | A dot before a digit begins a `VALUE_FLOAT` with all digits that follow |
| LexerTexts.CharacterClasses | src/lexer/lexer.cc:28-30 | Digits, hexadecimal digits and letters by their codes |
| LexerTexts.BooleanWords | src/lexer/lexer.cc:676-680 | `true` and `false` and no other words are boolean literals |
| Lexer.StepAdvances | src/lexer/lexer.cc:45-738 | Every round gets further in spite of the setting back |
| Positions.RangeGivesBackIff | src/utils/utils.cc:52-75 | The positions of two offsets give back the text between them if and only if it is not the whole of the text, which gives the empty string |
| Positions.WholeTextIsLost | src/utils/utils.cc:52-75 | The positions of the start and the end of `ab` give the empty string |
| Positions.PosInjective | src/utils/utils.cc:65-70 | Different offsets have different lines or columns |
| Positions.GetSubstringByRange | src/utils/utils.cc:52-75 | The scan over the text |
| Tokenizer.Tokenizer.Tokenize | src/lexer/lexer.cc:35-749 | The loop over the source, with the end token unless it is there |
| Tokenizer.Tokenizer.LexOne | src/lexer/lexer.cc:45-738 | One round in place is one step of the specification |
| Tokenizer.Tokenizer.LexNumber | src/lexer/lexer.cc:483-579 | Decimal, prefixed and dotted numbers, suffixes, and the dots given back |
| Tokenizer.Tokenizer.LexQuoted | src/lexer/lexer.cc:366-452 | The loop over quoted text with escapes |
| Tokenizer.Tokenizer.LexBlockComment | src/lexer/lexer.cc:65-98 | The loop over a block comment |
| Tokenizer.Tokenizer.FindWord | src/lexer/lexer.cc:594-680 | The chain of keyword comparisons |
| Tokenizer.Tokenizer.ConsumeToken | src/lexer/lexer.cc:764-770 | Records the token at the current line and column, then eats |
| Scopes.WithStateRestores | src/visitors/TransformContext.cc:58-63 | Running a callback under a saved state gives back local scopes, module, uuid stack and class exactly, even if the callback leaves scopes open or runs further ones, and keeps what it added to the global scope |
| Scopes.LookupsKept | src/visitors/TransformContext.cc:58-63 | Names found before are found as before |
| Scopes.BodyKeeps | src/ast/visitor/ASTContext.h:109-126 | A callback that closes no scope it has not opened changes at most the innermost and the global of the scopes it found, and these only by adding |
| Scopes.LookupIsInnermost | src/ast/visitor/ASTContext.h:74-84 | The innermost scope with the name decides |
| Scopes.AddedIsFound | src/ast/visitor/ASTContext.h:60-67 | An item is added to the innermost scope if its name is not there yet; then it is found under its name, everything else as before |
| Scopes.ScopeComesAndGoes | src/ast/visitor/ASTContext.h:109-127 | A new scope hides nothing; dropping it with what was added to it gives the context back |
| Scopes.SettersSet | src/visitors/TransformContext.cc:46-55 | Module, uuid stack and class are replaced each on its own, the rest of the context staying |
| Scopes.TransformContext.GetItem | src/ast/visitor/ASTContext.h:74-84 | The loop over the scopes |
| Scopes.TransformContext.SetState | src/visitors/TransformContext.cc:46-55 | All but the global scope is replaced |
| Scopes.TransformContext.SaveState | src/visitors/TransformContext.cc:39-43 | All but the global scope is kept |
| Scopes.TransformContext.RunWithState | src/visitors/TransformContext.cc:58-63 | Save, set, run, set back |

## Left out

- LLVM itself: values, types, debug information, passes and object emission; constant folding by the
  builder. Registers and blocks are numbers, operators and calls are parameters of the semantics (`World`).
- Lowering of try and catch, closures, calls with a returned structure, floating point operators, and the
  virtual table stores at the start of a constructor.
- Assignment operators and loads are single instructions on a store of named integers; memory and
  pointers are not part of this model.
- Checker.TypeChecker.VisitCall: whether the first operand of an assignment is mutable is given; the other
  kinds of error (void values, casts, returns, calls of mutating methods, the fields of an enum) are not
  part of this model. An enum initialiser visits its arguments like a call without a function.
- Checker.TypeChecker.Codegen: variables are given by their initial values; fixing the types, which comes
  before, is `VirtualTable.TypeChecker.FixTypes`.
- ExpressionList.TokenCursor.ParseExpr: an operand with its calls, indexing, casts and member accesses is
  one token, and so are a macro call and a parenthesis; that any token with a `!` directly behind it, a
  prefix operator included, is taken for a macro name (src/parser/parseExpr.cc:42) is not modelled.
- ExpressionList.ReadExprIff: the same holds for tokens with a `!` directly behind them.
- ExpressionList.BuiltTreeSpellsTokens: the same.
- OperatorTree.OperatorList.BuildOperatorTree: source positions.
- Leb128.ReadULEB128: numbers of more than four groups, for which the shift of the source leaves its `int`,
  are an error of their own; reading past the end of the bytes is another.
- Leb128.ReadSLEB128: the same.
- EncodedPointer.ReadEncodedPointer: pc-relative and indirect pointers are marked as not modelled.
- Lsda.HandleLsda: the runtime functions of the unwinder are parameters and the outcome. A loop that does
  not end has no method here, so tables on which the source does not end are excluded, by the condition of
  `Lsda.RunsForeverIff`.
- Lsda.WalkCallSites: the same.
- Lsda.Land: the same.
- ActionTable.HandleActionValue: chains on which the source does not end are excluded, by the condition of
  `ActionTable.EndlessIff`. Type info pointers lead to type numbers by a map; a pointer outside it is
  reported as wild.
- VirtualTable.TypeChecker.FixTypes: the types of arguments are numbers that are equal when the types are.
- Types: classes, interfaces, enums, generics and type aliases; `is` is not symmetric for aliases.
- Layout: sizes and alignments of field types are given; a `void` field, whose alignment is 0, divides by
  zero in the source and is excluded.
- Tokenizer.Tokenizer.Tokenize: documentation comments attached to tokens, the texts of error messages, and
  the exception of a hexadecimal escape that does not fit an `int`. A `double` is assigned to the value of a
  token as a character; for a number that begins with its dot that character is 0.
- LexerPrinting.PrintThenLex: numbers, strings and characters, whose printer does not undo the lexer.
- Scopes.TransformContext.RunWithState: callbacks are sequences of actions; a callback that raises an error
  leaves the context as it is, as in the source. The module of the builder is not part of this model.
- Grammar of declarations, overload resolution, generics, imports, caches, macros, the documentation
  generator, the package manager and the command line: long branching without an invariant of its own.
