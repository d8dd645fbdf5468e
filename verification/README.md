# Verified model of the cbc language implementation

This project models, in Dafny, the parts of a small dynamic language that are hard to get
right, and proves properties of them that hold for every input, every program or every
run. It stands beside the C and script sources and needs nothing but Dafny 4.11:
`dafny verify dfyconfig.toml`.

Six parts share a small vocabulary.

1. **Compiler and virtual machine.** `Syntax` has the trees, `Parser` the grammar as
   functions, `Codegen` the code of a tree, `Assembly` the encoding and the two-pass
   meaning of labels. `Compiler` is the one-pass compiler as it is written: recursive
   procedures over tokens that emit and patch code while they read (`Bytecode`, `Scopes`
   are its buffer and its scope chain). `Machine` is one step of the dispatch loop,
   `Semantics` the direct evaluation of trees, and `Layout`, `Labels`, `Activation`,
   `Outcomes`, `Simulation`, `Meaning`, `Correctness` connect them. `Vm` is the recursive
   interpreter itself, which makes no checks of its own, and `Interpreter` runs tokens from
   end to end. `Laws` says what the operators compute, `Programs` what some scripts leave.
   `Grammar` and `Scripts` are the language as a grammar of levels without binding powers;
   `Pratt` and `Minimal` print trees as shortly as can be. `Notes`,
   `Nesting`, `Shapes`, `Discipline`, `Catching` and `StackBound` are about the try stack
   and the stack size.
2. **Garbage collector.** `Marking` has the mark functions, `Termination` says when marking
   ends, `Collector` is the collector over a memory of objects, with the in-place sweep.
3. **Native hash map and inline caches.** `Hashing` is about open addressing, `HashMap` is the
   map, `GlobalCache` and `StructCache` are the caches of instructions.
4. **Open upvalues.** `Upvalues` is the list of pointers into the stack and its two loops,
   `Cells` compares it with variables in cells.
5. **Regular expressions.** `Regex` has the shunting yard, `Automaton` the constructions on
   graphs, `Thompson` the same on mutable objects with the search, `Frontier` what the
   search keeps.
6. **Script hash map and printing.** `ScriptMap` is the map of the script library with
   tombstones and a linked list; `Printing` turns values into text.

Loops and objects of the sources are methods and classes here, each proved against a
function or predicate; the theorems about runs are lemmas about those. Where a property
fails of the code, the code is kept and the failing input and the exact condition are
proved; "Findings" lists these.

## Findings

- `<` on integers subtracts with 64-bit wrap-around, so `-2^63 < 1` is false. It agrees with
  the order exactly when the difference fits in 64 bits (`Values.LessThanIsOrderIff`,
  `Values.LessThanCounterexample`).
- A caught error leaves operands on the stack. `while (true) { try { 1 + null(); } catch { } }`
  grows the stack without bound although its code was given two slots
  (`StackBound.CaughtErrorsLeak`). The heights are those the compiler counts on exactly when
  every caught error is raised in the frame of its `try`, at an instruction where, without
  its own operands, the compiler has noted as many as at the catch label
  (`StackBound.HeightsIff`). So errors of calls and errors that leave a frame always leak
  (`StackBound.CallErrorsLeak`).
- Two closures over one variable share it exactly as long as no smaller slot of the open
  upvalues has been captured behind it (`Cells.FindsIff`, `Cells.SharingIff`). Capturing the
  second variable, the first, and the second again separates the closures after the return
  (`Cells.OrderMatters`).
- Marking does not end on an array that contains itself (`Termination.SelfContainedArray`). It
  ends exactly when no circle made only of arrays and code objects is reachable
  (`Termination.MarkingEndsIff`, `Termination.CircleIsTrap`, `Termination.TrapHasCircle`).
- Holding an array from C keeps its elements but not the array itself, unless it is reachable
  from one of them (`Termination.HeldArrayIsNotLive`); an empty array that is held is lost
  (`Termination.HeldEmptyArrayIsLost`).
- A load at a fresh site whose receiver has a method and no field of the name remembers the
  index -1 for the receiver's spec (`StructCache.MethodAtFreshSite`). The caches stay right
  exactly when no load does that (`StructCache.Site.Load`, `StructCache.Code.ExecuteAll`).
- After a deletion the script hash map can hold a key twice (`ScriptMap.DuplicateAfterDelete`):
  setting adds a bucket exactly when a slot without live bucket comes before the key
  (`ScriptMap.HashMap.Set`). When eight keys have come and gone in a table of eight slots,
  every search runs for ever (`ScriptMap.EndlessAfterDeletes`): it does exactly when no slot
  is empty and none has the key (`ScriptMap.HashMap.Find`).
- The load tests of both hash maps divide integers, so the tables grow only when full
  (`HashMap.LoadTestIsFullness`, `ScriptMap.LoadTest`).

## Model

| member | source | states |
|---|---|---|
| Meaning.MeaningPreserved | compiler.c:1671-2201 | for every well-placed program of the fragment, the emitted code reaches a final state (end of module, uncaught error, end of process) if and only if direct evaluation concludes with it, with the same globals |
| Meaning.NeverStuck | eval.c:367-464 | no run of compiled code pops an empty stack, jumps out of its code, or reads a missing local, constant or try entry |
| Simulation.ExprCorrect | compiler.c:2704-2764 | the code of any expression pushes exactly its value, or raises its error with leftovers above the operands, whatever the operands, the try stack and the callers are |
| Simulation.BlockCorrect | compiler.c:1198-1246 | the same for statements: falling through, `break`, `continue`, `return`, a thrown error and the end of the process each arrive where and with the stacks they should |
| Simulation.IfCorrect | compiler.c:1671-1720 | both branches of `if`, including an `else` block without scope of its own |
| Simulation.WhileCorrect | compiler.c:1796-1836 | every number of turns of a `while` loop, and running on for ever |
| Simulation.ForStmtCorrect | compiler.c:1722-1794 | `for` with its initialiser, test, step and body, where `continue` runs the step |
| Simulation.LeaveCorrect | compiler.c:1838-1872 | `break` and `continue` pop exactly the trys inside the loop before they jump |
| Simulation.TryCorrect | compiler.c:2143-2201 | `try`: errors of the body reach the handler with the error bound, whatever they left on the stack |
| Simulation.HandlerCorrect | eval.c:1342-1358 | the handler runs above the leftovers of the interrupted code as if they were not there |
| Simulation.LogicCorrect | compiler.c:2970-2995 | the short-circuit operators evaluate the right operand only when needed and leave one value |
| Simulation.CallExprCorrect | eval.c:141-207 | a call: callee and arguments in order, not callable, too few arguments, the 1000th activation, and the result of the body |
| Simulation.FunBody | compiler.c:1447-1600 | a function body from the allocation of its locals to its return, in a frame on the caller's stack |
| Labels.ModuleMarkedOnce | compiler.c:584-636 | generated code marks each of its labels exactly once |
| Assembly.DecodeEncode | opcode.h:80-91 | an instruction whose operands fit their fields is read back from its word |
| Assembly.Fetch | compiler.c:651-693 | the instruction at the address of an emission is that emission with its label resolved |
| Bytecode.AssembleInOnePass | compiler.c:584-693 | for any interleaving of asking for, referring to and marking labels, finishing succeeds exactly when every label referred to was marked, and the patched words are those of two-pass assembly |
| Bytecode.Buffer.MarkLabel | compiler.c:604-635 | marking a label patches every word that waits for it and no other, and keeps the rest of the waiting list |
| Bytecode.Buffer.AddressOf | compiler.c:651-674 | the address of a label if it has one; otherwise the reference is remembered |
| Bytecode.Buffer.Finalize | compiler.c:676-693 | succeeds if and only if every label that was referred to has been marked |
| Bytecode.PatchingIsResolving | compiler.c:604-635 | patching the waiting words gives the words that would have been emitted had the address been known |
| Scopes.EverySlotOnce | compiler.c:438-525 | under any nesting of scopes the visible bindings occupy each slot below the scope's number of locals exactly once |
| Scopes.FunctionState.AddBinding | compiler.c:489-509 | a new binding gets the first free slot; the number of slots of the function never falls behind |
| Scopes.FunctionState.GetBinding | compiler.c:511-520 | lookup gives the slot of the innermost, latest declaration, or none |
| Scopes.FunctionState.PopScope | compiler.c:466-487 | leaving a block restores exactly the bindings outside it, and its slots are free again |
| Compiler.CompileModule | compiler.c:1163-1196 | a token sequence is accepted exactly when the reader accepts it and `break`, `continue`, `return` and `function` are where the fragment allows them; the code is then that of the tree, and so is the code of each function; which tokens are which tree is in the rows of `Grammar` and `Scripts` |
| Compiler.CState.CompileUntil | compiler.c:1163-1175 | statements up to a token: accepted exactly when the grammar accepts them, with the code of the block appended and everything emitted before unchanged |
| Compiler.CState.IfStatement | compiler.c:1671-1720 | the code of the `if` tree that is read, label by label, or refusal of exactly the token sequences that are none |
| Compiler.CState.ForStatement | compiler.c:1722-1794 | the same for `for`, whose scope ends with the statement |
| Compiler.CState.WhileStatement | compiler.c:1796-1836 | the same for `while` |
| Compiler.CState.LeaveStatement | compiler.c:1838-1872 | the same for `break` and `continue`, refused outside loops |
| Compiler.CState.ReturnStatement | compiler.c:1874-1893 | the same for `return`, refused outside functions |
| Compiler.CState.TryStatement | compiler.c:2143-2201 | the same for `try`, with the try depth and its maximum kept |
| Compiler.CState.CompileInner | compiler.c:3050-3058 | an expression of a given binding power: accepted exactly when the grammar reads one, with exactly its code appended |
| Compiler.CState.ShortCircuit | compiler.c:2970-2995 | the right operand's code between the jump and its label |
| Compiler.CState.IdentifierExpression | compiler.c:2388-2455 | names, assignments, compound assignments and `++`, `--`, each with the code of its tree |
| Compiler.CState.ConstFunction | compiler.c:1447-1600 | a function compiled in a state of its own over the same tokens: the code of its tree, its arity, and the number of its locals patched in at the end |
| Compiler.CState.CreateCode | compiler.c:1090-1161 | the stack size is the highest point of the straight-line sum over the words, starting above the root scope's locals |
| Correctness.CompilerCorrect | compiler.c:1177-1196 | whatever tokens are accepted, running the words produced for them ends exactly as direct evaluation of the tree says, in both directions, and never goes wrong |
| Correctness.ImageIsCompiled | opcode.h:80-91 | the instructions decoded from the words are those that meaning preservation is about |
| Correctness.AcceptedIsGood | compiler.c:1658-1669 | every function of an accepted module is where its constant says, and its statements are well placed |
| Correctness.CompilePrinted | compiler.c:3050-3058 | printing any operator tree and compiling the tokens emits the code of that tree |
| Correctness.CompileText | compiler.c:1163-1196 | every script of the grammar compiles to the code of its tree, if its `break`, `continue`, `return` and `function` are where they may be |
| Correctness.AcceptedIsText | compiler.c:1163-1246 | only such scripts are accepted |
| Grammar.TextIsRead | compiler.c:2212-2289 | every text of the grammar is read as its tree: logical or and and, bitwise or, exclusive or and and, equality, order, sums, products, each level made of the next and associating to the left, then prefix operators, `**` to the right, calls; an assignment extends as far as it can |
| Grammar.ReadIsText | compiler.c:2704-3058 | whatever is read is a text of that grammar, with the tree that is read |
| Grammar.OneTree | compiler.c:3050-3058 | the grammar is unambiguous |
| Grammar.Examples | compiler.c:2212-2289 | `x + y * z`, `x * y + z`, `x - y - z`, `x ** y ** z` and `-x ** y` with their trees |
| Grammar.Literals | compiler.c:2704-2722 | each literal token is its literal |
| Grammar.Prefixes | compiler.c:2679-2702 | `-`, `!` and `~` are negation, not, and bitwise not |
| Scripts.ModuleIsRead | compiler.c:1163-2210 | every sequence of statements, as tokens, is read as its tree: which keyword is which statement, what belongs to it, which function has which number |
| Scripts.ReadIsModule | compiler.c:1163-2210 | whatever is read as a module is such a sequence, up to the end of the input |
| Pratt.RoundTrip | compiler.c:2997-3058 | the printed tree is read back as itself, in front of any token that ends an expression |
| Pratt.BareRead | compiler.c:2212-2289 | a bare tree is read as itself at every binding power that does not ask for parentheses, and reading goes on behind it |
| Pratt.ParensNeeded | compiler.c:2212-2289 | without the parentheses the printer puts around any operand, the reader stops inside it |
| Minimal.LeftParensNeeded | compiler.c:2212-2289 | without those around a left operand, whatever follows, no tree is read that has this operand on the left of its operator |
| Minimal.BareSwallows | compiler.c:3050-3058 | an operator tighter than the end of a tree is always taken into the tree |
| Minimal.NoShorterText | compiler.c:2997-3058 | whatever tokens are read as a tree, they are no fewer than those printed for it, assignments as operands included |
| Minimal.NoShorterModule | compiler.c:1163-1175 | the same for a module of one expression statement |
| Vm.Vm.RunModule | eval.c:116-139 | the recursive, unchecked interpreter ends as the machine's steps do after the same number of instructions, with the same globals, on every image without undefined runs |
| Vm.Vm.Eval | eval.c:367-464 | one activation: it returns with its result in the callee's place, fails outside any try, or stops, and the caller's machine state is the one the steps reach |
| Vm.Vm.DoCall | eval.c:141-207 | a call as seen by the caller, with the stack cut back to just above the callee's place |
| Vm.Vm.Instruction | eval.c:382-409 | one turn of the dispatch loop is one step of the machine |
| Interpreter.CompileAndRun | eval.c:116-139 | from tokens to verdict: the error and the final value of any watched global are those of direct evaluation, for any intrinsics and any hash function; refusal exactly of tokens that are no module; what the operators compute is in the rows of `Laws` |
| Interpreter.BudgetExists | eval.c:367-464 | a script whose evaluation concludes does so within every large enough number of steps |
| Machine.RunAdd | eval.c:382-388 | runs compose |
| Values.LessThanIsOrderIff | eval.c:938-948 | `<` on integers is the order if and only if the difference fits in 64 bits |
| Values.LessThanCounterexample | value.c:549-608 | the least integer is not `<` 1 |
| Laws.AddSteps | eval.c:503-544 | adding zero changes nothing, and adding one more gives one more |
| Laws.AddOverflows | eval.c:503-513 | addition is an error exactly when the second operand exceeds what is left of 64 bits |
| Laws.SubUndoesAdd | eval.c:546-548 | `a - b` is `c` if and only if `c + b` is `a` |
| Laws.SubOverflows | eval.c:503-513 | and an error exactly when no 64-bit integer is |
| Laws.MulSteps | eval.c:550-552 | `a * 0` is zero and `a * (b + 1)` is `a * b + a` |
| Laws.MulUndoneByDiv | eval.c:550-558 | `a * b` is `c` if and only if `c / b` is `a` without remainder |
| Laws.MulOverflows | eval.c:550-552 | multiplication is an error exactly when no 64-bit integer is the product |
| Laws.DivMod | eval.c:554-570 | quotient times divisor plus remainder is the dividend, the remainder is smaller than the divisor and has the sign of the dividend |
| Laws.DivModTrap | eval.c:554-570 | the process ends exactly on a zero divisor and on the quotient that does not fit |
| Laws.BumpIsNext | eval.c:534-540 | `++` and `--` are the next and the previous integer, or an error at the ends |
| Laws.NegIsInverse | eval.c:1037-1050 | `-a + a` is zero, except for the least integer, which stays itself |
| Laws.ComparesIff | eval.c:928-984 | `<`, `<=`, `>`, `>=` on integers tell the order if and only if the difference fits in 64 bits, and the opposite otherwise |
| Laws.StringsCompare | str.c:113-120 | on strings they tell the order by length and then by the first differing character |
| Laws.BeforeTransitive | str.c:113-120 | which is transitive, and total by the row above |
| Laws.Incomparable | value.c:549-608 | other values are comparable only when they are equal |
| Laws.Equality | value.c:465-535 | `==` holds for integers whose difference is zero, for strings of which neither comes first, and never between types; `!=` is its negation |
| Laws.BitwiseBits | eval.c:988-1013 | bit by bit, the bitwise operators are and, or and exclusive or |
| Laws.BitNotFlips | eval.c:1015-1024 | `~` flips each of the 64 bits |
| Laws.SameBits | eval.c:988-1024 | 64 bits determine the integer |
| Laws.Falsy | value.c:97-129 | false are null, false, zero and the empty string only; `!` negates this |
| Laws.WrongTypes | eval.c:503-1001 | operands of other types are errors, with their texts |
| Laws.TypesAreNamed | value.c:617-645 | the names of the types in messages |
| Programs.SumIsRight | compiler.c:1722-1794 | for every `n` and `k`, a `for` loop with `continue` leaves the sum of the numbers up to `n` without `k` |
| Programs.TryIsRight | compiler.c:2143-2201 | for every `n`, a `while` loop that throws, catches and adds each number and is left by `break` inside `try` leaves their sum |
| Programs.DepthLimit | eval.c:442-444 | for every `k`, the compiled recursion of depth `k` ends with the answer when `k` is at most 997 (999 activations), and otherwise with the error "Stack overflow" |
| Programs.LeftFirst | compiler.c:2766-2823 | left operands are evaluated first |
| Programs.ShortCircuits | compiler.c:2970-2995 | the short-circuit operators with each boolean on the left |
| Programs.Branches | compiler.c:1671-1720 | which branch of `if` runs |
| Programs.Defaults | compiler.c:1426-1445 | a variable without initialiser and the result of a body without `return` are null |
| Programs.CallErrors | eval.c:141-207 | calls of other values and with too few arguments are errors, with their texts |
| Discipline.TryDiscipline | eval.c:1342-1358 | in every reachable state every frame's try stack holds exactly the addresses of the catch labels around its instruction, innermost on top, less those just popped there, and no more than the code was compiled with |
| Discipline.CatchPlace | eval.c:393-402 | a caught error continues at the innermost active catch label, inside exactly the trys that enclose that label |
| Nesting.StmtSuits | compiler.c:1838-2201 | every jump, `break`, `continue` and catch in the code of a statement arrives with the trys and the operand height of its target, and no instruction uses an operand from before its try |
| Nesting.ExprSuits | compiler.c:2970-3058 | the code of an expression raises the height by one on every path and stays in its trys |
| Nesting.FunCharted | compiler.c:1447-1600 | the code of a whole function fits its notes, with nesting at most the recorded maximum |
| Shapes.ExecuteShape | eval.c:367-464 | whatever the values, a step continues, calls, leaves or catches, and moves the stack by the instruction's effect |
| StackBound.Bounded | compiler.c:1098-1121 | while caught errors are raised cleanly no frame's operands exceed the recorded stack size, though that number ignores all jumps, nor fall below its floor |
| StackBound.HeightsIff | eval.c:393-402 | all frames have the heights the compiler counts on, in all states up to one, if and only if every error caught before was raised in the frame of its try, at an item whose noted height, less the operands the instruction pops, is that noted at the innermost active catch label |
| StackBound.CallErrorsLeak | eval.c:141-207 | an error that leaves its frame, or that a call raises, is never clean: from that catch on the heights are wrong |
| Catching.CallingAbove | eval.c:624-630 | a suspended frame keeps the place of its callee's result above the operands of its innermost active try |
| StackBound.NothingCaughtIsClean | eval.c:393-402 | runs in which nothing is caught are clean |
| StackBound.BelowLine | opcode.c:20-115 | the straight-line sum of effects never falls below the true height |
| StackBound.CaughtErrorsLeak | eval.c:393-402 | a program of two slots whose stack passes every bound |
| Marking.DrainedIsExact | gc.c:120-130 | when the queue is empty the marked objects are exactly those reachable from the roots |
| Marking.ReachIsLeast | gc.c:162-202 | reachability is the least set that contains the roots and is closed under what objects refer to |
| Marking.TaskAdvances | value.c:682-786 | every mark function marks only reachable objects, and what it does not mark itself it leaves in the queue |
| Marking.SpecAdvances | struct.c:59-69 | a struct spec marks its methods directly, once |
| Marking.CodeAdvances | code.c:42-68 | code marks itself and its constants each time, without looking at its mark bit |
| Termination.MarkingEndsIff | gc.c:120-130 | marking ends if and only if no set of arrays and code objects that keep each other queued is reachable |
| Termination.CircleIsTrap | value.c:682-696 | a circle of references among arrays and code objects is such a set |
| Termination.TrapHasCircle | value.c:682-696 | every such set contains a circle |
| Termination.SelfContainedArray | value.c:682-696 | marking from an array that contains itself does not end |
| Termination.HeldArrayIsNotLive | gc.c:140-160 | an array held from C survives exactly when it is reachable from one of its elements |
| Termination.HeldEmptyArrayIsLost | gc.c:140-160 | one empty array, held: marking from the held root reaches nothing |
| Collector.Gc.Register | gc.c:49-58 | a new object heads the list, and the amount allocated grows by its size |
| Collector.Gc.EvaluateMarkQueue | gc.c:120-130 | ends, with exactly the reachable objects marked |
| Collector.Gc.MarkAll | gc.c:162-202 | after marking from all roots exactly the reachable objects are marked |
| Collector.Gc.Sweep | gc.c:204-230 | the list surgery keeps exactly the marked objects in their old order, clears their marks, frees the others and counts their sizes |
| Collector.Gc.Collect | gc.c:232-244 | a collection leaves exactly the objects reachable from the roots, in their old relative order, with all marks clear and the amount allocated equal to the sum of their sizes |
| Collector.Gc.ValueMark | value.c:722-786 | marking a value, for each kind of object, as the mark functions say |
| Collector.Gc.FunctionMark | value.c:698-720 | a function stops at its mark bit; otherwise its code and upvalues are marked |
| Hashing.MaskIsRemainder | hashmap.c:14 | masking with one less than a power of two is the remainder |
| Hashing.Inserted | hashmap.c:128-149 | a key put into the first free slot of its probe sequence can be found, all others still can, and the table holds the map with this key added |
| Hashing.Replaced | hashmap.c:128-149 | another value for a key changes that key only |
| Hashing.NotThere | hashmap.c:95-112 | a free slot after other keys means that the key is in no slot |
| Hashing.Unique | hashmap.c:95-112 | a key is in one slot only |
| HashMap.LoadTestIsFullness | hashmap.c:70-71 | the load test asks for growth exactly when the table is full |
| HashMap.HashMap.Find | hashmap.c:95-112 | probing ends at the key exactly when the map has it, otherwise at the first free slot of its sequence; a free slot always exists |
| HashMap.HashMap.Get | hashmap.c:114-126 | the value of the abstract map |
| HashMap.HashMap.Set | hashmap.c:128-149 | the abstract map is updated; the table doubles, with the version one higher, exactly when a new key fills it; otherwise every used slot keeps its key |
| HashMap.HashMap.MaybeGrow | hashmap.c:65-87 | rehashing keeps the map and all probe chains |
| HashMap.HashMap.SetIndex | hashmap.c:177-186 | writing through an index writes the map at that slot's key and moves nothing |
| GlobalCache.Globals.LoadGlobal | eval.c:674-698 | a cached load gives what a lookup by name gives, in every state of the caches |
| GlobalCache.Globals.StoreGlobal | eval.c:711-731 | a cached store is a store by name; stores to undeclared names are lost |
| GlobalCache.Globals.RunActions | eval.c:674-731 | in any run of declarations, loads and stores the caches never change a result |
| StructCache.Site.Load | eval.c:1131-1177 | a cached load gives what the search gives: the first field of the name, else the first method of the name, else an error; the cache stays right if and only if the receiver does not have a method and no field of the name at a fresh site |
| StructCache.MethodAtFreshSite | eval.c:1159-1174 | a spec with one method and no fields: after the first load the site remembers the spec with index -1 |
| StructCache.Site.Store | eval.c:1179-1212 | a cached store writes the field the search finds and nothing else, or fails exactly when there is none |
| StructCache.Site.LoadAll | eval.c:1131-1177 | a site that meets a second spec gives up for good, and every load is right before and after |
| StructCache.Code.ExecuteAll | eval.c:1131-1225 | in any run of loads, stores and field-adds over shared structs, caching changes neither the fields nor what is pushed (the field, the value, the receiver, the first method of the name), and all caches are right at the end if and only if no load at a fresh site binds a method |
| StructCache.FieldIndex | struct.c:86-96 | the first field of the name, or -1 exactly when there is none |
| StructCache.MethodOf | struct.c:49-57 | the function of the first method of the name, or none exactly when there is none |
| Upvalues.StepKeeps | eval.c:733-771 | whatever is captured in whatever order, the open list names each open upvalue once and stays grouped by frame |
| Upvalues.LeaveClosesExactly | eval.c:632-654 | returning closes exactly the upvalues of the frame that ends, although the scan stops early |
| Upvalues.UpvalueList.Return | eval.c:632-654 | the closing loop |
| Upvalues.UpvalueList.BindLocal | eval.c:733-771 | the search loop and the new upvalue |
| Upvalues.UpvalueList.LoadUpvalue | eval.c:87-93 | a load reads the stack while the upvalue is open and the upvalue afterwards |
| Upvalues.UpvalueList.StoreUpvalue | eval.c:95-103 | a store goes to the stack while the upvalue is open and to the upvalue afterwards |
| Cells.CapturesAreCells | eval.c:632-654 | in every run whose captures find what is there to find, all values seen are those of variables in cells of their own that closures share and that outlive their frame |
| Cells.StepAgrees | eval.c:76-103 | action by action, loads, stores, captures, calls and returns correspond to the cells |
| Cells.SharingIff | eval.c:745-765 | a run gives no variable a second open upvalue if and only if every capture finds the open one |
| Cells.FindsIff | eval.c:745-756 | a capture finds the open upvalue if and only if no smaller index was opened behind it |
| Cells.AscendingShares | eval.c:745-756 | ascending captures in every frame are enough |
| Cells.OrderMatters | eval.c:745-765 | a run of nine actions in which two closures over one variable come apart |
| Regex.YardRoundTrip | lib/re.cb:45-86 | for every text of the grammar (alternatives of sequences of repeated atoms, each to the left, with explicit dots), the shunting yard gives the postfix text that rebuilds its tree |
| Regex.Tighter | lib/re.cb:45-65 | for symbols x, y, z: `.` binds tighter than the bar on either side |
| Regex.LeftAndLast | lib/re.cb:45-65 | the bar associates to the left, and `*` is tighter than `.` |
| Regex.OneReading | lib/re.cb:53-86 | a text is the text of one expression only |
| Regex.PrintIsText | lib/re.cb:45-51 | every expression has such a text |
| Regex.TreeRoundTrip | lib/re.cb:53-86 | every expression comes back from its text by way of the shunting yard and the postfix notation |
| Regex.StarHasRow | lib/re.cb:151-162 | a word of a star is a row of words of the expression |
| Regex.RowsAreStar | lib/re.cb:151-162 | and every such row is one |
| Regex.PlusAndOpt | lib/re.cb:164-186 | one or more is one and then any number; optional is it or nothing |
| Regex.ToPostfix | lib/re.cb:53-86 | the two stacks compute that text; a closing parenthesis without partner is the only failure |
| Automaton.ConcatFragment | lib/re.cb:130-135 | joining two machines accepts the words of the concatenation |
| Automaton.UnionFragment | lib/re.cb:137-149 | the words of either |
| Automaton.ClosureFragment | lib/re.cb:151-162 | the words of the star, in any number of turns |
| Automaton.OptionalFragment | lib/re.cb:164-174 | the words and the empty word |
| Automaton.OneOrMoreFragment | lib/re.cb:176-186 | one turn or more |
| Frontier.NextFrontier | lib/re.cb:232-252 | the states kept after one more symbol are exactly the settled ones |
| Frontier.AcceptingSettled | lib/re.cb:219-230 | dropping states with epsilon transitions loses no accepting state |
| Thompson.ToNfa | lib/re.cb:188-217 | every postfix text that denotes a tree builds, over mutable states, a machine of its language |
| Thompson.AddNextState | lib/re.cb:219-230 | ends on circles of epsilon transitions, and adds exactly the states without epsilon transition that can be reached |
| Thompson.Search | lib/re.cb:232-252 | true if and only if the word is in the language |
| Thompson.CompileAndMatch | lib/re.cb:254-264 | from infix text to answer: true if and only if the word is in the language of the tree |
| Thompson.PrintAndMatch | lib/re.cb:254-264 | every expression is matched rightly by way of its text |
| ScriptMap.HashMap.Set | lib/hashmap.cb:246-275 | the pair's value is replaced in its place or the pair added at the end, in the first slot of its probe sequence without live bucket; a full table is rebuilt, and buckets and list nodes stay in bijection; without deletions the pairs are those of an insertion-ordered map |
| ScriptMap.HashMap.Find | lib/hashmap.cb:287-296 | the search ends at the key or an empty slot, and runs for ever if and only if no slot is empty and none has the key |
| ScriptMap.HashMap.Get | lib/hashmap.cb:228-242 | without deletions always ends, with the latest value of the key |
| ScriptMap.HashMap.Delete | lib/hashmap.cb:283-311 | the key's node leaves the doubly linked list, the others keep their order, its slot becomes a tombstone, and the size falls by one |
| ScriptMap.HashMap.Grow | lib/hashmap.cb:149-161 | a table twice as large in which every pair of the list is set again in order |
| ScriptMap.HashMap.Entries | lib/hashmap.cb:332-359 | the iterator yields exactly the pairs of the list, in order, then stops |
| ScriptMap.HashMap.Extend | lib/hashmap.cb:414-418 | setting the pairs of any sequence gives that sequence's insertion-ordered map |
| ScriptMap.FirstInsertionOrder | lib/hashmap.cb:338-355 | that map has each key once, in the order of first insertion |
| ScriptMap.LatestValues | lib/hashmap.cb:246-275 | with the latest value of each |
| ScriptMap.DuplicateAfterDelete | lib/hashmap.cb:246-275 | two keys of one home slot, the first deleted and the second set again: the map yields it twice |
| ScriptMap.EndlessAfterDeletes | lib/hashmap.cb:228-242 | eight keys set and deleted one after the other in a table of eight: looking up any key runs for ever |
| Printing.Printer.ToText | value.c:178-442 | ends on every heap, cyclic or not, and leaves the list of objects being printed as it was; the text is an atom's own, a bracket, the elements' texts with comma and space between them and a bracket, or the struct's name and in braces, for each field, its name, an equals sign between spaces and its value's text, each at its place; objects being printed already are cut to `[...]` or the name with `{...}` |
| Printing.ShowIsPrinted | value.c:300-403 | the same of the reference text: every piece by its position |
| Printing.Printer.Fill | value.c:317-339 | the buffer computed beforehand is filled exactly, never beyond its end |
| Printing.Printer.LabelAll | value.c:367-399 | the length computed for a struct is that of its text |
| Printing.PrintedInFull | value.c:148-163 | where references have no cycles nothing is cut short, shared parts included |
| Printing.Itself | value.c:304-315 | an array that contains itself prints as one bracket inside another |

## Left out

- Compiler.CompileModule: functions inside functions, function expressions, default parameters, `import`, `export`, structs, arrays, methods and destructuring are refused here, because the fragment ends where values with identity begin
- Doubles: a `**` ends the run, because its result is a double
- Integer literals: a token carries the number that scanning gave; numbers beyond 64 bits are not cut
- Negating the least integer wraps around here; C leaves it undefined
- Parameters are bound under their names at once; the limit of 32 parameters is not checked
- Captures by the compiler: `Upvalues` starts from the capture instructions; capture through an intermediate function and block slots reused while captured are not modelled
- Frames left by errors: upvalues are closed by returning only, and runs in which an error leaves a frame are not part of `Cells`
- Native functions, methods and their callers, modules that import each other, and the REPL
- Names and strings are numbers into a table of texts; hash functions are parameters, and numbers are unbounded where the sources have machine words (versions, sizes, loop counters)
- Growing of the value stack, of the list of upvalues and of the bytecode buffer by `realloc`
- Source locations, tracebacks and the printing of uncaught errors
- `HALT` inside a function, which the compiler never emits, ends the run here
- Collector: the roots are a given list of tasks; thresholds, finalisers and releasing held roots in another order are not modelled
- Collector.Gc.Collect: requires that no circle of arrays and code objects is reachable, since otherwise the C code does not return
- Regex: states are compared by identity, and the insertion of explicit dots (lib/re.cb:13-35) is not modelled, because it also puts a dot in front of a closing parenthesis, which no expression has
- Regex.ToPostfix: an unmatched closing parenthesis, on which the script never returns, is reported as no result
- ScriptMap.HashMap.Find: a search that never ends is reported as such after one whole turn
- ScriptMap.HashMap.Set: agreement with an insertion-ordered map is stated for tables without tombstones only, since it fails afterwards
- ScriptMap: `clear`, the method form of the functions, keys other than numbers, and an initial capacity of zero
- StructCache.Site.Load: the bound method itself is a number; making the caller for it is not modelled
- Struct specs are never freed and their identities never reused
- Printing: strings, functions and other objects without elements are atoms with a text of their own
- The lexer, UTF-8, file reading, import resolution, the disassembler and all native modules: input and output or foreign code
