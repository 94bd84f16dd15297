# ParaOS: verified models of Parawasm and of the multi-core start

This project models two parts of ParaOS in Dafny and proves properties of the models.

**Parawasm** compiles WebAssembly to x86-64 in four stages: a code generator that turns operators
into push/pop code around an rbp frame, a peephole optimiser run to a fixed point while it remaps
label indices, a label binder that records entry points, and a linker that patches import slots in
the finished binary. The model covers functions over i64 values with all implemented operators:
`i64.const`, `i64.add`, `i64.sub`, `call`, `nop`, `end`, `local.get`, `local.set`.

**The start rendezvous** is what every core does at boot and around a test run: share one
once-created spinning barrier, let only the bootstrap core initialise, elect one leader per round.

## How the pieces fit

| file | content |
|---|---|
| `X86` | the emitted instructions and a strict small-step machine (reading anything undefined is a fault; words below rsp are undefined; the stack has a floor) |
| `Relocation`, `Shadowing` | machine states seen from code that lies elsewhere: renaming code addresses commutes with execution; runs that go only where another run goes |
| `RawX86`, `Hardware` | a machine with total registers and memory, arbitrary junk from external callees and arbitrary changes below rsp at every step; strict runs hold on it, and so does the end-to-end theorem |
| `Optimizer`, `Rewriting` | the pass, label remapping and fixed point, as functions and as the loops that compute them; the rules as a rewriting system in which every order leads to the same stream |
| `PassSoundness`, `Streams` | one pass preserves runs and passes through no new machine state; the neighbour and label conditions that make all passes sound on emitted streams |
| `Wasm`, `CodeGen`, `Placement` | modules, what is emitted for them, and where labels point |
| `Acceptance`, `CallingConvention`, `EmittedCode` | which modules compile; which register carries which argument; the exact instructions for given functions |
| `CodeSemantics` | what emitted code computes, at operator level: slots, register order, external call trace, stack need |
| `Simulation`, `CallSimulation`, `OwnFrame`, `Correctness` | the unoptimised machine code does that, by induction on operators and call depth, each frame within its bound at every step |
| `EndToEnd` | the optimised code does that; rbp; exactly when there is an answer; totality |
| `TypeLookup`, `StackHeights`, `ValidatedHeights` | the double type lookup; the recorded heights as bound, as attained, as a measure of stack, and against WebAssembly's operand stacks |
| `Unfinished` | recursion: what computations that never answer do meanwhile |
| `WasmSemantics`, `Departures`, `UnsetLocals`, `SavedLink`, `Agreements` | an evaluator after the WebAssembly Core Specification, and how the code relates to it |
| `Compiler`, `Binder`, `Assembly`, `Linker` | the compiler's loops proved against `CodeGen`; byte offsets; the finished object; `link_import` |
| `BoundCode`, `Serving`, `Linking` | the finished object's code runs as the optimised stream does; modules whose imports the next module serves; objects linked through import slots run as one program |
| `SpinBarrier`, `Rendezvous`, `LeaderElection` | the barrier, the boot protocol, the two-round use in test runs |

The main chain: `Assembly.Compile` produces exactly the object the functions of `CodeGen` and
`Optimizer` describe; `EndToEnd.CompiledCodeIsCorrect` says that the optimised code, entered at a
function's label, returns what `CodeSemantics` computes; `WasmSemantics.CompiledCodeMeansMirror` says
what that means in WebAssembly; `BoundCode.EveryObjectRunReturns` says it for the finished object,
entered at its recorded entry point, and every run of the raw machine; `Linking.LinkedProgramReturns`
says it for any number of objects linked one to the next; and `Unfinished.EveryUnfinishedRunCalls`
covers computations that do not finish.

Addresses are byte addresses, memory is held in 8-byte words, and the machine faults on a stack
access that is not a multiple of 8 bytes away from rsp, so words never overlap partially. Data
arithmetic wraps at 2^64. Return addresses are instruction indices and are carried as tagged values.
External functions answer through a function of the whole trace of external calls, so they may
have state of their own.

## Where code and expectations part

The model follows the code. Each departure has inputs that show it, with the code's answer beside
WebAssembly's, and an exact condition.

* `i64.sub` computes top minus next; the WebAssembly Core Specification (section 4.4.1) says next
  minus top. Input: `SubtractionIsExchanged`; exactly when it shows: `SubtractionAgreesIff`.
* Parameters arrive in reverse. Input: `FirstParameterIsLastArgument`; exactly: `ParametersAgreeIff`.
  With the exchanged subtraction the two cancel in the repository's own example (`ExchangesCancel`).
* Two results come back exchanged. Input: `ResultsAreExchanged`; exactly: `ResultsAgreeIff`. A third
  result is lost (`ThirdResultIsLost`), so of three results the specified ones never arrive.
* The first declared local shares the last parameter's slot, or the saved rbp's when there are no
  parameters (`SharedSlotIff`, `LocalLayout`). Inputs: `FirstLocalIsLastParameter`,
  `UnsetLocalIsLastParameter`, `FirstLocalIsSavedRbp`; exactly: `SharedReadAgreesIff`,
  `FramePointerRestoredIff`.
* Declared locals are not zeroed. Inputs: `UnsetLocalFaults`, `UnsetLocalIsStale`; a body has a
  meaning in the operator semantics exactly when it reads only what was stored and finds its operands
  (`FinishesIff`). One such read gives a definite word all the same: the first local of a function
  without parameters reads as the caller's rbp. Input: `UnsetLinkIsSavedRbp`; exactly:
  `LinkReadAgreesIff`.
* A function's type is looked up through its type index taken as a function index. Input:
  `DoubleLookupWitness`; exactly when it is harmless: `TypesAgreeIff`.
* The rule for `mov a, b ; mov b, a` drops a write, which is right on its own exactly when the
  registers agree (`DroppingPairAloneIff`); on emitted streams the write is dead
  (`MutualIsFramePair`, `ChainPairsAreDead`).
* An exported memory, table or global is looked up as if it were a function (`NamedLookupRightIff`).
* Of two imports with the same module and field only the first can be linked, and an import without
  a field name never (`LinkableIff`).

## Model

| member | source | states |
|---|---|---|
| Optimizer.UpdateLabels | parawasm/src/x86_64/optimizer.rs:97-103 | in place, every label whose original index is at or past the head moves by the count, no other changes |
| Optimizer.RewriteHead | parawasm/src/x86_64/optimizer.rs:36-86 | which of the three rules applies at the head, what it emits and how many instructions it consumes |
| Optimizer.OptimizeLoop | parawasm/src/x86_64/optimizer.rs:25-95 | the loop emits the pass of the input and leaves every label at its remapped index |
| Optimizer.Optimize | parawasm/src/x86_64/optimizer.rs:6-23 | the repeated passes reach the fixed point of code and labels, and no rule applies to the result |
| Optimizer.PassShrinks | parawasm/src/x86_64/optimizer.rs:10-22 | a pass that changes anything makes the code strictly shorter |
| Optimizer.UnchangedIffNormal | parawasm/src/x86_64/optimizer.rs:10-22 | a pass changes nothing if and only if no push has a pop right behind it, no mov a, b is followed by mov b, a, and no register is moved to itself, read off the instructions |
| Optimizer.FixIsNormal | parawasm/src/x86_64/optimizer.rs:6-23 | the result is in normal form and as many passes as there are instructions reach it |
| Rewriting.NormalFormIsUnique | parawasm/src/x86_64/optimizer.rs:6-95 | the three rules applied anywhere, in any order, until none applies, always end in the same stream |
| Rewriting.OptimizedIsTheNormalForm | parawasm/src/x86_64/optimizer.rs:6-95 | that stream is what the passes give |
| Optimizer.SuffixCommutes | parawasm/src/x86_64/optimizer.rs:25-103 | from any index that is not the second half of a consumed pair, the output from the remapped index on is the pass of the original suffix |
| PassSoundness.PushPopIsMove | parawasm/src/x86_64/optimizer.rs:38-49 | push a ; pop b has exactly the effect of mov b, a on any machine state, for all registers |
| PassSoundness.SelfMoveIsIdle | parawasm/src/x86_64/optimizer.rs:68-80 | a self move has no effect |
| PassSoundness.DeadPairIsIdle | parawasm/src/x86_64/optimizer.rs:51-66 | mov a, b ; mov b, a before pop a has no effect beyond the pop |
| PassSoundness.PassPreservesRuns | parawasm/src/x86_64/optimizer.rs:25-95 | for any program whose labels start turns and whose mutual pairs are dead, every run, finished or not, is matched after one pass up to the turn it is in: in no more steps, in the same state up to remapped code addresses, with the same external calls; a run that leaves the module is matched to its end, through states the original run passes |
| Streams.PassKeepsChain | parawasm/src/x86_64/optimizer.rs:25-95 | the neighbour conditions of emitted streams survive a pass |
| Streams.MutualIsFramePair | parawasm/src/x86_64/optimizer.rs:51-66 | under those conditions a mutual pair of different registers is mov rbp, rsp ; mov rsp, rbp between push rbp and pop rbp |
| Streams.ChainPairsAreDead | parawasm/src/x86_64/optimizer.rs:51-66 | so the pair rule only ever drops a write that is overwritten before it is read |
| Streams.PassKeepsAnchors | parawasm/src/x86_64/optimizer.rs:97-103 | through a pass labels stay strictly increasing, in range, distinct and right after ret, dq or zero bytes |
| Streams.FixKeepsAnchors | parawasm/src/x86_64/optimizer.rs:6-23 | and so they do through all passes, with the same names |
| Streams.FixPreservesRuns | parawasm/src/x86_64/optimizer.rs:6-23 | on such streams the fully optimised code, from its own index of a label, makes the external calls of every run from that label in no more steps; if the run leaves the module so does it, with the same registers and live stack |
| CodeGen.LocalLayout | parawasm/src/x86_64/mod.rs:328-346 | every local, also a single one, lies inside the frame; it lies on the saved rbp exactly if it is the first declared local of a function without parameters |
| CodeGen.SharedSlotIff | parawasm/src/x86_64/mod.rs:328-346 | two locals share a slot exactly when they are last parameter and first declared local; otherwise they are at least a word apart |
| CodeGen.SlotsTile | parawasm/src/x86_64/mod.rs:328-355 | parameters take exactly the words just below the saved rbp, declared locals exactly the words from the last of those on, so with declared locals the deepest allocated word is used by none |
| CodeGen.StreamIsCalm | parawasm/src/x86_64/mod.rs:252-432 | every emitted stream meets the neighbour conditions the optimiser needs |
| Placement.StreamAnchored | parawasm/src/x86_64/mod.rs:275-319 | every emitted label table is in order, distinct and anchored after a barrier |
| Placement.UnoptimizedIsLoaded | parawasm/src/x86_64/mod.rs:272-319 | each function's label marks its own body and each import's label a quadword, so forward, backward and recursive calls find their target |
| Simulation.SimPlain | parawasm/src/x86_64/instructions.rs:20-126 | the code of each operator other than a call takes the machine from representing a configuration to representing the one the operator computes |
| CallSimulation.SimPopArgs | parawasm/src/x86_64/instructions.rs:56-67 | the pop loop puts argument k in integer register k for every count up to six and leaves the operands beneath |
| CallingConvention.ArgumentRegisters | parawasm/src/x86_64/instructions.rs:56-67 | arguments one to six are in rdi, rsi, rdx, rcx, r8 and r9, in that order, for every number of arguments |
| CallingConvention.EventArguments | parawasm/src/x86_64/instructions.rs:68-74 | an import of six parameters is told what those six registers hold, in that order |
| CallingConvention.SixArguments | parawasm/src/x86_64/mod.rs:321-382 | a caller of six arguments pops r9 first and rdi last; the callee stores r9 nearest to rbp and rdi farthest |
| CallingConvention.SubtractingRuns | parawasm_tests/src/tests.rs:58-85 | the repository's example, entered with a in rdi and b in rsi, leaves a - b in rax, for all words |
| EmittedCode.FunctionEmitted | parawasm/src/x86_64/mod.rs:321-432 | the exact instructions for a function with a parameter, two groups of locals and every operator but calls |
| EmittedCode.SubtractingOptimized | parawasm_tests/src/tests.rs:58-85 | the exact optimised instructions of the repository's example |
| CallSimulation.SimStores | parawasm/src/x86_64/mod.rs:357-382 | the callee's stores put the k-th argument from the end in parameter slot k, nothing else changing |
| CallSimulation.SimFrame | parawasm/src/x86_64/mod.rs:321-355 | the prologue sets up an empty frame below the return address |
| CallSimulation.SimLeave | parawasm/src/x86_64/mod.rs:419-430 | the epilogue takes the frame down to the return address, with memory above exactly as at entry and rbp from slot 0 |
| Correctness.SimExternal | parawasm/src/x86_64/instructions.rs:68-74 | a call through an import slot makes exactly that external call with those arguments and keeps the frame |
| Correctness.SimLocal | parawasm/src/x86_64/instructions.rs:75-78 | a call of a defined function returns to the next instruction with the caller's frame as it was and the callee's results in rax and rdx |
| Correctness.OpsHeight | parawasm/src/x86_64/mod.rs:384-390 | the operand stack never exceeds the height counted from the operators |
| Correctness.SimOps | parawasm/src/x86_64/mod.rs:386-400 | after the code of any sequence of operators, so of every prefix of a body, rsp is the locals and the operand stack below rbp, the words from rsp up are the operand stack, and slots hold what was stored |
| Correctness.SimFunc | parawasm/src/x86_64/mod.rs:309-432 | whenever the semantics gives an answer the unoptimised code returns it, to any caller, at any call depth, within the computed stack need |
| EndToEnd.CompiledCodeIsCorrect | parawasm/src/x86_64/mod.rs:309-509 | the same for the optimised code entered from outside: results in rax and rdx, rsp past the return address, memory above unchanged, same external calls, rbp restored unless the function stored over it; on the way no machine state the unoptimised code does not pass |
| EndToEnd.FramePointerRestoredIff | parawasm/src/x86_64/mod.rs:337-346 | rbp is restored if and only if the function does not set its first declared local while having no parameters, or stored that very value |
| EndToEnd.FinishesIff | parawasm/src/x86_64/instructions.rs:113-126 | when the calls it reaches come back, a function has an answer if and only if every operator finds its operands, every local.get reads a slot a parameter or an earlier local.set filled, and the results are there at the end |
| EndToEnd.FuncFinishes | parawasm/src/x86_64/mod.rs:384-402 | in a validated module with locals set before they are read, no store over the link and no recursion, every function has an answer on every input |
| Unfinished.CyclesNeverAnswer | parawasm/src/x86_64/instructions.rs:49-89 | functions that all call one another, directly or in a circle, never answer, whatever the depth of calls |
| Unfinished.UnfinishedCallsHappen | parawasm/src/x86_64/mod.rs:309-509 | for every depth of calls, the external calls the semantics makes before it would go deeper are made by the optimised code, given the stack for that depth |
| Unfinished.EveryUnfinishedRunCalls | parawasm/src/x86_64/mod.rs:309-509 | and by every run of the finished object's code on the raw machine, which never gets stuck before |
| EndToEnd.EveryCallReturns | parawasm/src/x86_64/mod.rs:309-509 | total correctness: in such modules every call from outside comes back with the answer and rbp restored |
| StackHeights.RecordedHeightBoundsEveryStep | parawasm/src/x86_64/mod.rs:384-406 | at every single step of the unoptimised code in a call, callees included, that is in the call's own frame (past push rbp and mov rbp, rsp, before ret), rbp - rsp is at most the locals and the recorded number of operand words |
| StackHeights.RecordedHeightBoundsOptimized | parawasm/src/x86_64/mod.rs:384-406 | the same bound, directly, at every single step of the optimised code |
| StackHeights.RecordedHeightIsReached | parawasm/src/x86_64/mod.rs:384-406 | and the bound is attained: the unoptimised code of every function reaches a point with exactly that many operand words |
| StackHeights.StackSizedByHeights | parawasm/src/x86_64/mod.rs:384-406 | if every frame, at its recorded height, fits in a number of bytes, calls nested to a depth need at most one more frame than the depth |
| ValidatedHeights.SpecHeight | parawasm/src/x86_64/mod.rs:384-390 | evaluation after WebAssembly's rules always has exactly the operand height that declared types give |
| ValidatedHeights.ObjectHeight | parawasm/src/x86_64/mod.rs:384-406 | whatever the module's types, the height found in the object is the largest of those heights over all prefixes of the body, is met by one, and bounds WebAssembly's operand stacks |
| ValidatedHeights.HeightIsDeclared | parawasm/src/x86_64/mod.rs:384-406 | a module whose looked-up types differ from the declared ones: the height found is the declared one |
| TypeLookup.TypesAgreeIff | parawasm/src/x86_64/mod.rs:311-316 | every function of a validated module is compiled with its declared type if and only if every type index in use, taken as a function number, numbers a function declared with that very type |
| Hardware.EveryRawRunReturns | parawasm/src/x86_64/mod.rs:309-509 | there is a step count that every run of the raw machine reaches without getting stuck, whatever external callees leave behind and whatever happens below rsp, and then it has returned with the answer |
| BoundCode.BoundRuns | parawasm/src/x86_64/mod.rs:487-508 | the bound stream, with labels on their zero-size markers, does whatever the stream handed to the binder does, in at most twice as many steps |
| BoundCode.ObjectCodeIsCorrect | parawasm/src/x86_64/mod.rs:309-509 | the finished object's code, entered at the byte its recorded entry point names, returns the answer with everything else as it was |
| BoundCode.EveryObjectRunReturns | parawasm/src/x86_64/mod.rs:309-509 | and so does every run of that code on the raw machine: it goes on for a number of steps and then has returned |
| Linking.ModuleCanStep | parawasm_tests/src/tests.rs:145-202 | wherever the strict machine of the module in control has a step, the linked program has one, whatever external callees leave behind |
| Linking.RunLeads | parawasm_tests/src/tests.rs:145-202 | a strict run of any module of the chain whose external calls are served is what every linked run does, without getting stuck; calls through patched slots run the next module on the shared stack and registers and come back to the next instruction |
| Linking.LinkedProgramReturns | parawasm_tests/src/tests.rs:145-202 | for any number of modules linked one to the next: whenever the first one's semantics, each module's external calls answered by the semantics of the next, gives an answer, every run of the linked program goes on until it has returned that answer, each module having made exactly its own calls |
| Linking.EveryLinkedCallReturns | parawasm_tests/src/tests.rs:145-202 | total correctness: safe modules without recursion, imports linked by type, a frame of stack per level of calls; every call comes back |
| Linking.SlotsNameEntries | parawasm/src/x86_64/mod.rs:157-181 | after every import is linked to base plus entry point, the bytes of slot f are the address of the instruction where the linked program continues |
| Serving.LinkedEnvAnswers | parawasm_tests/src/tests.rs:145-202 | for any library there is an environment that answers as the library does |
| Linking.AnsweredAnswer | parawasm_tests/src/tests.rs:145-202 | and so for all links of a chain at once, from the last one up |
| RawX86.RunsAreReal | parawasm/src/x86_64/mod.rs:321-430 | whatever the strict machine does in n steps, every n-step run of the raw machine from an agreeing state does, and the raw machine is never stuck before |
| WasmSemantics.FuncAgrees | parawasm/src/x86_64/instructions.rs:20-126 | for every module whose reads of the shared slot find the local that was set last: whenever the code computes an answer, the module with parameters mirrored means the same in the dialect with i64.sub operands and result pairs exchanged, and in the specification's own when the module does not subtract and returns at most one result |
| WasmSemantics.CodeIsStandard | parawasm/src/x86_64/instructions.rs:20-126 | modules without subtraction, with at most one parameter and result per function, keep their WebAssembly meaning |
| WasmSemantics.CompiledCodeMeansMirror | parawasm/src/x86_64/mod.rs:309-509 | in validated modules without recursion the optimised machine code returns the meaning of the mirrored module: in the exchanged dialect, and in WebAssembly's own for modules that do not subtract and return at most one result |
| WasmSemantics.SubtractionAgreesIff | parawasm/src/x86_64/instructions.rs:37-42 | on the same stack of words, the code's i64.sub and the specification's leave the same stack if and only if the operands are equal or half the range apart |
| Agreements.AdditionAgrees | parawasm/src/x86_64/instructions.rs:25-30 | adding two constants gives their sum modulo 2^64, in the code as in WebAssembly |
| Agreements.ImportCallAgrees | parawasm_tests/src/tests.rs:204-243 | a call of an import with two constants passes them in order and returns the import's first answer, in the code as in WebAssembly |
| WasmSemantics.SharedReadAgreesIff | parawasm/src/x86_64/instructions.rs:113-119 | reading the slot two locals share gives the local set last, so it is the specified word if and only if that local and the one read have the same value |
| WasmSemantics.ResultsAgreeIff | parawasm/src/x86_64/instructions.rs:79-89 | results of a call, all those the callee's body leaves, arrive as specified if and only if there are fewer than two, or two that are equal |
| WasmSemantics.ParametersAgreeIff | parawasm/src/x86_64/mod.rs:358-363 | local k receives argument n-1-k, which is argument k for all k if and only if the arguments read the same from both ends |
| Departures.SubtractionIsExchanged | parawasm/src/x86_64/instructions.rs:37-42 | subtracting constants b from a: the code answers b - a, WebAssembly a - b, equal exactly when the constants are equal or half the range apart |
| Departures.ExchangesCancel | parawasm_tests/src/tests.rs:58-85 | a function subtracting its second parameter from its first: code and WebAssembly both answer a - b on every pair of arguments |
| Departures.FirstParameterIsLastArgument | parawasm/src/x86_64/mod.rs:357-363 | a function returning its first of two parameters returns the second argument, where WebAssembly returns the first |
| Departures.ResultsAreExchanged | parawasm/src/x86_64/instructions.rs:79-89 | a caller that drops the top of a callee's results a, b answers b, where WebAssembly answers a |
| Departures.ThirdResultIsLost | parawasm/src/x86_64/mod.rs:408-417 | of three results the code delivers two, WebAssembly three |
| Departures.FirstLocalIsLastParameter | parawasm/src/x86_64/mod.rs:341-343 | setting the first declared local replaces the only parameter, for every value, where WebAssembly keeps the argument |
| Departures.UnsetLocalIsLastParameter | parawasm/src/x86_64/mod.rs:341-343 | reading the first declared local unset gives the only argument, where WebAssembly gives zero |
| Departures.FirstLocalIsSavedRbp | parawasm/src/x86_64/mod.rs:341-343 | without parameters, setting the first declared local stores over the saved rbp |
| UnsetLocals.UnsetLocalFaults | parawasm/src/x86_64/mod.rs:348-355 | a function returning a local it never set: WebAssembly answers zero, the operator semantics is stuck, and from every entry the strict machine gets to the read and no further |
| UnsetLocals.UnsetLocalIsStale | parawasm/src/x86_64/mod.rs:348-355 | the same function on the raw machine returns whatever word lay below the stack pointer before the call |
| SavedLink.UnsetLinkIsSavedRbp | parawasm/src/x86_64/mod.rs:337-346 | a function without parameters returning its first local unset: WebAssembly answers zero, the machine runs to the end from every entry and returns the caller's rbp |
| SavedLink.LinkReadAgreesIff | parawasm/src/x86_64/instructions.rs:113-119 | at any such read in any function, the code pushes the saved rbp, so it agrees with WebAssembly if and only if that word is zero |
| Departures.DoubleLookupWitness | parawasm/src/x86_64/mod.rs:311-316 | a compiled module whose first function, declared to return a value, answers nothing, where WebAssembly answers 7 |
| Departures.DroppingPairAloneIff | parawasm/src/x86_64/optimizer.rs:51-66 | for any two different registers, rsp included, dropping the pair alone is right exactly in the states where the two are equal |
| Compiler.IndexSpaces | parawasm/src/x86_64/mod.rs:272-298 | import labels cover exactly the imported indices and body labels exactly the defined ones, without overlap, and every index with a type has one |
| Wasm.ImportIndex | parawasm/src/x86_64/mod.rs:274-283 | an imported function's index is the number of function imports before it, and it has the type index it was imported with; other imports take no index |
| Acceptance.CompilesIff | parawasm/src/x86_64/mod.rs:309-336 | a module compiles if and only if it has no more code entries than function section entries, the double lookup gives every code entry's and every called function a type of at most six parameters, and every local named is a parameter or a declared local |
| Compiler.LookUpType | parawasm/src/x86_64/mod.rs:311-316 | the lookup gives the resolved type, or nothing where the compiler would panic |
| Compiler.EmitCall | parawasm/src/x86_64/instructions.rs:49-89 | the register-queue loops append exactly the call's code, or the type lookup or parameter count makes it panic |
| Compiler.HandleInstruction | parawasm/src/x86_64/instructions.rs:11-126 | each implemented arm appends exactly its operator's code; it fails exactly where the source panics |
| Compiler.LayOut | parawasm/src/x86_64/mod.rs:328-346 | the loops over parameters and groups of locals give every local its offset and the frame its size, for any number of groups |
| Compiler.EmitPrologue | parawasm/src/x86_64/mod.rs:321-382 | appends the prologue, taking argument registers from the back |
| Compiler.EmitEpilogue | parawasm/src/x86_64/mod.rs:408-430 | appends the epilogue, popping into rax and rdx while they last |
| Compiler.EmitOps | parawasm/src/x86_64/mod.rs:384-400 | appends the code of all operators and returns the largest operand stack height |
| Compiler.EmitFunction | parawasm/src/x86_64/mod.rs:309-432 | appends exactly the function's code and gives its recorded height, or fails exactly where the source panics |
| Binder.BoundSize | parawasm/src/x86_64/mod.rs:487-508 | binding adds only markers of no size: bound code has the encoded size of the code |
| Binder.EntryPoints | parawasm/src/x86_64/mod.rs:487-508 | after optimisation every defined function, and nothing else, gets an entry point, equal to the encoded size of all instructions before it |
| Binder.SlotOffsets | parawasm/src/x86_64/mod.rs:252-285 | the slot label of function import f marks the placeholder quadword at byte 8f of the finished code, inside it |
| Binder.TableOffsets | parawasm/src/x86_64/mod.rs:286-299 | each defined function has a zero quadword right behind the slots, at its place in the finished code |
| Assembly.EmitImports | parawasm/src/x86_64/mod.rs:252-285 | the import loop emits markers and slots, labels them, records names and offsets and counts function indices |
| Assembly.EmitTable | parawasm/src/x86_64/mod.rs:286-299 | the function section loop emits a word, a body label and a type for every defined function |
| Assembly.EmitBodies | parawasm/src/x86_64/mod.rs:309-432 | code entry j gets index imports + j, its label at its first instruction and its recorded height |
| Assembly.BindLabels | parawasm/src/x86_64/mod.rs:487-508 | the binding loop, with its first-match search, gives the bound code and the entry points |
| Assembly.Compile | parawasm/src/x86_64/mod.rs:208-510 | an object exactly for the accepted modules, said of the modules themselves, and it is the one the emission, optimisation and binding functions give |
| Assembly.LookupsAreExact | parawasm/src/x86_64/mod.rs:82-126 | lookups by index succeed exactly for defined functions and give that function's own entry point and recorded height |
| Assembly.NamedEntryPoint | parawasm/src/x86_64/mod.rs:88-120 | looking an exported function up by name or by index is the same |
| Assembly.NamedLookupRightIff | parawasm/src/x86_64/mod.rs:300-308 | a lookup by name is right if and only if the export is a function, or no function of the module has its number: an exported memory or global is found as the function of the same number |
| Assembly.NamedLookups | parawasm/src/x86_64/mod.rs:88-120 | a name that is not exported has neither entry point nor height; one exported several times has its last export's |
| Assembly.RecordedNames | parawasm/src/x86_64/mod.rs:266-274 | every function import is recorded under its own function index with the module and field written in the import section |
| Assembly.RecordedOffsetsAreFinal | parawasm/src/x86_64/mod.rs:256-273 | the offset recorded for an import before optimisation is where its slot is in the finished code, at 8f and inside it |
| Linker.AssembledModule.LinkImport | parawasm/src/x86_64/mod.rs:157-181 | in place, the eight bytes of the lowest matching import become the address; without a match nothing changes |
| Linker.WriteWord | parawasm/src/x86_64/mod.rs:175-178 | exactly the eight bytes at the offset become the little-endian word |
| Linker.LeRoundTrip | parawasm/src/x86_64/mod.rs:175-178 | a word written little-endian reads back as itself, for any width |
| Linker.LinkSetsOneSlot | parawasm/src/x86_64/mod.rs:157-181 | the matched slot reads back as the address and every other byte and slot is unchanged |
| Linker.LinksCommute | parawasm/src/x86_64/mod.rs:157-181 | links of different imports commute |
| Linker.LeByte | parawasm/src/x86_64/mod.rs:175-178 | byte k of a written word is its k-th digit to base 256 |
| Linker.LinkByOwnName | parawasm/src/x86_64/mod.rs:157-181 | linking a compiled module under a name of its import section sets the slot of the first function import of that name and no other byte |
| Linker.LinkByOtherName | parawasm/src/x86_64/mod.rs:157-181 | linking it under any other name changes nothing |
| Linker.LinkableIff | parawasm/src/x86_64/mod.rs:161-173 | an import can be linked if and only if it has a field name and no lower import has the same module and field |
| Linker.LinkAllSetsAll | parawasm/src/x86_64/mod.rs:157-181 | linking one import after another, each under its own distinct name, leaves every address in its own slot |
| Linker.CompiledIsWellPlaced | parawasm/src/x86_64/mod.rs:256-280 | a compiled module's import table is numbered from zero with slot f at byte 8f inside the binary, which is what linking needs |
| Rendezvous.StepKeepsInv | paraos/src/kernel.rs:55-77 | every step of every core keeps the barrier count, generation, initialisation and report bookkeeping |
| Rendezvous.NobodyPassesEarly | paraos/src/kernel.rs:55-77 | in every interleaving, a core past the barrier implies that initialisation completed, exactly once, and that all cores arrived |
| Rendezvous.OnlyBootstrapActs | paraos/src/kernel.rs:55-77 | only the bootstrap core initialises, before it comes to the barrier, and only it reports, last of all and unless quiet |
| Rendezvous.EveryoneGetsThrough | paraos/src/kernel.rs:55-77 | no deadlock: every schedule is bounded, and one that cannot be extended has every core done, one initialisation and one report unless quiet |
| LeaderElection.StepKeepsBarrier | paraos/src/platform.rs:14-20 | over both uses of the one barrier, every core is level with the finished rounds or waits in the round in progress, and the count is the number waiting there |
| LeaderElection.OneLeaderPerRound | paraos/src/platform.rs:14-20 | in every interleaving no round has two leaders, and a round all cores have answers for has one |
| LeaderElection.ExitOnlyAfterAllTests | paraos/src/test.rs:5-37 | the exit port is written at most once, and only after every core has run every test |
| LeaderElection.LeadersAct | paraos/src/test.rs:5-37 | the leader of the first round prints a dot per test it finished, the leader of the second writes the exit port, and nobody else does either |
| LeaderElection.NobodyPassesMeeting | paraos/src/kernel.rs:80-98 | nobody is past a test that makes the cores meet before every core has come to it |
| LeaderElection.StepKeepsMeetings | paraos/src/kernel.rs:80-98 | the barrier of a test that makes cores meet counts who came; nobody is past that test before the last came, and nobody comes again after |
| LeaderElection.MeetingMoves | paraos/src/kernel.rs:80-98 | a core waiting in such a test never waits for ever: it or some core that has not come yet can move |
| LeaderElection.EveryoneFinishes | paraos/src/test.rs:5-37 | every schedule is bounded, and one that cannot be extended has run all tests on all cores, whichever of them make the cores meet at a barrier of their own, printed one dot per test and exited once |

## Left out

- WebAssembly binary parsing and validation: done by a library; a module enters as section contents, and heights are counted as its validator counts them.
- Byte encodings of instructions: done by a library; each instruction has a fixed abstract size, the machine runs on instruction indices, and the entry points are tied to those by encoded size.
- i32 values, floats and vectors: 32-bit push and pop have no 64-bit encoding and 4-byte slots are written with 64-bit moves.
- Operators the source leaves as `todo!()`.
- Imports of more than two results: an external function answers in rax and rdx, so an environment is two words per call, and evaluation after WebAssembly's rules has no meaning for such a call.
- Functions of more than six parameters: the compiler panics before its code for them is reached, and the model fails there.
- EndToEnd.CompiledCodeIsCorrect: says nothing about calls inside the module whose callee stores over its saved rbp, because the caller then goes on with an arbitrary word as frame base; calls from outside are covered by FramePointerRestoredIff.
- WasmSemantics.FuncAgrees: is stated for bodies whose reads of a slot shared by two locals find the one set last, because the other reads give the wrong local (SharedReadAgreesIff says exactly when that shows), and for at most two results per function, because further ones are lost (ThirdResultIsLost).
- WasmSemantics.CodeIsStandard: has the same condition on reads of a shared slot.
- WasmSemantics.CompiledCodeMeansMirror: has the same conditions as FuncAgrees.
- Linker.AssembledModule.LinkImport: works on import tables numbered from zero with slot f at byte 8f; CompiledIsWellPlaced proves every compiled module has one.
- Linking.LinkedProgramReturns: each module's imports are linked to the next module in the order; imports spread over several modules, and calls back into a caller, are not modelled. On the machine an import slot yields the identity of the import; SlotsNameEntries ties the patched bytes to the instruction that identity stands for.
- Alignment of the stack at external calls, and the callee-saved rbx that emitted code overwrites.
- Memory types, sections only passed on to validation, and the assembly dump: no transformation of their own.
- The spinning itself, the lock inside the barrier and wrap-around of its generation counter: arrivals are single steps, and a barrier is used at most twice, far from wrapping.
- Failing tests, serial output beyond counts, the panic handler, heap setup and the boot information masks.
