# Tiny-Wasm, verified

Tiny-Wasm compiles the integer fragment of WebAssembly to AArch64 machine code in one pass: it prints instruction words
as hexadecimal text, leaves placeholders for branches, patches them in place, turns the text into bytes and calls them.
This project models that compiler, the machine it targets and the language it accepts, and proves that the executed bytes
do what WebAssembly Core Specification 1.0 says.

- **Language.** `Wasm` has two semantics of structured bodies: the standard's, and that of the emitted code, in which `if`
  leaves its condition on the stack. `Typing` is validation.
- **Machine.** `Machine` steps a state of x0 to x30, sp, the flags and a memory of 4-byte cells; `Isa` has the instruction
  words, encoded and decoded bit by bit (section C6.2 of Arm DDI 0487), `Words` the same words in plain arithmetic.
- **Compiler.** `Compiler.WasmFunction` is the class with its mutable fields: the text, the labels, the pending branches, the
  control-flow stack, the slot maps, the label count. `Opcode.Arm64Opcode` is the builder of words. `Emission` specifies
  the single pass, `Patching` the replacement of placeholders, `Linking` shows that both give the structured code of
  `Codegen`, `Stub` and `Function`.
- **Proof.** `Simulation` and `Body` carry a body's run over to the machine, `Stub` and `Function` the setjmp/longjmp trap
  protocol and the frame, `Image` the loading of the parameters, `Loading` the way from text to decoded program.
  `Correctness.Preserved` is the main theorem. Without its hypotheses `Halting.Halts` has termination, and `Halting.Twins`
  that two calls from equal operand stacks give the same answer. `Rounds` goes from the bytes of a body to the answers:
  one round (`Rounds.OneRound`), and any sequence of rounds on one object (`Rounds.Rounds`). `Limits` shows by concrete
  inputs that the hypotheses are needed.
- **Reader.** `Sections.Parser` reads modules from text, `Printing` shows that it undoes printing; `Leb` is the LEB128
  decoder.

A state-changing method is proved against a specification over a ghost field: `Compiler.WasmFunction.e` is the abstract
state of the pass that the text, the placeholders and the labels spell out, and `Valid()` ties them together.

## What the code does that the standard does not

The model follows the code.

- `if` reads its condition without consuming it (include/Wasm/Emit.hpp:200). `Preserved` asks that each executed `if` finds only
  its condition on the standard's stack; `Agreement.LoneExactly` shows that this is exactly when no leaked condition is
  ever read.
- The label `normal_div` is shared by all divisions and its first record stays (include/Wasm/Branch.hpp:12), so at most one
  division per function works (`Emission.OneDivision`); two can loop for ever (`Limits.TwoDivisionsHang`).
- The overflow check is emitted for `div_u` too (include/Wasm/Emit.hpp:144-162) (`Wasm.TrapRules`).
- An i64 takes 4 bytes of the frame (include/Wasm/WasmFunction.hpp:93-94) and its offset is scaled by 8, so neighbours can
  overlap (`Layout.DisjointSlots`); local 0 can lie above the frame (`Layout.FrameHoldsSlots`).
- Constants are one raw byte (`Bytecode.RawConstant`), `return` emits nothing (`History.ReturnPreserved`), locals pile
  up over rounds (`Rounds.Rounds`), and x19 to x21 are overwritten without being saved.
- Section lengths and counts are one byte (`Printing.LongSection`).

## Assumptions of the main theorem

`Image.Called` lists them: the image is in place and within the address space; the operand stack of 8192 bytes, the buffer
and the frame are aligned and disjoint, and no store reaches the code; the variables' slots are disjoint; at most 19
parameters and one result; a frame below 4096 bytes, the limit of the 12-bit immediate. `Correctness.Suitable` adds
validation, at most one division and a greatest height of at most 1024 slots. What the standard's run must be like, only
its condition on the stack at each executed `if` and no `div_u` on the overflow pair, can be read off the body
(`Correctness.AlwaysClean`). `Rounds.Hosts` and `Rounds.Answers` are what the platform promises: room for the regions, and
an answer that is the first half-word of the buffer and x0 in the state in which the call comes back. The source hands
over zeroed operand stacks (include/Wasm/Execute.hpp:54), so any two satisfy `Rounds.SameOperands`.

## Model

| member | source | states |
|---|---|---|
| Correctness.Preserved | include/Wasm/WasmFunction.hpp:10-58 | Semantic preservation: for every validated function with at most one division and all arguments, when every executed `if` finds only its condition on the standard's stack and no `div_u` meets the overflow pair, executing the image comes back to the caller with sp, x22 to x30 and the rest of memory as they were; return code 1 exactly on the standard's trap, else code 0, the standard's result in x0 and its final variables in their slots |
| Halting.Halts | include/Wasm/WasmFunction.hpp:10-58 | The generated code always halts: for every validated function with at most one division and all arguments, with no condition on what an `if` finds or on operands, executing the image comes back to the caller with its registers and memory restored and return code 0 or 1 |
| Correctness.CompilesTo | include/Wasm/WasmFunction.hpp:10-58 | The single pass with placeholders succeeds from any label count for every body within reach, every placeholder's branch is accepted, the control stack ends empty, and the program decoded from the hexadecimal text at any address is the structured code that `Preserved` is about |
| Correctness.RoundRuns | include/Wasm/Execute.hpp:21-68 | The bytes that one compile-and-execute round passes to the machine are that program |
| Rounds.OneRound | include/Wasm/Execute.hpp:21-68 | From the bytes of a body to the answer: on an object with any label count and locals, a round compiles the body, executes the image on the machine, answers `Err(Trapped)` exactly on the standard's trap and otherwise the standard's result whenever the run is clean, and leaves the object ready for the next round |
| Rounds.Rounds | include/Parser.hpp:163-182 | History independence: over any sequence of rounds on one object, with any inputs and hosts, an i32 frame, at most one division and a grown frame that fits, every answer, trapping or not, is the one that a fresh object's image gives on any host whose operand stack holds the same, with no condition on what the `if`s find; it is what the function's run asks for whenever only values of the wanted width are popped, so always without i64, and in a clean run the standard's |
| Rounds.TwinAnswers | include/Wasm/Execute.hpp:53-56 | From the same contents of the operand stack, the images of a function and of the function with locals of other rounds, on any two hosts, both come back and give the same answer: both trap, or neither does and the result is the same |
| Rounds.NextRound | include/Wasm/WasmFunction.hpp:145-150 | Round n of one object: its answer is a fresh object's, and the object is ready for round n + 1 |
| Rounds.ImageAnswers | include/Wasm/Execute.hpp:52-67 | On the machine, executing the bytes of an image answers what the run of the function asks for |
| Rounds.CompiledImage | include/Wasm/WasmFunction.hpp:10-58 | From any label count, pass, patching and text give the bytes of the function's image and an empty control stack |
| Rounds.CleanStandard | include/Wasm/Execute.hpp:56-67 | In a clean run the answer that the emitted code gives is the standard's: the trap exactly when it traps, else its result |
| Rounds.ReturnsOnce | include/Wasm/Execute.hpp:56 | A call of a program comes back in one state at most |
| Rounds.AfterApart | include/Wasm/WasmFunction.hpp:62-73 | With an i32 frame the slots stay disjoint however often the locals are appended |
| Rounds.MoreAnswered | include/Wasm/WasmFunction.hpp:145-150 | Locals of earlier rounds change neither whether a run is determined nor its answer |
| Narrow.NarrowRegular | include/Wasm/Emit.hpp:174-204 | A validated function without i64 values never has the emitted code pop a value of the wrong width, whatever its `if`s leave behind |
| Correctness.AlwaysClean | include/Wasm/Emit.hpp:198-203 | A validated body whose types show only the condition at every `if`, and that has no unsigned division, has clean runs for all arguments |
| Typing.AloneSeen | include/Wasm/Emit.hpp:198-203 | When the types show only the condition at every `if`, so does every run |
| Correctness.WithinReach | include/Opcode/Branch.hpp:11-27 | For a function within 2 to the 18 words no branch distance is refused by the branch encoders |
| History.AnyRound | include/Wasm/WasmFunction.hpp:145-150 | One call of an image that was compiled with other locals behind the function's own still comes back with the return code, result and variables of the standard's run of the function itself |
| History.CodeIgnores | include/Wasm/WasmFunction.hpp:62-73 | The standard's run of a body does not depend on variables behind its own, and keeps their values |
| History.JitIgnores | include/Wasm/WasmFunction.hpp:62-73 | Neither does the emitted code's run, whatever it finds on the stack |
| History.ReturnPreserved | include/Wasm/WasmFunction.hpp:254-255 | `Preserved` for bodies that end in `return`: what the standard returns with is what the call comes back with |
| History.ReturnAtEnd | include/Wasm/WasmFunction.hpp:254-255 | A `return` at the very end, for which nothing is emitted, changes neither the emitted code nor the run |
| Agreement.Agrees | include/Wasm/Emit.hpp:174-217 | From any pair of agreeing states, the run with peeking `if`s agrees with the standard's, the machine's stack being the leaked conditions below the standard's values |
| Agreement.LoneExactly | include/Wasm/Emit.hpp:198-203 | A completed run with at most one result and no overflow pair never reads a leaked condition, not even for its result, if and only if every executed `if` started with only its condition on the standard's stack |
| Wasm.TrapRules | include/Wasm/Emit.hpp:140-162 | The emitted trap rule and the standard's differ exactly on the overflow pair of `div_u` |
| Typing.ValidRuns | include/Wasm/WasmFunction.hpp:232-383 | Code that passes validation never gets stuck in the standard's semantics and leaves values of the validated types |
| Typing.OpExactly | include/Wasm/WasmFunction.hpp:232-383 | An instruction is valid exactly on a stack that ends in the operands that the standard says it takes, and replaces them by its results |
| Typing.IfExactly | include/Wasm/Emit.hpp:174-217 | An `if` is valid exactly on a stack that ends in an i32, with arms that leave the block's results from an empty stack, none without `else` |
| Typing.DepthBounded | include/Wasm/Stack.hpp:71-86 | Code whose greatest static height, every `if` keeping its condition, is at most 1024 never exceeds the 1024 slots |
| Limits.LeakedResult | include/Wasm/Emit.hpp:200 | For a body whose `if` finds a 7 under its condition the standard's result is 7, but the emitted code has the leaked condition on top |
| Limits.LeakedReturned | include/Wasm/Emit.hpp:200 | That body is valid, and every call of its image returns 1 without a trap |
| Limits.UnsignedDivision | include/Wasm/Emit.hpp:140-162 | For all operands of `div_u` at both widths: the emitted code traps exactly on a zero divisor or the overflow pair, the standard only on zero, and otherwise both give the quotient |
| Limits.TwiceDivided | include/Wasm/Emit.hpp:164 | The standard's result of the body with two divisions is 2 |
| Limits.TwoDivisionsHang | include/Wasm/Branch.hpp:10-13 | The image of that body never comes back: the second division's checks branch to the first one's `normal_div` |
| Body.RunCode | include/Wasm/WasmFunction.hpp:232-383 | Simulation: from every state that holds a stack and variables, the code of a body reaches its end in the state that the semantics gives, or `preparelongjmp` when the body traps |
| Halting.Twins | include/Wasm/WasmFunction.hpp:10-58 | What a call answers is determined: whatever the `if`s leave behind and whatever leaked bytes are popped, two images, of a function and of the function with more locals, wherever they are placed, come back with the same return code and, without a trap, the same result when the two operand stacks began with the same contents |
| Halting.HaltsCode | include/Wasm/WasmFunction.hpp:232-383 | From every height of the operand stack that leaves room, and whatever the stack's slots hold, the code of a validated body reaches its end or `preparelongjmp`; two runs with the same stacks and variables, the second with more variables and other addresses, go the same way and keep them the same |
| Halting.BothStep | include/Wasm/Emit.hpp:4-173 | One instruction, run side by side on equal stacks and variables, traps in both runs or leaves both equal again, all 8192 bytes of the stack included |
| Halting.Steady | include/Wasm/Emit.hpp:4-173 | One valid instruction changes the height exactly as validation says |
| Body.DivisionDecided | include/Wasm/Emit.hpp:140-164 | The emitted checks reach `preparelongjmp` exactly when b = 0 or (a is the least signed value and b is all ones), otherwise the word that `normal_div` stands for, with the operands in place |
| Body.RunDivision | include/Wasm/Emit.hpp:121-172 | A division whose label is its own pushes the truncated quotient or goes to `preparelongjmp` |
| Body.RunTest | include/Wasm/Emit.hpp:198-202 | The test of an `if` keeps the condition on the stack and skips the arm exactly on zero |
| Body.RunOp | include/Wasm/Emit.hpp:4-173 | Every instruction other than a division leaves the machine in the state that its semantics gives |
| Simulation.CompareCorrect | include/Wasm/Emit.hpp:61-84 | For all operand pairs at both widths, the flags of the emitted SUBS read through the chosen condition hold exactly when the signed or unsigned relation does |
| Simulation.ExecCompare | include/Wasm/Emit.hpp:72-83 | The comparison sequence replaces its two operands by 1 or 0 |
| Simulation.ExecMov | include/Opcode/Mov.hpp:49-67 | The movz/movk sequence leaves exactly the bit pattern of every 32-bit or 64-bit value, the upper half zero for a W register |
| Simulation.NextArith | include/Opcode/Arithmetic.hpp:4-46 | The arithmetic word computes the wrapped sum, difference, product or truncated quotient of the popped operands |
| Simulation.StorePush | include/Wasm/Stack.hpp:71-86 | A push appends to the sequence that the operand stack holds and changes no value, variable or cell outside |
| Simulation.ExecPush | include/Wasm/Stack.hpp:71-86 | The push sequence: x21 rises by 8 and the value is the new top |
| Simulation.ExecPop | include/Wasm/Stack.hpp:87-107 | The pop sequence gives back exactly the value pushed, at its own width, so a stale upper half is never seen |
| Simulation.ExecTee | include/Wasm/Stack.hpp:101-104 | A teeing pop reads the top and leaves height and contents as they were |
| Simulation.StoreLocal | include/Wasm/Emit.hpp:20-32 | A store to a variable's slot changes that variable and no other value |
| Stub.RunSetJmp | include/Wasm/CommonHeader.hpp:18-49 | setjmp saves x19 to x30 and sp in the buffer and returns 0 |
| Stub.RunPrepare | include/Wasm/WasmFunction.hpp:21-26 | preparelongjmp keeps x30 and sp in x14 and x15 and goes to longjmp with the buffer in x0 |
| Stub.RunLongJmp | include/Wasm/CommonHeader.hpp:50-85 | longjmp restores x19 to x30 and sp from the buffer and branches to the saved return address with x0 not 0 |
| Stub.RunRaise | include/Wasm/WasmFunction.hpp:31-40 | raiseException restores x30 and sp from x14 and x15, stores return code 1 and goes to finalize |
| Function.RunRewind | include/Wasm/WasmFunction.hpp:21-29 | From a failing division control comes back after the setjmp call with the caller's registers |
| Function.RunException | include/Wasm/WasmFunction.hpp:151-160 | The guard then goes through raiseException and finalize to the caller, with return code 1 |
| Function.RunEntry | include/Wasm/WasmFunction.hpp:74-80 | The prologue leaves argument i in its own slot and zeros in the locals', for every list of parameters with disjoint slots |
| Function.RunCall | include/Wasm/WasmFunction.hpp:151-155 | The first return of setjmp leaves the arguments in their slots and a buffer that leads back to the guard |
| Function.RunFinalize | include/Wasm/Stack.hpp:45-70 | The epilogue pops the result into x0, gives the frame back and returns to x30, at any height of the stack |
| Function.CallCorrect | include/Wasm/WasmFunction.hpp:10-58 | A call of the function comes back to its caller whatever the nesting and depth at a failing division, the return code saying whether the body trapped |
| Image.ExecArgs | include/Wasm/WasmFunction.hpp:124-142 | Each argument's bit pattern ends in its own register, for every list of arguments |
| Image.Relocated | include/Wasm/Execute.hpp:28-30 | Label-relative code runs the same behind the words that load the parameters |
| Image.ImageCorrect | include/Wasm/Execute.hpp:52-57 | Executing the image is a correct call with those arguments |
| Layout.DisjointSlots | include/Wasm/Initialize.hpp:4-76 | The effective slots of a frame are disjoint if and only if no i64 has a neighbour in the other half of its 8-byte cell |
| Layout.NarrowFrame | include/Wasm/Initialize.hpp:33-37 | In a frame of i32 variables all slots are disjoint, 4-aligned and addressed exactly at their mapped offsets |
| Layout.WideParams | include/Wasm/WasmFunction.hpp:93-94 | Parameters that are all i64, without locals: their slots are disjoint if and only if there are at most two |
| Layout.WideFrame | include/Wasm/Initialize.hpp:4-76 | A frame whose n parameters and m locals are all i64: the slots are disjoint if and only if n is at most 2 and m is at most 1, or m is 2 and n is even |
| Layout.FrameLeast | include/Wasm/Stack.hpp:26-33 | The frame is the least multiple of 16 that is at least 4 bytes a variable and 8 between parameters and locals |
| Layout.SlotPlaces | include/Wasm/Initialize.hpp:4-76 | Parameter i of n is at 4 * (n - i), local j of m at 4 * n + 8 + 4 * (m - j), each with its width |
| Compiler.KnownPlaces | include/Wasm/Initialize.hpp:4-76 | After a compilation both maps say that, for every parameter and local, and the reverse map leads back to it |
| Layout.FrameHoldsSlots | include/Wasm/Stack.hpp:4-33 | The frame is 16-aligned and holds every slot, except that local 0 lies just above it exactly when there are locals and `local_stack_end_location` is a multiple of 16 |
| Layout.ExtentHoldsSlots | include/Wasm/Stack.hpp:26-30 | No slot reaches more than 8 bytes above the frame |
| Emission.EmitBody | include/Wasm/WasmFunction.hpp:232-258 | The pass over a structured body appends exactly the body's items, records each label once at the start of its else arm or end, and leaves the control stack as it was |
| Emission.PrefixControl | include/Wasm/Emit.hpp:174-217 | On every prefix of a well-nested body the control stack is its first entries and one per open block |
| Emission.NestedBody | include/Wasm/Emit.hpp:205-217 | A structured body, followed by anything well nested, is well nested |
| Emission.StepElse | include/Wasm/Emit.hpp:205-212 | `else` records the open label at the start of the second arm and opens a fresh one |
| Emission.StepStop | include/Wasm/Emit.hpp:213-217 | `end` records the open label, not recorded before, at the next word |
| Emission.DivsInside | include/Wasm/Emit.hpp:164 | The words that divisions would give their label rise strictly inside the body |
| Emission.OneDivision | include/Wasm/Branch.hpp:10-13 | Since only the first record of a label stays, `normal_div` is every division's own if and only if there is at most one division |
| Linking.ResolveBody | include/Wasm/Branch.hpp:14-38 | Resolving the placeholders of a body gives its structured code word for word |
| Linking.WholeLinked | include/Wasm/WasmFunction.hpp:10-58 | For every function and label count, the pass followed by resolution gives exactly the function's structured code and an empty control stack |
| Patching.AcceptedExactly | include/Opcode/Branch.hpp:11-27 | A branch decodes to what was asked for if and only if its distance is within the signed 26-bit or 19-bit range; the encoders accept more |
| Patching.FakesPlaces | include/Wasm/Branch.hpp:4-9 | Every pending branch is recorded once, at the characters of its own placeholder |
| Patching.PatchedStep | include/Wasm/Branch.hpp:19-37 | Patching one pending branch changes its item and no other |
| Patching.PatchText | include/Wasm/Branch.hpp:27-34 | Overwriting eight characters gives the text with that one branch resolved |
| Compiler.PatchAll | include/Wasm/Branch.hpp:19-37 | Taking the pending branches in any order: the text is that of all branches resolved, or a distance is refused |
| Compiler.WasmFunction.FixUpFakeBranch | include/Wasm/Branch.hpp:14-38 | Fails exactly when some distance is refused; otherwise every placeholder is its branch and nothing else changes, whatever the order |
| Compiler.WasmFunction.FakeInsertBranch | include/Wasm/Branch.hpp:4-9 | Appends a placeholder and records it as pending |
| Compiler.WasmFunction.InsertLabel | include/Wasm/Branch.hpp:10-13 | Records the label here unless it has a record already |
| Bytecode.NextInstruction | include/Wasm/WasmFunction.hpp:237-383 | Each instruction takes its bytes once and leaves a body that still reads sensibly |
| Bytecode.BodyBack | include/Wasm/WasmFunction.hpp:237-383 | The bytes of a structured body and its final `end` read sensibly, as exactly its instructions |
| Bytecode.InstructionsExactly | include/Wasm/WasmFunction.hpp:237-383 | Reading accepts exactly what is written: bytes are read as those instructions that are written as these bytes, raw indices included |
| Bytecode.InstructionsBack | include/Wasm/WasmFunction.hpp:237-383 | Reading undoes writing for every sequence of supported instructions |
| Bytecode.UnsupportedRefused | include/Wasm/WasmFunction.hpp:278-288 | Behind any written instructions, a floating-point constant or an `if` with a type other than 40, 7F and 7E ends the pass with the exception for missing support |
| Bytecode.ThrowsExactly | include/Wasm/Emit.hpp:174-195 | Nothing else throws |
| Bytecode.BadIndexRefused | include/Wasm/WasmFunction.hpp:193-219 | Behind written instructions, one on a variable that is not there ends the pass with the exception for a bad index |
| Bytecode.RawConstant | include/Wasm/WasmFunction.hpp:268-277 | A constant's raw byte has the standard's value if and only if it is below 64 |
| Compiler.WasmFunction.constructor | include/Wasm/WasmFunction.hpp:384-411 | A fresh object has emitted nothing and counts labels from 0 |
| Compiler.WasmFunction.ConstructFullInstr | include/Wasm/Emit.hpp:223-225 | Appends the words of the given instructions |
| Compiler.Push | include/Wasm/Stack.hpp:71-86 | The text of the push sequence |
| Compiler.Pop | include/Wasm/Stack.hpp:87-107 | The text of the pop sequence, with the third word when teeing |
| Compiler.MovInt | include/Opcode/Mov.hpp:49-67 | The text of the movz/movk sequence; refused exactly for a register above 31 |
| Compiler.GetSetJmpInstr | include/Wasm/CommonHeader.hpp:18-49 | The text is that of the code that `Stub.RunSetJmp` is about |
| Compiler.GetLongJmpInstr | include/Wasm/CommonHeader.hpp:50-85 | The text is that of the code that `Stub.RunLongJmp` is about |
| Compiler.WasmFunction.EmitGet | include/Wasm/Emit.hpp:4-19 | Appends the load of the mapped slot and a push |
| Compiler.WasmFunction.EmitSet | include/Wasm/Emit.hpp:20-32 | Appends a pop, or a teeing one, and the store to the mapped slot |
| Compiler.WasmFunction.CommonLocalOp | include/Wasm/WasmFunction.hpp:193-219 | Picks parameter or local by the index; throws the bad index exactly for an index that is out of range |
| Compiler.WasmFunction.EmitConst | include/Wasm/Emit.hpp:33-60 | Appends the constant's load and a push |
| Compiler.WasmFunction.EmitCompareOp | include/Wasm/Emit.hpp:61-84 | Appends the comparison sequence with the condition of the relation |
| Compiler.WasmFunction.EmitArithOp | include/Wasm/Emit.hpp:85-173 | Appends the operation, a division with its checks, placeholders and label |
| Compiler.WasmFunction.EmitDivisionChecks | include/Wasm/Emit.hpp:140-164 | Appends the checks and records `normal_div` unless it is recorded |
| Compiler.WasmFunction.EmitIfOp | include/Wasm/Emit.hpp:174-204 | Appends the test, opens a block with a fresh label |
| Compiler.WasmFunction.EmitElseOp | include/Wasm/Emit.hpp:205-212 | Closes the first arm, opens the second |
| Compiler.WasmFunction.EmitEndOp | include/Wasm/Emit.hpp:213-217 | Closes the innermost block |
| Compiler.WasmFunction.EmitInstruction | include/Wasm/WasmFunction.hpp:242-381 | Does what the step of the specification does; throws the bad index exactly for a variable that is not there |
| Compiler.WasmFunction.JitWasmCode | include/Wasm/WasmFunction.hpp:232-383 | The loop ends, takes every byte once, and gives the state of all steps; it fails exactly when an instruction or variable is refused, with the exception of the first that is |
| Compiler.WasmFunction.LocalVarInitialize | include/Wasm/WasmFunction.hpp:62-73 | Appends the declared locals behind those of earlier compilations |
| Compiler.DeclaredCount | include/Wasm/WasmFunction.hpp:62-73 | Any written list of integer declarations declares as many locals as the sum of its counts |
| Compiler.DeclaredAt | include/Wasm/WasmFunction.hpp:62-73 | Local j of declaration d, behind those of the declarations before, has the type of declaration d |
| Compiler.WasmFunction.GetStackPreallocateSize | include/Wasm/Stack.hpp:4-33 | With n parameters and m locals the parameters end at 4 * n, the locals at 4 * n + 8 + 4 * m, and the frame is the least multiple of 16 from there |
| Compiler.WasmFunction.PrepareSp | include/Wasm/Stack.hpp:34-38 | Appends the subtraction from sp; throws out of range exactly for a frame of 4096 bytes or more |
| Compiler.WasmFunction.InitParam | include/Wasm/Initialize.hpp:4-43 | Maps each parameter to its slot, both ways, and stores it there |
| Compiler.WasmFunction.InitLocal | include/Wasm/Initialize.hpp:44-76 | Maps each local to its slot, both ways, and stores zero there; entries never clash |
| Compiler.WasmFunction.MainEntryInitialize | include/Wasm/WasmFunction.hpp:74-80 | Frame, maps and first stores in one |
| Compiler.WasmFunction.RestoreSP | include/Wasm/Stack.hpp:45-70 | Appends the pops of the results and the addition to sp |
| Compiler.WasmFunction.MainEntryFinalize | include/Wasm/WasmFunction.hpp:81-84 | Appends the epilogue and the return |
| Compiler.WasmFunction.WrapperSetjmp | include/Wasm/WasmFunction.hpp:151-160 | Appends the guarded call of setjmp |
| Compiler.WasmFunction.PrepareParams | include/Wasm/WasmFunction.hpp:105-144 | Appends the words that set up the registers and load the parameters; fails exactly for more than 32 |
| Compiler.WasmFunction.ResetAfterExecution | include/Wasm/WasmFunction.hpp:145-150 | Clears texts, placeholders and labels; locals, maps and the label count stay |
| Compiler.WasmFunction.ProcessCodeVec | include/Wasm/WasmFunction.hpp:10-58 | Compiles the body: fails exactly when the frame, a register, an instruction, a variable or a distance does not fit; otherwise the text is that of the whole function with every branch resolved, and the slot maps are inverse |
| Compiler.WasmFunction.ExecuteWasmInstr | include/Wasm/Execute.hpp:21-68 | Runs the bytes of both texts, starts afresh and turns a return code other than 0 into the trap |
| Compiler.WasmFunction.Round | include/Parser.hpp:163-182 | One round hands the bytes of the parameter words and the linked function to the executor; the answer is the trap if and only if the body compiles and the return code is not 0; a body that does not compile ends with its own exception; afterwards text, placeholders and labels are clear, the locals and the label count have grown |
| Compiler.NotTrapped | include/Wasm/Execute.hpp:64-66 | No exception of the compilation is the trap |
| Loading.Loaded | include/Wasm/Execute.hpp:4-20 | Text emitted for encodable code is read back as that code at any address |
| Loading.SoundImage | include/Wasm/WasmFunction.hpp:10-58 | Every instruction of the image of a function within reach has an encoding |
| HexText.TextBack | include/Utils.h:320-324 | Byte-swapped, printed and read back two digits a byte, any list of words is in memory as it was |
| HexText.SwapText | include/Opcode/Base.hpp:131-139 | Swapping and printing the high byte first prints the low byte first |
| HexText.ReadBytes | include/Wasm/Execute.hpp:5-10 | The loop fills the array with the bytes of the text |
| Isa.RoundTrip | include/Opcode/Arithmetic.hpp:4-60 | Decoding the word of every instruction whose operands fit gives the instruction back, negative branch, pair and ADR immediates included |
| Isa.BranchExactly | include/Opcode/Branch.hpp:11-27 | The word of any branch decodes as its distance wrapped to the signed range, so as itself exactly when encodable |
| Words.AddSubRegWord | include/Opcode/Arithmetic.hpp:4-21 | ADD and SUB of registers, with and without flags: for all operands the word is the sum of its constant and each operand at its power of two |
| Words.AddSubImmWord | include/Opcode/Arithmetic.hpp:48-60 | ADD and SUB of an immediate, with and without flags: for all operands the word is the sum of its constant and each operand at its power of two |
| Words.MulWord | include/Opcode/Arithmetic.hpp:23-34 | MUL: for all operands the word is the sum of its constant and each operand at its power of two |
| Words.DivWord | include/Opcode/Arithmetic.hpp:36-46 | SDIV and UDIV: for all operands the word is the sum of its constant and each operand at its power of two |
| Words.MovRegWord | include/Opcode/Mov.hpp:8-16 | MOV of a register: for all operands the word is the sum of its constant and each operand at its power of two |
| Words.MovWideWord | include/Opcode/Mov.hpp:18-47 | MOVZ, MOVK and MOVN: for all operands the word is the sum of its constant and each operand at its power of two |
| Words.PairWord | include/Opcode/LoadStore.hpp:4-28 | LDP and STP in three modes: for all operands the word is the sum of its constant and each operand at its power of two |
| Words.OffsetWord | include/Opcode/LoadStore.hpp:38-64 | LDR and STR with a scaled offset: for all operands the word is the sum of its constant and each operand at its power of two |
| Words.IndexWord | include/Opcode/LoadStore.hpp:38-64 | LDR and STR with an index: for all operands the word is the sum of its constant and each operand at its power of two |
| Words.RegisterWord | include/Opcode/LoadStore.hpp:70-94 | LDR and STR with a register offset: for all operands the word is the sum of its constant and each operand at its power of two |
| Words.CselWord | include/Opcode/Compare.hpp:18-32 | CSEL: for all operands the word is the sum of its constant and each operand at its power of two |
| Words.BranchWord | include/Opcode/Branch.hpp:11-19 | B and BL: for all operands the word is the sum of its constant and each operand at its power of two |
| Words.CondWord | include/Opcode/Branch.hpp:21-27 | B.cond: for all operands the word is the sum of its constant and each operand at its power of two |
| Words.JumpWord | include/Opcode/Branch.hpp:4-36 | BR, BLR and RET: for all operands the word is the sum of its constant and each operand at its power of two |
| Words.AdrWord | include/Opcode/Branch.hpp:38-46 | ADR: for all operands the word is the sum of its constant and each operand at its power of two |
| Words.FrameWords | readme.md:98-116 | The words that the documentation prints for moving sp by 48 |
| Words.ConstantWords | readme.md:105 | The words that the documentation prints for the constant 1 |
| Words.SlotWords | readme.md:99-114 | The words that the documentation prints for accesses to the frame |
| Words.ReturnWord | readme.md:117 | The word that the documentation prints for the return |
| Machine.FlagsOrNot | include/Opcode/Arithmetic.hpp:10-20 | Setting the flags does not change the sum or difference |
| Numbers.TruncDivMeaning | include/Opcode/Arithmetic.hpp:36-46 | The quotient of signed division: the remainder is smaller than the divisor and has the sign of the dividend |
| Opcode.OrIsSum | include/Opcode/Base.hpp:70-76 | Values OR-ed into bits of their own add up: no field disturbs another |
| Opcode.BuildsWord | include/Opcode/Base.hpp:70-76 | A sequence of field writes with the sum of the diagram builds the diagram's word |
| Opcode.OrAdds | include/Opcode/Base.hpp:75 | OR-ing into bits that are still zero adds |
| Opcode.Arm64Opcode.SetField | include/Opcode/Base.hpp:70-76 | ORs the masked value in, or refuses a value above the limit and changes nothing |
| Opcode.Arm64Opcode.GetInstruction | include/Opcode/Base.hpp:131-144 | The word's text, its low byte first |
| Opcode.EncodeNop | include/Opcode/Base.hpp:156-160 | The text of NOP |
| Opcode.EncodeAddSubShift | include/Opcode/Arithmetic.hpp:4-21 | ADD, SUB, ADDS or SUBS of registers, refused exactly for operands out of range |
| Opcode.EncodeAddSubImm | include/Opcode/Arithmetic.hpp:48-60 | The immediate form, refused exactly for operands out of range |
| Opcode.EncodeMul | include/Opcode/Arithmetic.hpp:23-34 | MADD with the zero register, its fixed bits written at once |
| Opcode.EncodeDiv | include/Opcode/Arithmetic.hpp:36-46 | SDIV or UDIV |
| Opcode.EncodeCompareNegativeShift | include/Opcode/Compare.hpp:5-9 | ADDS into the zero register |
| Opcode.EncodeCompareShift | include/Opcode/Compare.hpp:10-14 | SUBS into the zero register |
| Opcode.EncodeCompareImm | include/Opcode/Compare.hpp:15-17 | SUBS of an immediate into the zero register |
| Opcode.EncodeCsel | include/Opcode/Compare.hpp:18-32 | CSEL with the condition |
| Opcode.EncodeMovSP | include/Opcode/Mov.hpp:5-7 | MOV to or from sp, as ADD of zero |
| Opcode.EncodeMovRegister | include/Opcode/Mov.hpp:8-16 | MOV between registers, as ORR with the zero register |
| Opcode.EncodeMovz | include/Opcode/Mov.hpp:18-26 | MOVZ at the half-word of the shift |
| Opcode.EncodeMovk | include/Opcode/Mov.hpp:28-37 | MOVK at the half-word of the shift |
| Opcode.EncodeMovn | include/Opcode/Mov.hpp:39-47 | MOVN at the half-word of the shift |
| Opcode.EncodeLdpStp | include/Opcode/LoadStore.hpp:4-28 | LDP or STP in three modes, with the scaled signed immediate |
| Opcode.EncodeLoadStoreImm | include/Opcode/LoadStore.hpp:38-64 | LDR or STR with a scaled or indexed immediate, refused exactly when out of range or in the mode without support |
| Opcode.EncodeLoadStoreReg | include/Opcode/LoadStore.hpp:70-94 | LDR or STR with a register offset |
| Opcode.EncodeReturn | include/Opcode/Branch.hpp:4-9 | RET |
| Opcode.EncodeBranch | include/Opcode/Branch.hpp:11-19 | B or BL with the signed distance |
| Opcode.EncodeBranchCondition | include/Opcode/Branch.hpp:21-27 | B.cond with the signed distance |
| Opcode.EncodeBranchRegister | include/Opcode/Branch.hpp:29-36 | BR or BLR |
| Opcode.EncodeAdr | include/Opcode/Branch.hpp:38-46 | ADR with the immediate in its two pieces |
| Printing.ModuleBack | include/Parser.hpp:20-43 | Reading the text of any list of sections below 128 bytes gives exactly what they say: types, type indices, export maps, bodies; other sections are skipped whole |
| Printing.SectionBack | include/Parser.hpp:59-155 | Each section's text adds what the section says |
| Printing.LastExport | include/Parser.hpp:107-121 | After the exports, each name leads to its last export and each index to its last name |
| Printing.LastNamed | include/Parser.hpp:107-121 | The text whose character codes are the bytes of a name leads to the index of the last export with these bytes, and an index to the text of its last export |
| Printing.CutOff | include/Parser.hpp:20-43 | A module of short sections that is cut off at any byte is accepted if and only if it is cut at the end of a section |
| Printing.FunctionsExactly | include/Parser.hpp:86-100 | A list of type indices is read exactly when it ends within the bytes |
| Printing.NameExactly | include/Parser.hpp:109 | A name is read exactly when it ends within the bytes |
| Printing.NoBody | include/Parser.hpp:131-144 | A body of size 0 is refused |
| Printing.TypeExactly | include/WasmType.hpp:26-47 | Each byte names its type, and a byte other than 7C to 7F none |
| Printing.LongSection | include/Parser.hpp:26 | A section of 128 to 16383 bytes is never skipped whole: reading goes on inside its content |
| Sections.Parser.InitialCheck | include/Parser.hpp:44-58 | Accepts exactly texts with the magic number and a version, and crops both |
| Sections.Parser.ParseType | include/Parser.hpp:59-85 | Appends the types of the section, or fails exactly when the text ends too early |
| Sections.Parser.ParseFunction | include/Parser.hpp:86-100 | Appends the type indices |
| Sections.Parser.ParseExport | include/Parser.hpp:101-122 | Enters each export in both maps, by the text of its name |
| Sections.Parser.ParseCode | include/Parser.hpp:123-155 | Appends the bodies, each with its bytes and number of declarations |
| Sections.Parser.Parse | include/Parser.hpp:20-43 | The loop ends with the text used up and everything read, or fails exactly when the text is malformed |
| Leb.Decode | include/Utils.h:263-275 | With at most five bytes up to the last one, the value modulo 2 to the bits when at most 32 are asked for, and else when it is below 2 to the 31; later bytes are ignored |
| Leb.EncodingsBack | include/Utils.h:263-275 | Every encoding in at most five bytes of a value below 2 to the 32, padded or not and whatever follows, has that value |

## Left out

- Floating point: variables of float types, f32 and f64 constants beyond the exception that they raise, S and D registers.
- `mmap`, cache flushing, allocation and the call through a pointer: `Compiler.WasmFunction.ExecuteWasmInstr` takes the machine as a function, and the machine model runs the decoded bytes.
- Printing, disassembly, file reading, command line and JSON: no effect on the code that is generated.
- Loops, calls, memory instructions, `return` before the end and several results: the compiler does not translate them.
- `decodeLEB128` and `decodeSLEB128`: marked unfinished in the source, and unused by the compiler.
- Memory is modelled in aligned 4-byte cells, all that the generated code accesses; an access that is not aligned stops the machine.
- Code is not in data memory: no store changes it, so self-modification is outside the model.
- Labels are values of a datatype instead of strings; the numbered ones are distinct as their strings are.
- Widths of C++ integers in counters, offsets and positions are unbounded, except where the source narrows a value for an encoder or a frame reaches 65536 bytes, which `Compiler.WasmFunction.Round` excludes.
- `funcSingleProcess` and the pairing of bodies with types: a function object is made with its types.
- Compiler.WasmFunction.JitWasmCode: does not describe bodies with an unknown opcode, on which the source loops for ever, or with a missing operand, which reads behind the vector.
- Compiler.WasmFunction.ProcessCodeVec: bodies on which `JitWasmCode` is not described; `Bytecode.BodyBack` shows that the bytes of every structured body are.
- Compiler.WasmFunction.LocalVarInitialize: float declarations add locals in the source and none here, so the indices of integer locals behind one differ; bodies with them are not described.
- Compiler.WasmFunction.ExecuteWasmInstr: takes the execution as a parameter; `Rounds.OneRound` ties it to the machine.
- Compiler.WasmFunction.Round: its result is what the executor gives, and bytes that are not those of a structured body can leave entries on the control stack; `Rounds.OneRound` has the whole round. The text that a body leaves behind when it does not compile is not described.
- Rounds.Rounds: of a run in which the emitted code pops a leaked i32 as an i64, it says that the answer is a fresh object's, not which number that is.
- Opcode.EncodeLoadStoreReg: only the LSL option, the one the compiler uses.
- Opcode.EncodeAddSubImm: the parameter `isCmp` has no effect in the source and is dropped.
- Leb.Decode: bytes beyond the fifth group and 64 bits, whose shifts are undefined in the source.
- Sections.Parser.Parse: an exception leaves the fields as they are at that moment, which the contract does not describe.
- Correctness.Preserved: says nothing of x19 to x21, which the code overwrites.
