# Qela: verified models of the compiler's core

Qela is a self-hosting compiler. This project models the parts of it whose correctness rests on an
argument rather than on a table, and proves that argument in Dafny:

| part | files |
|---|---|
| tree-to-machine code generation of the bootstrap compiler (`src/codegen.c`) | `Source`, `Machine`, `Lowering`, `Simulation`, `Registers`, `Defers`, `Unwinding`, `Statements`, `Functions`, `Emission`, `Depths`, `Generator`, `Programs` |
| bounds-check elision (`srcql/bounds.qela`) | `Checked`, `Elision`, `ElisionSound`, `ElisionMarks`, `ElisionPass` |
| compile-time IEEE 754 arithmetic (`srcql/comptime.qela`, `srcql/codegen.qela`) | `Rounding`, `SoftFloat` |
| LZSS packing, the embedded library and the archive of absorbed files | `Lzss`, `Packers`, `GenBlob`, `Absorb`, `Words`, `Blob`, `Archive` |
| quicksort, LL/SC atomics, AArch64 constants, the DWARF line table, the constant folder | `Sort`, `Atomics`, `A64`, `Dwarf`, `Folding` |

`Common` and `Bits` hold shared types and the arithmetic of powers of two, shifts and masks.
`dafny verify dfyconfig.toml` checks everything.

## The main results

* **Code generation.** `Programs.ProgramSim` is the correctness theorem for whole programs: the
  functions of a unit as `Generator.GenUnit` leaves them, calling each other and themselves on one
  stack, and functions outside of it. Whatever a function does in the source, with every call it makes,
  to any depth, the machine does: it returns the same value after the same outside calls in the same
  order with the caller's registers, stack and memory as they were, or stops on a divide error or at
  the panic stub exactly where the source faults. It runs out of stack only where there is not room for
  calls nested that deep, each with its frame and with what its expressions push (`Depths`): every place
  in the code has one stack depth, however it is reached. A machine that calls with an unaligned stack is
  stuck in the model, so RSP is a multiple of 16 at every call.
  Underneath: `Generator.Emitter` is the generator, a class that appends to a buffer, counts the stack
  depth, opens and closes loops and `defer` scopes, and patches jumps when their targets are known;
  every method is proved to append exactly the code that `Lowering` specifies.
  `Functions.FunctionSim` is the simulation theorem for one function, against any answers to its calls.
  `Statements.StmtSim` is its core: a `break`, `continue` or `return` arrives where it should after
  running exactly the defers that are due, the latest first, and a returned value survives them.
* **Elision.** `ElisionSound.ElideFunction`: a function runs the same, on every input, with the checks
  that the pass drops and with all of them; `NeverWild`: no access that lost its check is ever out of
  range. What the pass takes for granted is stated (`Safe`, see *Findings*). `PlanIff` says exactly
  which loops are taken, and `ElisionMarks.ElidedAt`, place by place in the tree, exactly which accesses in
  them lose their check; nothing else changes. `ElisionPass` proves the pass over its two arrays of 64
  against that.
* **Floating point.** `SoftFloat.FpAdd`, `FpMul`, `FpDiv` and `FpCast` return the round-to-nearest-even
  of the exact real result (IEEE 754-2019 section 4.3.1), for both formats, through subnormals and
  overflow; intermediate values are of a 64-bit type, so no operation overflows. The two independent
  narrowings agree bit for bit exactly when the argument is not a NaN with its sign bit set.
* **LZSS.** Any choice of valid items decodes to the data, overlapping references included; both
  compressors make such a choice, at most one eighth larger than the data, and the exhaustive one always
  takes the longest match, nearest first. The checking decoder equals its specification on arbitrary
  input; it accepts exactly what the packer's own decoder brings to the right length without reaching back
  beyond the first byte, and the decoder without checks agrees with it on the packer's streams. The archive
  and the library directory give every file back, and the archive's bytes do not depend on the order in
  which files are given.
* **The rest.** Quicksort sorts in place and touches nothing else. LL/SC loops lose no update under any
  schedule, and a thread that runs alone is through with its operation within eleven steps. Any 64-bit constant is loaded in at most four instructions. The DWARF state machine replays
  exactly the recorded rows. Folding preserves meaning, leaves nothing that could be folded, and rejects
  exactly what divides by a folded constant zero where it is looked at.

## Findings

* **Corrupt archives that are accepted.** The checks on the footer and on the index entries add signed
  64-bit numbers, which may wrap (`srcql/absorb.qela:90-91`, `103-105`). An entry of 2^62 bytes at 2^62
  passes, and `absorbed_find` then hands out a view that lies outside of the data
  (`Archive.StrayEntry`); a footer with both lengths 2^63 - 1 passes and describes pieces outside of the
  image (`Archive.StrayFooter`). An accepted entry lies in the data exactly when its own sum is below 2^63
  (`Archive.LoadedEntries`), and an accepted footer describes the image exactly when its sum is
  (`Archive.StrayIff`).
* **A size that wraps.** The decoder asks for `total + 1` bytes (`srcql/absorb.qela:45`). For a raw length of
  2^63 - 1, which the footer's checks let pass, the sum wraps to -2^63; `arena_alloc` takes a negative size
  for one that fits (`std/arena.qela:15`) and returns its position with no room behind it, and the decoder
  writes there before it can reject anything. `Absorb.RequestedIff` says that this is the one length for which
  the size is wrong, `Archive.NoRoomIff` exactly which images lead to it, and `Archive.NoRoomFooter` is one,
  behind any plain image.
* **A nested `defer` ends the parser's watch.** A `return`, `break` or `continue` in a deferred statement is to
  be rejected, because the generator would meet the same `defer` again (`src/parse.c:23-26`). The flag for that
  is cleared at the end of every `defer`, also of one nested in a deferred statement (`src/parse.c:822-828`,
  and `srcql/parse.qela:3652-3654`). So `{ defer { defer s; return; } }` is accepted (`Defers.NestedReturn`),
  and the generator calls itself on it without end (`Defers.NoCode`); `{ defer { defer s; while (c) { break; } } }`
  is accepted as well, and is fine (`Defers.NestedLoop`). For programs that are accepted, no deferred
  statement is left by a jump exactly when no jump out of one stands behind a nested `defer`
  (`Defers.ContainedIff`), and the generator comes to an end with code exactly when that is so and every jump is
  inside a loop (`Defers.DoneIff`). These are the programs for which code generation is proved
  (`Defers.AcceptedIff`).
* **A `defer` before the increment of a `while`-shaped loop.** The pass marks accesses in it, but it runs
  after the increment (`srcql/bounds.qela:373-380`). `ElisionSound.EarlyDeferWild` shows, for every
  array length, a loop whose marked access leaves its array. Soundness is proved for functions that are
  `Safe`: the pass makes no difference to such a statement (`Unconcerned`: the marking leaves it as it
  is, and so does the walk whether or not the loop's range is in force), and a loop variable is declared
  before its loop and not inside, as in every program with resolved names. Every other `defer` is
  allowed. The converse is not claimed: whether the access goes wrong depends on whether a run reaches
  the loop's last round, which a `break`, a `return` or an endless statement before it can prevent.
* **`arm64_alu_imm` with the least 64-bit number.** Its negation wraps to itself and is taken for a small
  number, so an addition or subtraction of 2^63 is emitted with the operand 0
  (`srcql/arm64_emit.qela:638-648`). `A64.AluImm` proves the accepted forms right for every other
  operand, and wrong for that one.
* **Signs.** `ct_fp_add` gives an exactly cancelled sum the first operand's sign
  (`srcql/comptime.qela:231-233`); section 6.3 of IEEE 754-2019 asks for +0. The two narrowings differ on
  a NaN whose sign bit is set. Both are stated exactly (`FpAdd`, `NarrowBothWays`).
* **`x && 0` and `x || 1`.** The folder drops the left side without looking at it (`src/opt.c:88-92`):
  `(x = 1) && 0` no longer stores 1 (`Folding.DropsStore`). `Folding.DropIff` says when dropping is
  right: for a left side that is syntactically quiet, or that always calls, always stores a constant or
  always divides by a variable, exactly when it is quiet. What is left are sides whose effect hangs on a
  value, such as `y && f()` or `x = x`, where syntax does not decide.
* **Unsigned constants.** The folder computes with signed numbers whatever the type
  (`src/opt.c:66-87`): the largest `u64` divided by 2 becomes 0 (`Folding.UnsignedHalf`).
  `Folding.UnsignedIff` gives, for every operator, the exact condition on the operands under which the
  folded number is the one that the generated code computes. An expression may even be rejected for it: five
  divided by that half is 0, but is reported as a division by zero (`Folding.UnsignedRejected`).
* **`end_sequence`.** The line table ends at the end of the text exactly when no row lies behind it
  (`Dwarf.ProgramRuns`).
* **The frame-clearing loop.** Its `jae` (`src/codegen.c:988`) has displacement 8 where the three
  instructions it skips take 9 bytes, so it lands on the last byte of the backward jump, 0xF2, which the
  processor takes for a prefix of the next instruction (`Functions.LandsEarly`, on the bytes). The model
  counts instructions and goes to that next instruction.

## How the code is modelled

Instructions are datatypes; code addresses count instructions and data addresses bytes, with memory kept
in aligned words of eight. A call inside a unit whose frame does not fit below the stack pointer ends
the machine's run with `Overflow`. What a function outside of the unit returns is an arbitrary function
of its name, its arguments and the calls before it, and what it destroys an arbitrary function of the
machine. A source run is given by a fuel for its loops and a depth for its calls; nothing is claimed of
a run that does not terminate. In the floating-point model a bit pattern is an unsigned number and its
magnitude a real. C's signed overflow in the folder and in `mov` immediates is taken as two's
complement.

## Model

| member | source | states |
|---|---|---|
| Generator.Emitter.GenExpr | src/codegen.c:601-805 | Appends the specified code of the expression at the current depth and leaves the depth as it was. |
| Generator.Emitter.GenPlace | src/codegen.c:350-397 | The same for an address: a local, or an element with its bounds check. |
| Generator.Emitter.GenBinop | src/codegen.c:522-599 | The same for an operator on RAX and RDI. |
| Generator.Emitter.GenArgs | src/codegen.c:477-511 | Every argument is pushed in turn; the depth grows by their number. |
| Generator.Emitter.PopRegs | src/codegen.c:510-511 | The last argument is popped first, each into its own register. |
| Generator.Emitter.GenCall | src/codegen.c:741-757 | Pads the stack when the depth is odd. |
| Generator.Emitter.GenShort | src/codegen.c:766-783 | `&&` and `\|\|` with three forward jumps, each patched to its target. |
| Generator.Emitter.Jump | src/codegen.c:265-275 | Emits a jump with displacement 0 and returns its place. |
| Generator.Emitter.PatchHere | src/codegen.c:277-279 | Resolves exactly that jump to the next instruction. |
| Generator.Emitter.JumpBounds | src/codegen.c:343-348 | The jump joins the list of bounds checks. |
| Generator.Emitter.GenStmt | src/codegen.c:854-957 | Appends the specified code of the statement; rejects exactly those with a `break` or `continue` outside of a loop. |
| Generator.Emitter.GenBlock | src/codegen.c:856-864 | Opens a scope, emits the statements, runs the scope's defers, closes it. |
| Generator.Emitter.GenItem | src/codegen.c:865-869 | A defer emits nothing and goes to the front of the innermost scope. |
| Generator.Emitter.RunDefers | src/codegen.c:807-809 | The defers of a scope in the order of the list. |
| Generator.Emitter.UnwindTo | src/codegen.c:811-814 | The defers of exactly the scopes deeper than the target. |
| Generator.Emitter.GenReturn | src/codegen.c:876-904 | The value is saved across the unwinding of every scope. |
| Generator.Emitter.GenIf | src/codegen.c:905-919 | One or two forward jumps, patched behind the branches. |
| Generator.Emitter.GenFor | src/codegen.c:920-942 | Initialisation, then the loop. |
| Generator.Emitter.GenLoop | src/codegen.c:923-941 | After both patch lists are worked off, the loop's labels are resolved: `continue` to the step, `break` behind the loop. |
| Generator.Emitter.GenJump | src/codegen.c:943-952 | Unwinds to the loop's depth and joins the loop's list. |
| Generator.Emitter.GenFrame | src/codegen.c:967-993 | The prologue with the loop that clears the frame. |
| Generator.Emitter.GenParams | src/codegen.c:995-1002 | Arguments go from their registers to their slots. |
| Generator.Emitter.GenFn | src/codegen.c:959-1009 | A whole function, from depth 0 and no open loop or scope. |
| Generator.GenUnit | src/codegen.c:1045-1141 | Every function is in place in the final code, every label resolved, every bounds check at the stub. |
| Emission.ResolvePatched | src/codegen.c:277-279 | Patching the listed sites of a label is resolving that label everywhere and nothing else. |
| Emission.StmtClosed | src/codegen.c:943-952 | Code whose jumps are inside loops has no unresolved loop label left. |
| Simulation.DoMovImm | src/codegen.c:109-132 | All four encodings of a constant load leave the constant in the register. |
| Simulation.ShortestLoad | src/codegen.c:109-132 | No other of the four encodings of a constant load is shorter than the one chosen. |
| Simulation.OpSim | src/codegen.c:522-599 | RAX op= RDI computes the source's operator, trapping in the same cases. |
| Simulation.IdivStep | src/codegen.c:541-557 | `cqo; idiv` is truncating division, with a trap exactly on zero and on the quotient that does not fit. |
| Simulation.ElementSim | src/codegen.c:365-397 | An index out of range goes to the stub; otherwise RAX is the element's address. |
| Simulation.AssignSim | src/codegen.c:638-644 | Place before value; one word of one local changes. |
| Simulation.OpAssignSim | src/codegen.c:645-659 | The old value is read before the right-hand side is evaluated. |
| Simulation.BinSim | src/codegen.c:793-805 | The right operand is evaluated first. |
| Simulation.ShortCircuitSim | src/codegen.c:766-783 | The second operand runs only when the first does not decide; the result is 0 or 1. |
| Simulation.ZeroArray | src/codegen.c:698-714 | A declaration clears all words of the local and no other. |
| Simulation.PopArgsSim | src/codegen.c:477-511 | Every argument ends up in its register. |
| Simulation.AlignedCall | src/codegen.c:741-757 | RSP is a multiple of 16 at the call, whatever the depth. |
| Simulation.CallSim | src/codegen.c:741-757 | Arguments left to right, then one call with exactly those values; a call that ends in a fault ends the caller with it. |
| Simulation.ExprSim | src/codegen.c:601-805 | The code of any expression ends with its value in RAX, the same locals and calls and the same stack, or with its fault. |
| Defers.Parser.Statement | src/parse.c:728-828 | The checks in the parser's order, with the one flag that every `defer` sets and then clears. |
| Defers.ContainedIff | src/parse.c:822-828 | In a program that is accepted, no jump leaves a deferred statement exactly when none stands behind a `defer` nested in that statement. |
| Defers.AcceptedIff | src/parse.c:23-26 | Of the programs that are accepted, code is proved for exactly those. |
| Defers.NestedReturn | src/parse.c:822-828 | A deferred `return` behind a nested `defer` is accepted. |
| Defers.NestedLoop | src/parse.c:759-765 | A deferred loop with a `break`, behind a nested `defer`, is accepted and in order. |
| Defers.DoneIff | src/codegen.c:807-952 | The generator gets through an accepted function exactly when no such jump is in it and every jump is inside a loop. |
| Defers.NoCode | src/codegen.c:807-814 | On a deferred `return` behind a nested `defer` it calls itself without end. |
| Unwinding.DeferEndsNormally | src/parse.c:23-26 | A deferred statement without a `return` of its own, whose jumps stay inside its loops, ends normally; the parser lets others through (see *Findings*). |
| Unwinding.PendingAtEnd | src/codegen.c:856-869 | A block left at its end owes all its defers, one left early those it had reached, the latest first, once each. |
| Unwinding.NoStrayJump | src/codegen.c:943-952 | A statement whose jumps are inside loops ends normally or returns. |
| Statements.StmtSim | src/codegen.c:854-957 | However a run leaves a statement, its code goes to the same place with the same locals, having run exactly the defers due. |
| Statements.UnwindSim | src/codegen.c:807-814 | The code of several scopes' defers runs them in order, innermost scope first. |
| Statements.ReturnSim | src/codegen.c:893-903 | The returned value survives the defers. |
| Statements.BlockSim | src/codegen.c:856-864 | The defers emitted for a block are those its run owes. |
| Statements.LoopSim | src/codegen.c:920-942 | Any number of rounds, with `break`, `continue` and `return` out of the body. |
| Statements.JumpSim | src/codegen.c:943-952 | A jump runs the defers of the scopes inside the loop, then arrives. |
| Functions.AssignOffsets | src/parse.c:1212-1221 | Every local ends where the one before it ended plus its own words, none overlap, and the frame is the least multiple of 16 that holds them. |
| Functions.FrameSim | src/codegen.c:967-993 | The frame is set up and zero; argument registers and everything above the frame are kept. |
| Functions.ParamsSim | src/codegen.c:995-1002 | Every parameter's slot holds its argument. |
| Functions.FunctionSim | src/codegen.c:959-1009 | Whole functions: same value, same calls, same faults; RSP, RBP, RBX, R12 to R15, the return address and memory are the caller's. |
| Functions.FnSparing | src/codegen.c:959-1009 | No instruction emitted for a function writes RBX or R12 to R15. |
| Depths.ExprLevel | src/codegen.c:601-805 | The code of an expression leaves the stack as it was and never has more words on it than the expression pushes; every jump ends at the depth at which it starts. |
| Depths.StmtLevel | src/codegen.c:854-957 | The same for a statement, with one word more for a returned value during unwinding. |
| Depths.StandingStep | src/codegen.c:959-1009 | Wherever a run of a function comes to, RSP is at the depth of that place. |
| Programs.CalleeFits | src/codegen.c:741-757 | Where there is room for calls nested to a depth, the called function's frame fits and there is room for calls nested to one less. |
| Programs.Compile | src/codegen.c:1045-1141 | The generator's output is a unit that `ProgramSim` covers; of units whose deferred statements no jump leaves, it rejects exactly those with a jump outside of a loop. |
| Programs.LiftCall | src/codegen.c:741-757 | A call inside the unit: push, jump, the callee's whole run and its return leave the caller what one function's proof assumes of a call. |
| Programs.Lift | src/codegen.c:1045-1141 | Whatever one function's run does, the program does, with every call inside the unit carried out. |
| Programs.ProgramSim | src/codegen.c:1045-1141 | Whole programs, recursion included: same value, same outside calls, same faults; out of stack only where there is less room than calls nested to that depth need. |
| Checked.ExecKeeps | srcql/bounds.qela:205-234 | Code that does not write or declare a private variable cannot change it. |
| Elision.UbSound | srcql/bounds.qela:114-129 | A bounded expression has no effect, does not wrap, and lies in [0, bound]. |
| Elision.UbIff | srcql/bounds.qela:114-129 | A bound is found exactly for sums of literals and ranged variables whose largest value is a 64-bit number, and it is that value. |
| Elision.BodyIncSpec | srcql/bounds.qela:238-257 | The scan finds an increment exactly when it is the only write to the variable. |
| ElisionSound.StepSound | srcql/bounds.qela:293-300 | The step of a loop whose test has held does not wrap. |
| ElisionSound.MarkExec | srcql/bounds.qela:349-371 | Marking changes no run that starts with the variable in range. |
| ElisionSound.CountedLoop | srcql/bounds.qela:306-344 | A loop with a step: the range holds throughout the body, at any nesting. |
| ElisionSound.WhileLoop | srcql/bounds.qela:330-344 | A loop that steps in its body: the range holds up to the increment. |
| ElisionSound.ElideSound | srcql/bounds.qela:133-156 | The walk changes no run, whatever ranges are in force around it, unless it makes a difference to an early `defer`. |
| ElisionSound.ElideFunction | srcql/bounds.qela:47-56 | A function runs the same with and without the dropped checks. |
| ElisionSound.NeverWild | srcql/bounds.qela:4-29 | No access that lost its check is ever out of range. |
| ElisionSound.PlanIff | srcql/bounds.qela:268-304 | Exactly the documented loop shapes are taken. |
| ElisionMarks.WritesIff | srcql/bounds.qela:205-234 | The scan for writes finds exactly the statements in which an assignment to the variable stands at some place. |
| ElisionMarks.MarkedAt | srcql/bounds.qela:349-360 | Marking reaches every place below a node, under every kind of node. |
| ElisionMarks.ElidedAt | srcql/bounds.qela:133-371 | At every place of the result: the same node, and an access has lost its check exactly if it had before, or an enclosing loop that is taken, before its increment, has that variable and that length. |
| ElisionMarks.DroppedAll | srcql/bounds.qela:47-56 | The same for a function; with the marks taken away the result is the input. |
| ElisionSound.EarlyDeferWild | srcql/bounds.qela:373-380 | A deferred access before the increment leaves its array, for every length. |
| ElisionPass.AddrAdd | srcql/bounds.qela:60-69 | Adds a variable once; fails only when 64 others are in the table. |
| ElisionPass.AddrStmt | srcql/bounds.qela:80-101 | The table ends up with exactly the variables whose address is taken; fails exactly when there are more than 64. |
| ElisionPass.TakenIff | srcql/bounds.qela:80-101 | Those are the variables whose address is taken at some place. |
| ElisionPass.NnFind | srcql/bounds.qela:105-112 | The first range recorded for a variable, or -1. |
| ElisionPass.BodyIncrement | srcql/bounds.qela:238-257 | The scan over a body, in its own loop. |
| ElisionPass.Decide | srcql/bounds.qela:260-304 | The decision about a loop. |
| ElisionPass.ElideLoop | srcql/bounds.qela:306-344 | A new range goes behind those in force; the caller's prefix of the shared array is unchanged. |
| ElisionPass.ElideBounds | srcql/bounds.qela:47-56 | The pass on a function: exactly the accesses lose their check that the loops around them allow; gives up exactly on more than 64 address-taken variables. |
| Rounding.NearestUnique | srcql/comptime.qela:145-171 | There is one nearest-even pattern for every magnitude. |
| SoftFloat.Singles | srcql/comptime.qela:69-119 | The single format by its bits: sign, infinity, the NaN that is returned, one, and the least positive number. |
| SoftFloat.Doubles | srcql/comptime.qela:69-119 | The same for the double format. |
| SoftFloat.ShrJamValue | srcql/comptime.qela:136-143 | Jamming keeps the shifted number, with a last bit that records whether anything was lost. |
| SoftFloat.Pack | srcql/comptime.qela:145-171 | The nearest-even pattern of a guarded significand, subnormals and overflow included. |
| SoftFloat.Unpack | srcql/comptime.qela:174-186 | A normalised significand and exponent with the number's exact magnitude. |
| SoftFloat.FpCast | srcql/comptime.qela:188-203 | Either conversion rounds to nearest even and keeps sign and infinities. |
| SoftFloat.FpAdd | srcql/comptime.qela:205-234 | The rounded exact sum or difference; NaN, infinities and the sign of a zero by the signs of the operands. |
| SoftFloat.MulLimbs | srcql/comptime.qela:246-273 | The jammed product by 27-bit limbs, without overflow. |
| SoftFloat.FpMul | srcql/comptime.qela:236-274 | The rounded exact product; the special cases. |
| SoftFloat.LongDivide | srcql/comptime.qela:285-303 | The quotient's bits and a sticky bit for the remainder. |
| SoftFloat.FpDiv | srcql/comptime.qela:276-304 | The rounded exact quotient; the special cases. |
| SoftFloat.FpCmpCorrect | srcql/comptime.qela:306-317 | Agrees with the order of the reals; 2 exactly for NaN. |
| SoftFloat.F64ToF32Bits | srcql/codegen.qela:3395-3421 | The other narrowing rounds to nearest even. |
| SoftFloat.NarrowBothWays | srcql/codegen.qela:3395-3421 | The two narrowings give the same bits exactly when the argument is not a NaN with its sign bit set. |
| SoftFloat.WidenThenNarrow | srcql/comptime.qela:188-203 | Widening and narrowing back is the identity on everything but NaN. |
| Lzss.RoundTrip | srcql/absorb.qela:44-73 | Whatever valid items are chosen, the stream decodes to what they mean. |
| Lzss.PackedSize | tools/genblob.py:9-12 | At most one flag byte for eight bytes of data. |
| Lzss.CodeRoundTrip | srcql/absorb.qela:192-196 | Distance and length survive their two bytes. |
| Lzss.CopyBytes | srcql/absorb.qela:192-196 | The two bytes of a reference: sixteen times the distance less one, plus the length less three, high byte first. |
| Lzss.CopyMatch | srcql/absorb.qela:62-64 | A reference to an equal stretch reproduces the data, overlapping or not. |
| Packers.PutItem | tools/genblob.py:61-79 | Adding an item to the group being filled keeps the output the wire form of the items. |
| Packers.MatchLenIff | tools/genblob.py:45-60 | The length of a match is the largest, up to 18 and inside the data, for which the bytes agree. |
| GenBlob.AddKey | tools/genblob.py:80-83 | The index lists every earlier position of every key, in order. |
| GenBlob.WholeWindow | tools/genblob.py:45-60 | Searching the list of a key is searching the whole window. |
| GenBlob.BestIff | tools/genblob.py:45-60 | The best item is a literal exactly when no copy from the window is possible, and otherwise the longest copy, from nearest. |
| GenBlob.Compress | tools/genblob.py:34-85 | A stream for the data in which every item is a literal exactly when nothing matches three bytes, and otherwise the longest match, nearest first. |
| GenBlob.Decompress | tools/genblob.py:87-107 | On any stream: the bytes that come of it, with negative subscripts counted from the end, or a failure. |
| GenBlob.DecodersAgree | tools/genblob.py:87-107 | The checking decoder accepts exactly the streams that end here with the right number of bytes and without reaching back beyond the first byte, and both then give the same. |
| GenBlob.PackAndCheck | tools/genblob.py:121-127 | The round-trip check never fails. |
| Absorb.Chase | srcql/absorb.qela:180-193 | The longest match among the first 128 positions of the hash chain. |
| Absorb.HashIs | srcql/absorb.qela:180-181 | The hash of three bytes. |
| Absorb.ChainBestFinds | srcql/absorb.qela:180-193 | The item chosen is at least as good as every possible copy from a position with fewer than 128 others of the same hash in front of it. |
| Absorb.Compress | srcql/absorb.qela:170-214 | A stream for the data, every item the longest match its hash chain offers, the nearest if there are several. |
| Absorb.StreamUnique | srcql/absorb.qela:170-214 | Those choices leave one stream for the data. |
| Absorb.CopyBack | srcql/absorb.qela:62-64 | Copying inside the buffer, byte by byte. |
| Absorb.RequestedIff | srcql/absorb.qela:45 | The size asked for is what is needed, but for the greatest length, where the sum wraps. |
| Absorb.Decode | srcql/absorb.qela:44-73 | On any stream and length, given that a request for `total + 1` bytes is met: rejects, or decodes, without leaving either buffer; for the greatest length, rejects or writes without room. |
| Absorb.PackAndCheck | srcql/absorb.qela:285-290 | The check after packing never fails for data shorter than 2^63 - 1 bytes. |
| Blob.Bake | tools/genblob.py:110-150 | The three files; fails exactly when a number does not fit its field. |
| Blob.Fill | srcql/blob.qela:6-47 | The decoder without checks, on a good stream, in bounds. |
| Blob.Library.Off | srcql/blob.qela:55-63 | Where module i starts in the decoded text: the total length of the modules before it; -1 for any other i. |
| Blob.Library.Name | srcql/blob.qela:74-95 | The i-th name as it was written. |
| Blob.Library.Src | srcql/blob.qela:97-107 | The text of module i, exactly the bytes that were packed. |
| Words.ReadBack | srcql/absorb.qela:28-35 | Little-endian fields read back. |
| Archive.Less | srcql/absorb.qela:129-136 | The byte order of names. |
| Archive.LtIff | srcql/absorb.qela:129-136 | At the first place where two names differ the smaller byte decides; a name that ends comes first. |
| Archive.SortEntries | srcql/absorb.qela:271-280 | Insertion sort in place: in order, and the same entries. |
| Archive.SortedUnique | srcql/absorb.qela:271 | The order does not depend on the order of the input. |
| Archive.LoadImage | srcql/absorb.qela:77-113 | Loading an image gives back the length of the plain image and every file. |
| Archive.Compiler.EnsureLoaded | srcql/absorb.qela:77-113 | The loader equals its specification on any image: what it rejects, what it accepts, the footers with which it leaves the image, and those for which it has no room. |
| Archive.StrayIff | srcql/absorb.qela:90-91 | Loading leaves the image exactly when the footer passes its checks on a sum that wraps. |
| Archive.StrayFooter | srcql/absorb.qela:90-91 | A footer that does so, behind any bytes. |
| Archive.NoRoomIff | srcql/absorb.qela:90-95 | The data is written without room exactly when its length is the greatest, the footer describes its image, and the stream starts with a literal. |
| Archive.NoRoomFooter | srcql/absorb.qela:90-95 | Such an archive, behind any plain image. |
| Archive.LoadedEntries | srcql/absorb.qela:103-105 | In every archive that loads, an entry lies in the data exactly when its sum does not wrap. |
| Archive.StrayEntry | srcql/absorb.qela:103-105 | An archive behind any plain image that loads with an entry outside of its data. |
| Archive.Compiler.Find | srcql/absorb.qela:116-127 | What the image holds under the path: the bytes of the first file of that name, or the view outside of the data that its entry describes. |
| Archive.Compiler.Rewrite | srcql/absorb.qela:247-302 | The new image's files are one for each place that is kept and the added ones; loaded, it has every kept file with the bytes it had, every added one with its own, and nothing under any other name. With nothing kept or added it is the plain image; it leaves its data exactly when a kept entry lies outside of it or the new data has the greatest length. |
| Archive.StableImage | srcql/absorb.qela:270-280 | The image's bytes do not depend on the order in which the files are given. |
| Archive.ArchiveRoundTrip | srcql/absorb.qela:77-302 | After absorbing, every file is found under its name and nothing else is; dropping all restores the plain image. |
| Sort.SortI64 | std/sort.qela:4-22 | The range is sorted, a rearrangement of what it was, and nothing else changes. |
| Sort.Partition | std/sort.qela:6-19 | Everything before the second part is at most the pivot and everything behind the first at least; both parts are shorter. |
| Sort.Scan | std/sort.qela:9-11 | Neither scan leaves the range. |
| Atomics.Assembler.GenAtomicCas | srcql/codegen.qela:2762-2781 | The emitted loop. |
| Atomics.Assembler.GenAtomicAdd | srcql/codegen.qela:2783-2792 | The emitted loop. |
| Atomics.StepKeeps | srcql/codegen.qela:2762-2792 | One instruction of any thread, with or without a spurious failure, keeps the invariant. |
| Atomics.AtomicRuns | srcql/codegen.qela:2762-2792 | In every run: every add that returned stored once and returned the value it replaced; every swap says truly whether it stored, and one that did not saw another value while it ran. |
| Atomics.CounterSum | srcql/codegen.qela:2783-2792 | A cell that is only added to holds its first value plus all that was added. |
| Atomics.Progress | srcql/codegen.qela:2762-2792 | From any reachable state, a thread that runs alone returns from its operation within eleven steps and stands at the start of the next. |
| Atomics.Completion | srcql/codegen.qela:2762-2792 | And so returns from all of its operations. |
| Atomics.SwapAlone | srcql/codegen.qela:2762-2781 | A swap that runs alone from its start returns 1 exactly when the expected value was there; then it leaves the new one there, and otherwise everything as it was. |
| Atomics.AddAlone | srcql/codegen.qela:2783-2792 | An addition that runs alone from its start returns what it found and leaves that plus its operand. |
| A64.LogicalImm | srcql/arm64_emit.qela:617-635 | Succeeds exactly for rotated runs of ones, and its fields decode to the value. |
| A64.RorBack | srcql/arm64_emit.qela:612-615 | Rotating on by the rest of the word undoes a rotation. |
| A64.MovImm64 | srcql/arm64_emit.qela:190-233 | Any value, exactly, with no other register changed: in one instruction if it is a mask, and otherwise in as many as there are halfwords other than zero, or other than all ones, whatever is less. |
| A64.AluImm | srcql/arm64_emit.qela:637-699 | What is accepted computes the operation, but for the one operand that cannot be negated. |
| A64.Imm12Is | srcql/arm64_emit.qela:645-650 | The operands of an addition that are accepted: a field of twelve bits, as it is or twelve bits up. |
| Dwarf.UlebBack | srcql/dwarf.qela:14-22 | Unsigned LEB128 decodes back (section 7.6 of DWARF 4). |
| Dwarf.SlebBack | srcql/dwarf.qela:24-34 | Signed LEB128 decodes back. |
| Dwarf.Writer.LineMark | srcql/codegen.qela:2584-2605 | Addresses rise strictly; earlier code keeps its lines and later code has the new one. |
| Dwarf.Writer.PutUleb | srcql/dwarf.qela:14-22 | The loop writes the encoding. |
| Dwarf.Writer.PutSleb | srcql/dwarf.qela:24-34 | The loop writes the encoding. |
| Dwarf.Writer.PutRows | srcql/dwarf.qela:103-126 | The opcodes of all rows. |
| Dwarf.Writer.BuildLine | srcql/dwarf.qela:97-130 | The whole unit, lengths patched. |
| Dwarf.ProgramRuns | srcql/dwarf.qela:97-130 | The state machine of section 6.2 replays the recorded rows, shifted, and ends at the end of the text exactly when no row lies behind it. |
| Dwarf.UnitReads | srcql/dwarf.qela:46-78 | A reader finds the length, the version, the parameters of the program, the argument counts of the standard opcodes, no directories, the files in order and the program. |
| Folding.Node.ConstFold | src/opt.c:12-101 | Folds the tree in place, as specified, with the same rejections. |
| Folding.Node.FoldBody | src/opt.c:104-121 | Folds everything that is left below. |
| Folding.FoldAllSound | src/opt.c:104-121 | Same value, same effects in the same order, same traps, in every state, signed or unsigned, where nothing loud is dropped and no unsigned constants are misfolded. |
| Folding.TruncIs | src/opt.c:3-10 | A cast gives the one number in the type's range that differs by a multiple of the type's size. |
| Folding.NothingLeft | src/opt.c:12-121 | No operator is left with only constants, and no constant is left that decides `&&` or `\|\|`. |
| Folding.Idempotent | src/opt.c:104-121 | Folding again changes nothing. |
| Folding.DropIff | src/opt.c:88-92 | The folder drops the left side of a decided operator; for sides that are quiet or always do something that shows, this is right exactly when they are quiet. |
| Folding.DropsStore | src/opt.c:88-92 | A store that is lost. |
| Folding.UnsignedRejected | src/opt.c:66-72 | An unsigned expression with a value that is rejected. |
| Folding.UnsignedIff | src/opt.c:65-91 | For every operator and constants, when the signed result is the unsigned one. |
| Folding.AcceptedIff | src/opt.c:52-121 | An expression is accepted exactly when nothing the folder looks at divides a constant by zero or has no meaning for the host; what a deciding left side shields does not matter. |
| Folding.RejectedReason | src/opt.c:66-72 | A rejected expression holds, where the folder looks, a division that traps in every state, where no unsigned constants are misfolded. |

## Left out

- Programs.ProgramSim: covers 64-bit signed scalars, local arrays of them, and calls with up to six such arguments; casts, other widths, unsigned and pointer operands, dereferences, members, aggregates, slices, globals, strings, system calls, floats and `match` are more cases of the same argument. A `defer` must stand directly in a block; one that is the whole branch of an `if` registers in the enclosing block and is not modelled.
- Functions.FunctionSim: the same subset.
- Statements.StmtSim: the same subset.
- Simulation.ExprSim: the same subset.
- Simulation.OpSim: signed operands.
- Simulation.BinSim: no pointer arithmetic.
- Simulation.ElementSim: local arrays of 64-bit words.
- Simulation.AssignSim: scalars, not aggregates.
- Simulation.OpAssignSim: 64-bit scalars, not pointers.
- Simulation.CallSim: scalar arguments and results.
- Functions.AssignOffsets: locals are whole words of eight bytes.
- Functions.FrameSim: the exit jump of the clearing loop is taken to reach the next instruction (see *Findings*).
- Functions.ParamsSim: scalar parameters.
- Generator.Emitter.GenExpr: the same subset, as are GenPlace, GenBinop, GenArgs, GenCall, GenStmt, GenReturn and GenParams.
- Generator.Emitter.GenPlace: locals and elements of local arrays.
- Generator.Emitter.GenBinop: signed operators.
- Generator.Emitter.GenArgs: scalar arguments.
- Generator.Emitter.GenCall: scalar results.
- Generator.Emitter.GenStmt: no `match`.
- Generator.Emitter.GenReturn: scalar values.
- Generator.Emitter.GenFrame: the exit jump is counted in instructions.
- Generator.Emitter.GenParams: scalar parameters.
- Generator.GenUnit: the entry stub, the panic stub's own instructions, strings, globals and byte encodings. A call finds its function by name; where there is none, the source rejects the unit, and the model sends the call to an arbitrary outside world, which also stands for system calls.
- Programs.Compile: takes units whose deferred statements no jump leaves; for the others see *Findings*.
- Defers.DoneIff: the walk is that of the generator with its nesting of calls counted, without the code it emits.
- ElisionSound.ElideFunction: loop variables are 64-bit signed; `match` is not modelled; a pointer reaches only variables whose address is taken in the function.
- ElisionPass.ElideLoop: returns the marked tree; the pass sets a flag on shared nodes.
- Blob.Bake: the refusal of an empty list of modules and the generated accessor file.
- Archive.Compiler.EnsureLoaded: what happens once the loader reads outside of the image or writes without room.
- Absorb.Decode: a request for `total + 1` bytes that the system refuses, where `arena_alloc` returns null and the decoder writes there.
- Archive.SortEntries: the three parallel arrays of names, offsets and lengths are one array of records.
- Atomics.AtomicRuns: exclusive reservations are per address; acquire and release ordering between different addresses is not modelled.
- A64.MovImm64: instructions are kept by their fields, without their bit positions in the word.
- Folding.FoldAllSound: a folded shift count outside 0 to 63 and the quotient of the least number by -1 have no defined meaning in the host's C and end as `Undefined`.
- Folding.Node.FoldBody: expression nodes; the walk over statements and node lists only applies it.
- Folding.DropIff: left sides whose effect hangs on a value.
- Sort.SortI64: the sum of the two bounds is taken not to wrap.
- SoftFloat.FpAdd: the sign and payload of a NaN result beyond the one pattern the code returns.
- Files, processes, diagnostics and the command line; object files; x86 branch relaxation, the intermediate representation and register allocation; the compile-time statement evaluator.
