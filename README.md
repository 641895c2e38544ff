# CHIP-8 CPU core, modelled and verified in Dafny

This project models the small CHIP-8 interpreter in `src/cpu.rs`. The machine has:

- sixteen 8-bit registers, where register 0xF also serves as the carry flag;
- 4096 bytes of memory;
- a program counter (`position_in_memory`);
- a sixteen-slot stack of return addresses, with its `stack_pointer`.

`run` repeats a single cycle:

1. Fetch the big-endian word at the program counter.
2. Advance the program counter by two.
3. Split the word into four nibbles and a 12-bit address.
4. Dispatch on four patterns:
   - `0x0000` halts;
   - `0x00EE` returns;
   - `0x2nnn` calls `nnn`;
   - `0x8xy4` adds register y into register x, with the carry going to register 0xF.

Every other word aborts.

The project has these files:

- `opcodes.dfy` (module `Opcodes`): the pure part of a cycle. It holds the byte join of `read_opcode`, the nibble decode, an encoder that inverts the decode, and the dispatch table.
- `semantics.dfy` (module `Semantics`): the machine as a value (`Machine`) and the effect of every operation on it, as functions:
  - `Fetch`, `CallSpec`, `RetSpec` and `AddXYSpec` for single operations;
  - `StepSpec` for one cycle;
  - `RunSpec` for a run of at most `fuel` cycles.
  
  The interpreter's panics become values: a `Result` or a `Faulted(reason)` status.
- `cpu.dfy` (module `Cpu`): the interpreter in the source's own form. `CPU` is a class whose registers, memory and stack are arrays updated in place. Each method is proved to have exactly the effect of the matching `Semantics` function on the abstract state `State()`.
- `properties.dfy` (module `Properties`): lemmas that relate several operations or cycles. They cover:
  - a call undone by a return;
  - what each fault means;
  - halting;
  - the addition examples;
  - how runs compose;
  - the sample program that calls a subroutine twice.
- `findings.dfy` (module `Findings`): the stack-overflow guard of `call`, as written and as corrected.
- `sample.dfy` (module `Sample`): a client that loads the sample program into a `CPU` object and runs it.
- `wrappers.dfy`: `Option` and `Result`.

A run ends in one of three statuses: `Halted`, `Faulted(reason)`, or `Running`. The last means the fuel ran out first. A fault reason is one of:

- `OutOfBoundsFetch`: the second byte of the word lies outside memory;
- `StackOverflow`;
- `StackUnderflow`;
- `UnimplementedOpcode(word)`.

In one place the model departs from the code. `call` carries the panic message "Stack overflow" (src/cpu.rs:57), so it is meant to refuse a call on a full stack. Its guard, however, is `sp > stack.len()` (src/cpu.rs:56), which no reachable stack pointer satisfies. A full-stack call is therefore stopped by the index panic of `stack[sp]` at src/cpu.rs:60 instead (see Findings). The model uses the corrected guard `sp >= stack.len()` and reports that case as `StackOverflow`. `Findings` models the guard as written.

## Model

| member | source | states |
|---|---|---|
| `Opcodes.Join` | src/cpu.rs:44-50 | the fetched word's numeric value is `first byte * 256 + second byte` |
| `Opcodes.JoinBytes` | src/cpu.rs:46-49 | the first byte is the high-order byte of the word and the second the low-order byte; nothing is lost |
| `Opcodes.Decode` | src/cpu.rs:27-32 | decoding is total; every nibble is below 16; `nnn` is below 0x1000 and is made of the three low nibbles |
| `Opcodes.DecodeValue` | src/cpu.rs:27-32 | `c*4096 + x*256 + y*16 + d` equals the word |
| `Opcodes.EncodeDecode` | src/cpu.rs:27-32 | re-assembling the decoded nibbles gives back the word |
| `Opcodes.DecodeEncode` | src/cpu.rs:27-32 | decoding an assembled word gives back its fields |
| `Opcodes.DispatchOperands` | src/cpu.rs:34-39 | the dispatch `match` on decoded fields: CALL carries the decoded 12-bit address, below 0x1000, and ADD carries the decoded register numbers x and y, each below 16 |
| `Opcodes.DispatchWord` | src/cpu.rs:34-40 | the match selects HALT exactly for `0x0000`, RET exactly for `0x00EE`, CALL `nnn` exactly for `0x2nnn`, ADD exactly for `0x8xy4` with x and y taken from the word, and nothing for every other word |
| `Semantics.Initial` | src/cpu.rs:12-20 | the new machine has all registers, memory and stack slots zero, program counter 0 and an empty stack |
| `Semantics.Fetch` | src/cpu.rs:44-50 | a fetch succeeds exactly when `pc + 1 < 4096`, and its word is `memory[pc] * 256 + memory[pc+1]` |
| `Semantics.ToU16` | src/cpu.rs:60 | `as u16` keeps an address below 0x10000 unchanged, and it otherwise differs from the address by a multiple of 0x10000 |
| `Semantics.ToUsize` | src/cpu.rs:62 | `as usize` widens a 16-bit value to an address below 0x10000 without loss: narrowing it back gives the same value |
| `Semantics.CallSpec` | src/cpu.rs:52-63 | a call fails exactly when all 16 slots are in use, and it fails with StackOverflow; a successful call keeps the stack pointer within 0..16 |
| `Semantics.CallPushes` | src/cpu.rs:60-62 | a successful call writes the program counter, truncated to 16 bits, into the slot at the stack pointer, so it is appended to the live return addresses, and increments the stack pointer; it jumps to `nnn` and leaves registers and memory unchanged |
| `Semantics.RetSpec` | src/cpu.rs:65-73 | a return fails exactly when the stack is empty, and it fails with StackUnderflow |
| `Semantics.RetPops` | src/cpu.rs:70-72 | a successful return removes the newest live return address and jumps to it; registers, memory and stack slots are unchanged |
| `Semantics.OverflowingAdd` | src/cpu.rs:79 | `overflowing_add` gives the sum modulo 256 and reports overflow exactly when the true sum exceeds 255 |
| `Semantics.AddXYSpec` | src/cpu.rs:75-88 | register x receives `(Vx + Vy) mod 256`, then register 0xF becomes 1 if the true sum exceeds 255 and 0 otherwise (when x is 0xF the flag overwrites the sum); every other register, the memory, the program counter and the stack are unchanged |
| `Semantics.StepSpec` | src/cpu.rs:23-40 | a cycle keeps the machine well-formed (stack pointer within 0..16) and never changes memory |
| `Semantics.RunSpec` | src/cpu.rs:22-42 | a run keeps the machine well-formed and never changes memory |
| `Cpu.CPU.constructor` | src/cpu.rs:12-20 | `new()` yields the all-zero machine, with fresh arrays |
| `Cpu.CPU.ReadOpcode` | src/cpu.rs:44-50 | reads the word at the program counter without changing any state |
| `Cpu.CPU.Call` | src/cpu.rs:52-63 | writes the stack slot, stack pointer and program counter exactly as `CallSpec` says; on a full stack it reports StackOverflow and changes nothing |
| `Cpu.CPU.Ret` | src/cpu.rs:65-73 | updates the stack pointer and program counter exactly as `RetSpec` says; on an empty stack it reports StackUnderflow and changes nothing |
| `Cpu.CPU.AddXY` | src/cpu.rs:75-88 | updates registers x and 0xF in place exactly as `AddXYSpec` says |
| `Cpu.CPU.Step` | src/cpu.rs:23-40 | one loop iteration: fetch, advance the program counter by 2, decode, dispatch, with status and new state as `StepSpec` says |
| `Cpu.CPU.Run` | src/cpu.rs:22-42 | the loop, with status and final state as `RunSpec` says for the given fuel |
| `Properties.CallThenRet` | src/cpu.rs:52-73 | a call followed by a return restores the program counter, the stack pointer and the live return addresses |
| `Properties.StepCall` | src/cpu.rs:24-37 | a `0x2nnn` cycle on a stack that is not full pushes the advanced program counter and jumps to `nnn` |
| `Properties.StepRet` | src/cpu.rs:24-36 | a `0x00EE` cycle on a non-empty stack pops into the program counter |
| `Properties.StepCallThenRet` | src/cpu.rs:25-37 | executing a CALL whose target holds a RET returns control to `old pc + 2`, with the stack pointer, live return addresses and registers as before |
| `Properties.StepHalt` | src/cpu.rs:35 | the word `0x0000` halts; it changes only the program counter, which has already been advanced |
| `Properties.StepOutOfBounds` | src/cpu.rs:44-47 | a cycle faults with OutOfBoundsFetch exactly when `pc + 1 >= 4096`, and then the machine is unchanged |
| `Properties.StepUnderflow` | src/cpu.rs:66-68 | RET on an empty stack ends the run with StackUnderflow; only the program counter has moved, past the RET |
| `Properties.StepOverflow` | src/cpu.rs:56-60 | CALL with 16 entries on the stack ends the run with StackOverflow; only the program counter has moved, past the CALL |
| `Properties.StepUnimplemented` | src/cpu.rs:39 | any word outside the four patterns ends the run with UnimplementedOpcode for that word, after the program counter has advanced |
| `Properties.StepAdd` | src/cpu.rs:24-38 | a `0x8xy4` cycle performs the register addition with the decoded x and y after advancing the program counter |
| `Properties.AddExamples` | src/cpu.rs:75-88 | 200 + 200 gives 144 with flag 1, and 5 + 10 gives 15 with flag 0 |
| `Properties.AddCommutes` | src/cpu.rs:75-88 | for x and y other than 0xF, adding y into x leaves the same sum as adding x into y |
| `Properties.AddCarryCommutes` | src/cpu.rs:79-87 | for any two registers, adding y into x sets the same carry flag as adding x into y |
| `Properties.RunSplit` | src/cpu.rs:22-42 | running for a + b cycles equals running for a cycles, then (if still running) for b more |
| `Properties.RunStopsAtFirstStop` | src/cpu.rs:22-42 | a run that halted or faulted did so in the cycle after some number of cycles that all kept running, and that cycle's outcome is the run's outcome |
| `Properties.RunFuelMonotone` | src/cpu.rs:22-42 | once a run has halted or faulted, more fuel changes neither its status nor its final state |
| `Properties.AddV1IntoV0` | src/cpu.rs:75-88 | the word `0x8014` without a carry makes V0 the sum of V0 and V1, keeps V1, the stack and memory, and advances the program counter by 2 |
| `Properties.SubroutinePass` | src/cpu.rs:22-88 | three cycles starting at the sample subroutine add 20 to V0 and return to the saved address with an empty stack |
| `Properties.SampleProgramHalts` | src/cpu.rs:22-88 | `CALL 0x100; CALL 0x100; HALT`, with `ADD V0,V1; ADD V0,V1; RET` at 0x100 and V0 = 5, V1 = 10, halts within nine cycles with V0 = 45 |
| `Sample.RunSampleProgram` | src/cpu.rs:12-42 | the same program run on a freshly created `CPU` object halts with V0 = 45 |
| `Findings.CallStopAsWritten` | src/cpu.rs:56-60 | with the guard as written, a call proceeds exactly when fewer than 16 slots are in use |
| `Findings.FullStackMissesGuard` | src/cpu.rs:56-60 | at `sp == 16` the overflow guard does not fire, and the stack write's bounds check stops the call |
| `Findings.GuardNeverFires` | src/cpu.rs:56 | no stack pointer a machine can hold trips the guard `sp > stack.len()` |
| `Findings.CorrectedGuardReportsOverflow` | src/cpu.rs:56-62 | with the corrected guard, a call reports StackOverflow exactly on a full stack, and it proceeds exactly when the as-written checks let it |

## Left out

- The unbounded `loop` of `run`: `Run` and `RunSpec` take a fuel bound and report `Running` when it is exhausted. A run that never halts is not modelled beyond any finite prefix.
- Panics are not modelled as unwinding. A panic becomes a `Faulted(reason)` status, and the machine is left as it was at the panic point. Panic messages and console output are not modelled.
- `Semantics.CallSpec` and `Cpu.CPU.Call` use the corrected guard `sp >= stack.len()`. The source stops a call on a full stack with the index panic of `stack[16]` (src/cpu.rs:60), not with its "Stack overflow" panic; the model labels that case `StackOverflow`. `Findings.CallStopAsWritten` keeps the as-written distinction.
- `Cpu.CPU.ReadOpcode` requires `pc + 1 < 4096` instead of panicking. Its only caller, `Step`, checks that bound first and reports `OutOfBoundsFetch`.
- Loading a program: the source has no loader, and callers write the public `registers` and `memory` fields directly, as `Sample.RunSampleProgram` does.
- `position_in_memory` is a `usize`; the model uses an unbounded `nat`. Overflow of `+= 2` cannot occur, because a successful fetch needs `pc + 1 < 4096`.
- src/bits.rs, src/main.rs and src/memory.rs are not part of this model. They are printing demonstrations of bit patterns, floating point, integer overflow and pointer addresses, with no interface or state to verify.
- The CHIP-8 opcodes the source does not implement are not modelled, beyond the `UnimplementedOpcode` fault for their words.

## Findings

| source | as written | input that shows it | evidently intended | confidence | as-written member | corrected member |
|---|---|---|---|---|---|---|
| src/cpu.rs:56 | the overflow guard is `sp > stack.len()`, which is false for every reachable stack pointer (0..16) | a CALL with `stack_pointer == 16`: the guard passes, and `stack[16]` at line 60 panics with an index error instead of "Stack overflow" | `sp >= stack.len()`, which reports the overflow itself | high (not executed) | `Findings.FullStackMissesGuard` | `Semantics.CallSpec` |
