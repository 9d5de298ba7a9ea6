# Ricoh2A03 CPU core of nesemu, modelled in Dafny

This project models the `Ricoh2A03` class of nesemu (`nesemu/ricoh2a03.h`,
`nesemu/ricoh2a03.cpp`). That class is the start of the NES's 6502-derived CPU:

- a register struct (16-bit PC; 8-bit SP, P, A, X and Y);
- a 2048-byte `ram` array;
- four member functions: `get_addressing`, `process_next_instruction`,
  `set_flag` and `get_flag`.

The project has four modules:

- `Defs` (`defs.dfy`) holds what the header declares:
  - the `Flag` bit layout;
  - the `addressing_mode` and `instruction_name` enumerations;
  - the register struct and its power-on defaults;
  - the size of RAM;
  - the outcome types `Result` and `Error`.
- `Decode` (`decode.dfy`) holds the pure parts of the code:
  - `get_addressing`, which switches on `opcode % 0x20` with case
    fallthrough. A fallthrough is written out as the code of the case it
    falls into;
  - the opcode-to-mnemonic map that the case labels of the dispatch
    switch form;
  - the operand each addressing mode selects. This is a descriptor: a RAM
    index, the argument byte, or nothing. It replaces the raw `value`
    pointer;
  - an independent reference, the standard 6502 opcode matrix, which the
    decoder is checked against.
- `Semantics` (`semantics.dfy`) states every state change on values:
  - `set_flag` and `get_flag` on a status byte;
  - the eight handlers that have a body (ORA, ASL, PHP, BPL, CLC, AND,
    BIT, ROL);
  - one whole `process_next_instruction` step (`Step`), from registers
    and RAM to an outcome and the next registers and RAM.
- `Cpu` (`cpu.dfy`) is the class itself:
  - mutable fields `pc`, `sp`, `p`, `a`, `x` and `y`, and an
    `array<bv8>` of 2048 cells;
  - methods `SetFlag`, `GetFlag` and `ProcessNextInstruction`, plus one
    method per handler, that update the fields and the array in place;
  - each method is proved to do exactly what `Semantics` says. For
    example, `ProcessNextInstruction` ensures
    `StepResult(outcome, Snapshot()) == Step(old(Snapshot()))`.

`process_next_instruction` is declared `void`, yet its cases `return` an
`instruction_name`. The model makes it return `Result<InstructionName>`:

- `Ok(name)` for a case that names its instruction;
- `Err(e)` for the `throw`, or for an operation the C++ code leaves
  undefined.

Every such error leaves the state as the code left it at that point.

The handlers are modelled as the code is written. The comments and
general 6502 behaviour often say something else; in each case below the
model follows the code:

- ORA sets Carry, not Zero, when the result is zero.
- AND sets Zero when the result is non-zero.
- BIT ORs the whole operand into P, although its comment says bits 6 and 7
  only. It then sets Zero when `A & v` is non-zero.
- `get_flag` tests `P | mask`, so it answers true for every flag and every P.
  As a result the BPL body never runs. That body would move SP, not PC.
- PHP stores P at `ram[SP]` in page zero, not in the stack page 0x100.
  The unused status bit is never forced to 1.
- Every case with a body ends in `break`. The `break` leaves the switch
  and reaches the `throw` after it, so a handled opcode never returns
  normally: its outcome is `Err(UnprocessedOpcode(opcode))`, with its
  writes done.
- PC is never advanced, and only one argument byte is fetched. The absolute
  modes therefore reach at most index 0x1FE, while the indirect modes can
  point past the end of `ram`.
- ASL on 0x0A decodes as implicit, which assigns no operand. Its body would
  dereference the unassigned pointer; the model gives `OperandNotSet`.
- ROL under implicit addressing works on A, as the code redirects its
  pointer to `Register.A`.

## Model

| member | source | states |
|---|---|---|
| Defs.Flag.Bit | nesemu/ricoh2a03.h:10-19 | each flag's underlying value is a bit position below 8 |
| Defs.Flag.Mask | nesemu/ricoh2a03.cpp:288 | the mask of a flag has exactly one bit set |
| Defs.FlagAt | nesemu/ricoh2a03.h:10-19 | the flag at bit position k has `Bit() == k` |
| Defs.FlagBitsAreABijection | nesemu/ricoh2a03.h:10-19 | the eight enumerators occupy distinct bit positions 0..7, one flag per bit of P |
| Defs.MaskIsBitAtPosition | nesemu/ricoh2a03.cpp:288 | a flag's mask is `1 << flag` |
| Defs.MasksAreDisjoint | nesemu/ricoh2a03.cpp:284-288 | masks of different flags share no bit |
| Defs.InitialRegisters | nesemu/ricoh2a03.h:44-52 | power-on registers: SP=0xFD, A=X=Y=0, P has Interrupt, S1 and S2 set; PC is whatever it was given |
| Defs.InitialStatusFlags | nesemu/ricoh2a03.h:48 | P=0x34 has exactly Interrupt, S1 and S2 set (both directions) |
| Decode.DecodeAddressing | nesemu/ricoh2a03.cpp:5-56 | for any Y-group bound the `throw` is unreachable and `accumulator` is never produced |
| Decode.GetAddressing | nesemu/ricoh2a03.cpp:5-56 | `get_addressing` is total over the 256 opcodes and never returns `accumulator` |
| Decode.IntendedAddressing | nesemu/ricoh2a03.cpp:49-51 | the decoder with bound 0x7F is total and never returns `accumulator` |
| Decode.DecoderMatchesMatrix | nesemu/ricoh2a03.cpp:5-56 | on every opcode the decoder gives the opcode-matrix mode, except that accumulator is reported as implicit and 0x7E/0x7F give abs_y |
| Decode.IntendedDecoderMatchesMatrix | nesemu/ricoh2a03.cpp:5-56 | with bound 0x7F the decoder gives the opcode-matrix mode on every opcode (accumulator reported as implicit) |
| Decode.AbsYBoundDiscrepancy | nesemu/ricoh2a03.cpp:49-51 | the decoder as written and the intended one differ on exactly 0x7E and 0x7F |
| Decode.ResidueZeroGroup | nesemu/ricoh2a03.cpp:7-14 | in the `x00` group 0x20 is abs, the others below 0x80 implicit and the rest immediate |
| Decode.ResidueOCGroup | nesemu/ricoh2a03.cpp:28-32 | in the `x0C` group 0x6C is indirect and every other opcode is abs |
| Decode.ZeroYOpcodes | nesemu/ricoh2a03.cpp:40-44 | zero_y is given for exactly 0x96, 0x97, 0xB6 and 0xB7; every other `x16/x17` opcode is zero_x |
| Decode.AbsYColumnOpcodes | nesemu/ricoh2a03.cpp:49-53 | in the `x1E/x1F` groups abs_y is given for exactly 0x7E, 0x7F, 0x9E, 0x9F, 0xBE and 0xBF; the others are abs_x |
| Decode.DecoderRange | nesemu/ricoh2a03.h:32-36 | a mode is produced for some opcode if and only if it is not `accumulator` |
| Decode.Mnemonic | nesemu/ricoh2a03.cpp:100-278 | maps each opcode to the mnemonic of its case label; every opcode except 0xF8 has a label (lemma `DispatchCoverage`) and no label is SED (lemma `NoMnemonicIsSed`) |
| Decode.DispatchCoverage | nesemu/ricoh2a03.cpp:100-280 | every opcode except 0xF8 has a case label in the dispatch switch |
| Decode.NoMnemonicIsSed | nesemu/ricoh2a03.cpp:100-280 | no case label maps to SED |
| Decode.ResolveOperand | nesemu/ricoh2a03.cpp:65-98 | immediate and relative select the argument byte (and only they do); indirect, accumulator and implicit assign no operand (and only they do) |
| Decode.OperandIndexBounds | nesemu/ricoh2a03.cpp:65-98 | exactly the memory modes select a RAM index; zero-page modes stay below 0x100, absolute modes below 0x1FF, the indirect modes within a 16-bit pointer (plus Y) |
| Decode.DirectOperandBounds | nesemu/ricoh2a03.cpp:66-83 | the zero-page and absolute modes always select a RAM cell, below 0x100 and below 0x1FF respectively |
| Decode.IndexedIndirectBound | nesemu/ricoh2a03.cpp:89-91 | ind_x selects a RAM cell whose index fits in 16 bits |
| Decode.IndirectIndexedBound | nesemu/ricoh2a03.cpp:92-94 | ind_y selects a RAM cell whose index is at most 0xFFFF + 0xFF |
| Decode.PointerLow | nesemu/ricoh2a03.cpp:90-93 | the cell of the pointer's low byte lies in page zero: `(arg+X)%256` for ind_x (lemma `IndexedIndirectPointerCells`), `arg` for ind_y |
| Decode.PointerHigh | nesemu/ricoh2a03.cpp:90-93 | the cell of the pointer's high byte lies in page zero: the cell after the low one, wrapping from 0xFF to 0x00 |
| Decode.IndirectPointerIsLittleEndian | nesemu/ricoh2a03.cpp:89-94 | for every input both indirect modes select `ram[low cell] + ram[high cell] * 256`, plus Y for ind_y |
| Decode.ZeroPageOperand | nesemu/ricoh2a03.cpp:72-74 | zero-page mode selects the cell the argument byte names |
| Decode.ZeroPageIndexingWraps | nesemu/ricoh2a03.cpp:66-71 | zero_x and zero_y wrap within page zero: base 0xFF plus index 2 is cell 1 |
| Decode.IndirectModesReadOnlyPointerCells | nesemu/ricoh2a03.cpp:89-94 | the indirect modes depend on RAM only through their two zero-page pointer cells |
| Decode.IndexedIndirectPointerCells | nesemu/ricoh2a03.cpp:90 | ind_x reads its pointer from cells `(arg+X)%256` and `(arg+X+1)%256` |
| Decode.IndexedIndirectPointer | nesemu/ricoh2a03.cpp:89-91 | ind_x ignores Y, and its high pointer byte wraps from cell 0xFF to cell 0x00 |
| Decode.IndirectIndexedPointer | nesemu/ricoh2a03.cpp:92-94 | ind_y ignores X, wraps its high pointer byte within page zero, and adds Y to the 16-bit pointer with no wrap (reaching 0x100FE) |
| Semantics.WithFlag | nesemu/ricoh2a03.cpp:283-298 | `set_flag` makes the flag's bit equal the value and keeps the seven other bits |
| Semantics.WithFlagKeepsOtherFlags | nesemu/ricoh2a03.cpp:290-297 | `set_flag` of one flag leaves every other flag's state unchanged |
| Semantics.WithFlagIdempotent | nesemu/ricoh2a03.cpp:283-298 | `set_flag` is idempotent, a second call overrides the first, and setting a flag to its current state changes nothing |
| Semantics.WithFlagCommutes | nesemu/ricoh2a03.cpp:283-298 | `set_flag` of two different flags commutes |
| Semantics.ReadFlag | nesemu/ricoh2a03.cpp:300-306 | `get_flag` answers true for every P and every flag |
| Semantics.ReadFlagIgnoresStatus | nesemu/ricoh2a03.cpp:305 | `get_flag` agrees with the flag's state exactly when the flag is set; on P=0 it reports Negative set |
| Semantics.Ora | nesemu/ricoh2a03.cpp:103-107 | A becomes A \| v; Carry reports a zero result and Negative its bit 7; Zero and every other bit of P, and all other registers, keep their values |
| Semantics.And | nesemu/ricoh2a03.cpp:134-138 | A becomes A & v; Zero is set if and only if the result is non-zero; Negative is bit 7; the rest is unchanged |
| Semantics.BitTest | nesemu/ricoh2a03.cpp:141-145 | bits 6 and 7 of P come from v, the other bits of P become P \| v, and Zero is set if and only if A & v is non-zero; only P changes |
| Semantics.ShiftedLeft | nesemu/ricoh2a03.cpp:115 | the shifted byte holds bits 0..6 of v one place up, with bit 0 clear |
| Semantics.RotatedLeft | nesemu/ricoh2a03.cpp:150 | the rotated byte holds bits 0..6 of v one place up, with bit 0 the old Carry |
| Semantics.AslStatus | nesemu/ricoh2a03.cpp:113-117 | after ASL, Carry is the operand's old bit 7 and Negative its old bit 6; the other six bits of P are unchanged |
| Semantics.RolStatus | nesemu/ricoh2a03.cpp:149-151 | after ROL, Carry is the operand's old bit 7 and every other bit of P is unchanged |
| Semantics.RotationKeepsEveryBit | nesemu/ricoh2a03.cpp:149-151 | ROL loses no bit: old Carry becomes bit 0, old bit 7 becomes Carry, bits 0..6 move up |
| Semantics.Bpl | nesemu/ricoh2a03.cpp:124-128 | BPL leaves every register as it was (its body never runs) |
| Semantics.Php | nesemu/ricoh2a03.cpp:118-121 | PHP stores P at `ram[SP]`, decrements SP modulo 256, and changes no other register or cell |
| Semantics.Clc | nesemu/ricoh2a03.cpp:129-131 | CLC clears Carry and changes nothing else |
| Semantics.ReadOperand | nesemu/ricoh2a03.cpp:64-98 | dereferencing succeeds exactly for a RAM cell inside `ram` or the argument byte; the unassigned pointer is `OperandNotSet` |
| Semantics.WriteOperand | nesemu/ricoh2a03.cpp:115 | a store through the operand changes exactly the one RAM cell it names, and nothing when it names no cell inside `ram` |
| Semantics.Execute | nesemu/ricoh2a03.cpp:100-153 | a case with no body changes nothing; only the cases that dereference the operand can fail; PC is never changed |
| Semantics.Switch | nesemu/ricoh2a03.cpp:100-280 | the switch returns normally only for a case with no body, and then changes nothing |
| Semantics.CaseLabel | nesemu/ricoh2a03.cpp:100-280 | the `switch` on the promoted opcode byte finds a label for every byte except 0xF8, and never SED's |
| Semantics.AfterDecode | nesemu/ricoh2a03.cpp:63-100 | after the decode: the argument fetch at PC + 1 (an error past `ram`), the operand resolution and the switch; PC never changes, and a normal return leaves the state as it was with a mnemonic that has no body |
| Semantics.Step | nesemu/ricoh2a03.cpp:58-281 | a step never changes PC, and a normal return leaves registers and RAM unchanged |
| Semantics.StepWithBound | nesemu/ricoh2a03.cpp:58-281 | the same for the step with either Y-group bound |
| Semantics.FetchOutsideRam | nesemu/ricoh2a03.cpp:59-63 | a fetch at PC or PC+1 past the end of `ram` is an out-of-range error that changes nothing |
| Semantics.StepReturnsTheMnemonic | nesemu/ricoh2a03.cpp:100-279 | a step returns normally if and only if the opcode's case has no body, and then it returns that case's name with nothing changed |
| Semantics.UnlabelledOpcodeStep | nesemu/ricoh2a03.cpp:279-280 | 0xF8 reaches the "Unprocessed opcode" `throw` with nothing changed |
| Semantics.HandlersReachTheThrow | nesemu/ricoh2a03.cpp:100-280 | an opcode whose case has a body never returns normally: it throws "Unprocessed opcode" or fails before any write |
| Semantics.PhpStep | nesemu/ricoh2a03.cpp:118-121 | the 0x08 step is PHP followed by the `throw` |
| Semantics.BplStep | nesemu/ricoh2a03.cpp:124-128 | the 0x10 step changes nothing (SP stays) and throws |
| Semantics.ClcStep | nesemu/ricoh2a03.cpp:129-131 | the 0x18 step clears Carry and throws |
| Semantics.AslAccumulatorStep | nesemu/ricoh2a03.cpp:113-117 | 0x0A decodes as implicit, has no operand, and fails with `OperandNotSet` without changing anything |
| Semantics.RolAccumulatorStep | nesemu/ricoh2a03.cpp:146-153 | 0x2A rotates A through Carry and throws |
| Semantics.OraImmediateStep | nesemu/ricoh2a03.cpp:103-107 | 0x09 ORs the argument byte itself into A |
| Semantics.BitZeroPageStep | nesemu/ricoh2a03.cpp:141-145 | 0x24 applies BIT to the zero-page cell the argument names |
| Semantics.AndZeroPageStep | nesemu/ricoh2a03.cpp:134-138 | 0x25 applies AND to the zero-page cell the argument names |
| Semantics.AslZeroPageStep | nesemu/ricoh2a03.cpp:113-117 | 0x06 writes the shifted byte back into the cell it read, and no other cell |
| Semantics.RolZeroPageStep | nesemu/ricoh2a03.cpp:146-153 | 0x26 writes the rotated byte back into the cell it read, and no other cell |
| Semantics.IndirectOperandPastRam | nesemu/ricoh2a03.cpp:89-91 | ORA (ind,X) on a pointer past the end of `ram` fails with that index and changes nothing |
| Semantics.YGroupBoundDoesNotAffectStep | nesemu/ricoh2a03.cpp:49-51 | a whole step is identical with the bound 0x79 as written and with the intended 0x7F |
| Semantics.SwitchIgnoresOperand | nesemu/ricoh2a03.cpp:100-279 | a case with no body ignores the mode and the operand and returns its name |
| Cpu.Ricoh2A03.Valid | nesemu/ricoh2a03.h:54 | `ram` is an array of exactly 2048 cells |
| Cpu.Ricoh2A03.constructor | nesemu/ricoh2a03.h:44-54 | a new CPU has the default registers, the given PC and RAM image, and a fresh 2048-cell array |
| Cpu.Ricoh2A03.SetFlag | nesemu/ricoh2a03.cpp:283-298 | `set_flag` updates P in place to `WithFlag(old P)` and changes no other register |
| Cpu.Ricoh2A03.GetFlag | nesemu/ricoh2a03.cpp:300-306 | `get_flag` is true, and equals `ReadFlag` of P |
| Cpu.Ricoh2A03.Store | nesemu/ricoh2a03.cpp:115 | a store through the operand leaves `ram` equal to `WriteOperand` of the old contents |
| Cpu.Ricoh2A03.ProcessNextInstruction | nesemu/ricoh2a03.cpp:58-281 | the outcome and the new registers and RAM are exactly `Step` of the old registers and RAM |
| Cpu.Ricoh2A03.Dispatch | nesemu/ricoh2a03.cpp:100-280 | the switch in place: outcome and new state are exactly `Switch` on the old state |
| Cpu.Ricoh2A03.RunCase | nesemu/ricoh2a03.cpp:100-153 | running a case body gives exactly `Execute`'s new state, or its error with nothing changed |
| Cpu.Ricoh2A03.OraCase | nesemu/ricoh2a03.cpp:103-107 | the ORA body in place agrees with `Execute(ORA)`, and a failed dereference changes nothing |
| Cpu.Ricoh2A03.ApplyOra | nesemu/ricoh2a03.cpp:104-106 | the statements of ORA leave the registers equal to `Ora` of the old ones |
| Cpu.Ricoh2A03.AslCase | nesemu/ricoh2a03.cpp:113-117 | the ASL body in place agrees with `Execute(ASL)`, and a failed dereference changes nothing |
| Cpu.Ricoh2A03.ApplyAsl | nesemu/ricoh2a03.cpp:114-116 | the statements of ASL set P to `AslStatus` and store `ShiftedLeft(v)` through the operand |
| Cpu.Ricoh2A03.PhpCase | nesemu/ricoh2a03.cpp:118-121 | the PHP body in place agrees with `Execute(PHP)` |
| Cpu.Ricoh2A03.BplCase | nesemu/ricoh2a03.cpp:124-128 | the BPL body in place agrees with `Execute(BPL)` |
| Cpu.Ricoh2A03.ClcCase | nesemu/ricoh2a03.cpp:129-131 | the CLC body in place agrees with `Execute(CLC)` |
| Cpu.Ricoh2A03.AndCase | nesemu/ricoh2a03.cpp:134-138 | the AND body in place agrees with `Execute(AND)`, and a failed dereference changes nothing |
| Cpu.Ricoh2A03.ApplyAnd | nesemu/ricoh2a03.cpp:135-137 | the statements of AND leave the registers equal to `And` of the old ones |
| Cpu.Ricoh2A03.BitCase | nesemu/ricoh2a03.cpp:141-145 | the BIT body in place agrees with `Execute(BIT)`, and a failed dereference changes nothing |
| Cpu.Ricoh2A03.ApplyBit | nesemu/ricoh2a03.cpp:143-144 | the statements of BIT leave the registers equal to `BitTest` of the old ones |
| Cpu.Ricoh2A03.RolCase | nesemu/ricoh2a03.cpp:146-153 | the ROL body in place agrees with `Execute(ROL)` for A and for a memory operand |
| Cpu.Ricoh2A03.RotateAccumulator | nesemu/ricoh2a03.cpp:148-151 | ROL on A leaves A = `RotatedLeft(A, P)` and P = `RolStatus(P, A)` |
| Cpu.Ricoh2A03.ApplyRol | nesemu/ricoh2a03.cpp:149-151 | the statements of ROL on memory set P to `RolStatus` and store `RotatedLeft(v, P)` through the operand |

## Left out

- The indirect (JMP) addressing mode: its branch of the operand switch is an
  empty TODO, so the model gives it no operand. No page-wrap behaviour is
  modelled for it.
- 16-bit operands: the code fetches one argument byte, and the model does
  the same.
- Cycle counts, interrupts, RAM mirroring and bus devices do not occur in
  the class.
- Undefined behaviour becomes an error outcome:
  - a dereference of a RAM index past the end of `ram`;
  - the first fetch when PC is past the end;
  - a dereference of the unassigned `value` pointer.

  In each case the model stops the step with nothing written, which is
  where the first such access occurs in every case body.
- Forming a pointer past the end of `ram` is not modelled as an error,
  although C++ already leaves `&ram[i]` undefined there
  (nesemu/ricoh2a03.cpp:90 and :93). Only a dereference fails, so an opcode
  whose case only names its instruction returns that name: 0xA1 (LDA
  (ind,X)) with a pointer past `ram` gives `Ok(LDA)`.
- The raw pointer `value`: the model uses an operand descriptor instead.
  A store through a pointer to the local `argument` is lost when the step
  ends, so the model's store into an argument-byte operand changes
  nothing. ROL's redirection of the pointer to `Register.A` is modelled as
  a separate branch that works on A.
- The text of the `std::runtime_error` messages and `stdafx.h` are not part
  of this model. A `throw` is an `Err` outcome carrying the opcode or the
  index.
- The uninitialised PC and the uninitialised contents of `ram` are
  parameters of the constructor.
- `process_next_instruction` returns nothing in the code (it is `void`); the
  model returns the name a case returns, or the error.
- The many cases that only return an `instruction_name` are modelled by the
  opcode-to-mnemonic map and change nothing; their instructions have no
  semantics here.

## Findings

| source | as written | input that shows it | evidently intended | confidence | as-written member | corrected member |
|---|---|---|---|---|---|---|
| nesemu/ricoh2a03.cpp:50 | the `x1E/x1F` groups pick abs_y for `opcode > 0x79 && opcode < 0xC0` | 0x7E (ROR abs,X) and 0x7F (RRA abs,X) decode as abs_y | bound 0x7F, so that only 0x80..0xBF take the Y modes, as in the opcode matrix | not executed | Decode.AbsYBoundDiscrepancy | Decode.IntendedDecoderMatchesMatrix |

The same bound appears at nesemu/ricoh2a03.cpp:41 for the `x16/x17`
groups. No opcode of those groups lies between 0x7A and 0x7F, so there the
bound has no effect. `Decode.GetAddressing` is the decoder as written;
`Decode.IntendedAddressing` uses the corrected bound.
`Semantics.YGroupBoundDoesNotAffectStep` proves that a whole step is the
same under either bound, because the cases of 0x7E and 0x7F only name ROR
and RRA. The class therefore runs exactly the corrected step.
