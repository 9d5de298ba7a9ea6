/** The pure parts of nesemu/ricoh2a03.cpp: the addressing-mode decoder
    `get_addressing`, the opcode-to-mnemonic map formed by the case labels of
    the dispatch switch in `process_next_instruction`, and the computation of
    the operand each addressing mode selects. */
module Decode {
  import opened Defs

  /** The lower bound `get_addressing` uses to single out the abs_y and
      zero_y opcodes of the `x16/x17` and `x1E/x1F` groups: 0x79 as written,
      although only 0x80..0xBF hold those opcodes (0x7F is the evident intent). */
  const Y_GROUP_BOUND_AS_WRITTEN: bv8 := 0x79
  const Y_GROUP_BOUND_INTENDED: bv8 := 0x7F

  /** `get_addressing` with its Y-group bound as a parameter: a switch on
      `opcode % 0x20` whose fallthroughs are written out as the code a
      fallen-into case executes. The final `throw` is the `Err` arm; the first
      ensures proves it unreachable whatever the bound. */
  function DecodeAddressing(opcode: bv8, yGroupBound: bv8): (r: Result<AddressingMode>)
    ensures r.Ok?
    ensures r.Ok? ==> r.value != Accumulator
  {
    match opcode % 0x20
    case 0x00 =>
      if opcode == 0x20 then Ok(Abs)
      // falls through into case 0x02
      else if opcode < 0x80 then Ok(Implicit) else Ok(Immediate)
    case 0x02 =>
      if opcode < 0x80 then Ok(Implicit) else Ok(Immediate)
    case 0x01 | 0x03 => Ok(IndX)
    case 0x04 | 0x05 | 0x06 | 0x07 => Ok(ZeroPage)
    case 0x08 | 0x0A | 0x12 | 0x18 | 0x1A => Ok(Implicit)
    case 0x09 | 0x0B => Ok(Immediate)
    case 0x0C =>
      if opcode == 0x6C then Ok(Indirect)
      // falls through into cases 0x0D..0x0F
      else Ok(Abs)
    case 0x0D | 0x0E | 0x0F => Ok(Abs)
    case 0x10 => Ok(Relative)
    case 0x11 | 0x13 => Ok(IndY)
    case 0x16 | 0x17 =>
      if opcode > yGroupBound && opcode < 0xC0 then Ok(ZeroY)
      // falls through into cases 0x14, 0x15
      else Ok(ZeroX)
    case 0x14 | 0x15 => Ok(ZeroX)
    case 0x19 | 0x1B => Ok(AbsY)
    case 0x1E | 0x1F =>
      if opcode > yGroupBound && opcode < 0xC0 then Ok(AbsY)
      // falls through into cases 0x1C, 0x1D
      else Ok(AbsX)
    case 0x1C | 0x1D => Ok(AbsX)
    case _ => Err(UnprocessedOpcode(opcode))
  }

  /** `get_addressing` as written. Total: the `throw` is unreachable for all
      256 opcodes, and `accumulator` is never produced. */
  function GetAddressing(opcode: bv8): (r: Result<AddressingMode>)
    ensures r.Ok? && r.value != Accumulator
  {
    DecodeAddressing(opcode, Y_GROUP_BOUND_AS_WRITTEN)
  }

  /** `get_addressing` with the bound it evidently intends. */
  function IntendedAddressing(opcode: bv8): (r: Result<AddressingMode>)
    ensures r.Ok? && r.value != Accumulator
  {
    DecodeAddressing(opcode, Y_GROUP_BOUND_INTENDED)
  }

  /** Independent reference: the addressing mode of every opcode of the
      6502 family as the standard opcode matrix lists it, one row of sixteen
      opcodes per high nibble (the last row is 0xF0..0xFF). */
  function MatrixMode(opcode: bv8): AddressingMode
  {
    var row: seq<AddressingMode> :=
      match opcode >> 4
      case 0x0 => [Implicit, IndX, Implicit, IndX, ZeroPage, ZeroPage, ZeroPage, ZeroPage,
                    Implicit, Immediate, Accumulator, Immediate, Abs, Abs, Abs, Abs]
      case 0x1 => [Relative, IndY, Implicit, IndY, ZeroX, ZeroX, ZeroX, ZeroX,
                    Implicit, AbsY, Implicit, AbsY, AbsX, AbsX, AbsX, AbsX]
      case 0x2 => [Abs, IndX, Implicit, IndX, ZeroPage, ZeroPage, ZeroPage, ZeroPage,
                    Implicit, Immediate, Accumulator, Immediate, Abs, Abs, Abs, Abs]
      case 0x3 => [Relative, IndY, Implicit, IndY, ZeroX, ZeroX, ZeroX, ZeroX,
                    Implicit, AbsY, Implicit, AbsY, AbsX, AbsX, AbsX, AbsX]
      case 0x4 => [Implicit, IndX, Implicit, IndX, ZeroPage, ZeroPage, ZeroPage, ZeroPage,
                    Implicit, Immediate, Accumulator, Immediate, Abs, Abs, Abs, Abs]
      case 0x5 => [Relative, IndY, Implicit, IndY, ZeroX, ZeroX, ZeroX, ZeroX,
                    Implicit, AbsY, Implicit, AbsY, AbsX, AbsX, AbsX, AbsX]
      case 0x6 => [Implicit, IndX, Implicit, IndX, ZeroPage, ZeroPage, ZeroPage, ZeroPage,
                    Implicit, Immediate, Accumulator, Immediate, Indirect, Abs, Abs, Abs]
      case 0x7 => [Relative, IndY, Implicit, IndY, ZeroX, ZeroX, ZeroX, ZeroX,
                    Implicit, AbsY, Implicit, AbsY, AbsX, AbsX, AbsX, AbsX]
      case 0x8 => [Immediate, IndX, Immediate, IndX, ZeroPage, ZeroPage, ZeroPage, ZeroPage,
                    Implicit, Immediate, Implicit, Immediate, Abs, Abs, Abs, Abs]
      case 0x9 => [Relative, IndY, Implicit, IndY, ZeroX, ZeroX, ZeroY, ZeroY,
                    Implicit, AbsY, Implicit, AbsY, AbsX, AbsX, AbsY, AbsY]
      case 0xA => [Immediate, IndX, Immediate, IndX, ZeroPage, ZeroPage, ZeroPage, ZeroPage,
                    Implicit, Immediate, Implicit, Immediate, Abs, Abs, Abs, Abs]
      case 0xB => [Relative, IndY, Implicit, IndY, ZeroX, ZeroX, ZeroY, ZeroY,
                    Implicit, AbsY, Implicit, AbsY, AbsX, AbsX, AbsY, AbsY]
      case 0xC => [Immediate, IndX, Immediate, IndX, ZeroPage, ZeroPage, ZeroPage, ZeroPage,
                    Implicit, Immediate, Implicit, Immediate, Abs, Abs, Abs, Abs]
      case 0xD => [Relative, IndY, Implicit, IndY, ZeroX, ZeroX, ZeroX, ZeroX,
                    Implicit, AbsY, Implicit, AbsY, AbsX, AbsX, AbsX, AbsX]
      case 0xE => [Immediate, IndX, Immediate, IndX, ZeroPage, ZeroPage, ZeroPage, ZeroPage,
                    Implicit, Immediate, Implicit, Immediate, Abs, Abs, Abs, Abs]
      case _ =>    [Relative, IndY, Implicit, IndY, ZeroX, ZeroX, ZeroX, ZeroX,
                    Implicit, AbsY, Implicit, AbsY, AbsX, AbsX, AbsX, AbsX];
    row[Column(opcode)]
  }

  /** The low nibble of an opcode, its column in the opcode matrix. */
  function Column(opcode: bv8): (c: nat)
    ensures c < 0x10
  {
    match opcode & 0x0F
    case 0x0 => 0x0 case 0x1 => 0x1 case 0x2 => 0x2 case 0x3 => 0x3
    case 0x4 => 0x4 case 0x5 => 0x5 case 0x6 => 0x6 case 0x7 => 0x7
    case 0x8 => 0x8 case 0x9 => 0x9 case 0xA => 0xA case 0xB => 0xB
    case 0xC => 0xC case 0xD => 0xD case 0xE => 0xE case _ => 0xF
  }

  /** The addressing mode `get_addressing` reports: the matrix's, except that
      the accumulator mode is reported as implicit. */
  function Reported(m: AddressingMode): AddressingMode
  {
    if m == Accumulator then Implicit else m
  }

  /** `get_addressing` agrees with the opcode matrix on every opcode except the
      four accumulator opcodes 0x0A, 0x2A, 0x4A, 0x6A (reported implicit) and
      0x7E, 0x7F (abs,X in the matrix, abs_y as written). */
  lemma {:induction false} DecoderMatchesMatrix(opcode: bv8)
    ensures GetAddressing(opcode) ==
      Ok(if opcode == 0x7E || opcode == 0x7F then AbsY else Reported(MatrixMode(opcode)))
  {
    IntendedDecoderMatchesMatrix(opcode);
    AbsYBoundDiscrepancy(opcode);
  }

  /** With the intended bound the decoder agrees with the opcode matrix on
      every opcode, up to reporting the accumulator mode as implicit. */
  lemma {:induction false} IntendedDecoderMatchesMatrix(opcode: bv8)
    ensures IntendedAddressing(opcode) == Ok(Reported(MatrixMode(opcode)))
  {
    match opcode & 0x0C
    case 0x0 => IntendedMatchesColumns0To3(opcode);
    case 0x4 => IntendedMatchesColumns4To7(opcode);
    case 0x8 => IntendedMatchesColumns8ToB(opcode);
    case _ => IntendedMatchesColumnsCToF(opcode);
  }

  /** Columns 0x0..0x3 of the matrix, one column at a time. */
  lemma {:induction false} IntendedMatchesColumns0To3(opcode: bv8)
    requires opcode & 0x0C == 0x0
    ensures IntendedAddressing(opcode) == Ok(Reported(MatrixMode(opcode)))
  {
    match opcode & 0x0F
    case 0x0 => case 0x1 => case 0x2 =>
    case _ => // column 0x3
  }

  /** Columns 0x4..0x7 of the matrix, one column at a time. */
  lemma {:induction false} IntendedMatchesColumns4To7(opcode: bv8)
    requires opcode & 0x0C == 0x4
    ensures IntendedAddressing(opcode) == Ok(Reported(MatrixMode(opcode)))
  {
    match opcode & 0x0F
    case 0x4 => case 0x5 => case 0x6 =>
    case _ => // column 0x7
  }

  /** Columns 0x8..0xB of the matrix, one column at a time. */
  lemma {:induction false} IntendedMatchesColumns8ToB(opcode: bv8)
    requires opcode & 0x0C == 0x8
    ensures IntendedAddressing(opcode) == Ok(Reported(MatrixMode(opcode)))
  {
    match opcode & 0x0F
    case 0x8 => case 0x9 => case 0xA =>
    case _ => // column 0xB
  }

  /** Columns 0xC..0xF of the matrix, one column at a time. */
  lemma {:induction false} IntendedMatchesColumnsCToF(opcode: bv8)
    requires opcode & 0x0C == 0xC
    ensures IntendedAddressing(opcode) == Ok(Reported(MatrixMode(opcode)))
  {
    match opcode & 0x0F
    case 0xC => case 0xD => case 0xE =>
    case _ => // column 0xF
  }

  /** The as-written and the intended decoder differ on exactly 0x7E and 0x7F. */
  lemma AbsYBoundDiscrepancy(opcode: bv8)
    ensures GetAddressing(opcode) != IntendedAddressing(opcode) <==> opcode == 0x7E || opcode == 0x7F
    ensures GetAddressing(0x7E) == Ok(AbsY) && IntendedAddressing(0x7E) == Ok(AbsX)
  {
  }

  /** The `x00` column: 0x20 is absolute, the others below 0x80 implicit and
      those from 0x80 on immediate. */
  lemma ResidueZeroGroup(opcode: bv8)
    requires opcode % 0x20 == 0x00
    ensures GetAddressing(opcode) ==
      Ok(if opcode == 0x20 then Abs else if opcode < 0x80 then Implicit else Immediate)
  {
  }

  /** The `x0C` column: 0x6C is indirect, every other one absolute. */
  lemma ResidueOCGroup(opcode: bv8)
    requires opcode % 0x20 == 0x0C
    ensures GetAddressing(opcode) == Ok(if opcode == 0x6C then Indirect else Abs)
  {
  }

  /** zero_y is produced for exactly 0x96, 0x97, 0xB6 and 0xB7; every other
      `x6/x7` opcode with bit 4 set is zero_x. */
  lemma ZeroYOpcodes(opcode: bv8)
    ensures GetAddressing(opcode) == Ok(ZeroY) <==> opcode in {0x96, 0x97, 0xB6, 0xB7}
    ensures opcode % 0x20 in {0x16, 0x17} && opcode !in {0x96, 0x97, 0xB6, 0xB7} ==>
      GetAddressing(opcode) == Ok(ZeroX)
  {
  }

  /** In the `x1E/x1F` columns abs_y is produced for 0x9E, 0x9F, 0xBE, 0xBF
      and, through the 0x79 bound, also for 0x7E and 0x7F. */
  lemma AbsYColumnOpcodes(opcode: bv8)
    requires opcode % 0x20 in {0x1E, 0x1F}
    ensures GetAddressing(opcode) == Ok(AbsY) <==> opcode in {0x7E, 0x7F, 0x9E, 0x9F, 0xBE, 0xBF}
    ensures GetAddressing(opcode) != Ok(AbsY) ==> GetAddressing(opcode) == Ok(AbsX)
  {
  }

  /** The decoder's range: every addressing mode except `accumulator` is the
      mode of some opcode. */
  lemma {:induction false} DecoderRange(m: AddressingMode)
    ensures (exists opcode: bv8 :: GetAddressing(opcode) == Ok(m)) <==> m != Accumulator
  {
    var sample: bv8 :=
      match m
      case ZeroX => 0x15
      case ZeroY => 0x96
      case AbsX => 0x1D
      case AbsY => 0x19
      case IndX => 0x01
      case IndY => 0x11
      case Accumulator => 0x0A
      case Immediate => 0x09
      case ZeroPage => 0x05
      case Abs => 0x0D
      case Relative => 0x10
      case Indirect => 0x6C
      case Implicit => 0x08;
    if m != Accumulator {
      assert GetAddressing(sample) == Ok(m);
    }
  }

  /** The opcode-to-mnemonic map of the dispatch switch: one arm per group of
      case labels, in the order of the source. The mnemonic of an arm that
      executes instead of returning is the one its comment names. A label
      repeated in two arms would only draw a "redundant branch" warning from
      Dafny, and none is drawn here, so no opcode is a label of two arms; 0xF8
      is the label of none and reaches the final `throw` (lemma
      DispatchCoverage). */
  function Mnemonic(opcode: Opcode): Option<InstructionName>
  {
    match opcode
    case 0x00 => Some(BRK)
    case 0x01 | 0x05 | 0x09 | 0x0D | 0x11 | 0x15 | 0x19 | 0x1D => Some(ORA)
    case 0x02 | 0x12 | 0x22 | 0x32 | 0x42 | 0x52 | 0x62 | 0x72 | 0x92 | 0xB2 | 0xD2 | 0xF2 => Some(STP)
    case 0x03 | 0x07 | 0x0F | 0x13 | 0x17 | 0x1B | 0x1F => Some(SLO)
    case 0x06 | 0x0A | 0x0E | 0x16 | 0x1E => Some(ASL)
    case 0x08 => Some(PHP)
    case 0x0B | 0x2B => Some(ANC)
    case 0x10 => Some(BPL)
    case 0x18 => Some(CLC)
    case 0x20 => Some(JSR)
    case 0x21 | 0x25 | 0x29 | 0x2D | 0x31 | 0x35 | 0x39 | 0x3D => Some(AND)
    case 0x23 | 0x27 | 0x2F | 0x33 | 0x37 | 0x3B | 0x3F => Some(RLA)
    case 0x24 | 0x2C => Some(BIT)
    case 0x26 | 0x2A | 0x2E | 0x36 | 0x3E => Some(ROL)
    case 0x28 => Some(PLP)
    case 0x30 => Some(BMI)
    case 0x38 => Some(SEC)
    case 0x40 => Some(RTI)
    case 0x41 | 0x45 | 0x49 | 0x4D | 0x51 | 0x55 | 0x59 | 0x5D => Some(EOR)
    case 0x43 | 0x47 | 0x4F | 0x53 | 0x57 | 0x5B | 0x5F => Some(SRE)
    case 0x46 | 0x4A | 0x4E | 0x56 | 0x5E => Some(LSR)
    case 0x48 => Some(PHA)
    case 0x4B => Some(ALR)
    case 0x4C | 0x6C => Some(JMP)
    case 0x50 => Some(BVC)
    case 0x58 => Some(CLI)
    case 0x60 => Some(RTS)
    case 0x61 | 0x65 | 0x69 | 0x6D | 0x71 | 0x75 | 0x79 | 0x7D => Some(ADC)
    case 0x63 | 0x67 | 0x6F | 0x73 | 0x77 | 0x7B | 0x7F => Some(RRA)
    case 0x66 | 0x6A | 0x6E | 0x76 | 0x7E => Some(ROR)
    case 0x68 => Some(PLA)
    case 0x6B => Some(ARR)
    case 0x70 => Some(BVS)
    case 0x78 => Some(SEI)
    case 0x81 | 0x85 | 0x8D | 0x91 | 0x95 | 0x99 | 0x9D => Some(STA)
    case 0x83 | 0x87 | 0x8F | 0x97 => Some(SAX)
    case 0x84 | 0x8C | 0x94 => Some(STY)
    case 0x86 | 0x8E | 0x96 => Some(STX)
    case 0x88 => Some(DEY)
    case 0x8A => Some(TXA)
    case 0x8B => Some(XAA)
    case 0x90 => Some(BCC)
    case 0x93 | 0x9F => Some(AHX)
    case 0x98 => Some(TYA)
    case 0x9A => Some(TXS)
    case 0x9B => Some(TAS)
    case 0x9C => Some(SHY)
    case 0x9E => Some(SHX)
    case 0xA0 | 0xA4 | 0xAC | 0xB4 | 0xBC => Some(LDY)
    case 0xA1 | 0xA5 | 0xA9 | 0xAD | 0xB1 | 0xB5 | 0xB9 | 0xBD => Some(LDA)
    case 0xA2 | 0xA6 | 0xAE | 0xB6 | 0xBE => Some(LDX)
    case 0xA3 | 0xA7 | 0xAB | 0xAF | 0xB3 | 0xB7 | 0xBF => Some(LAX)
    case 0xA8 => Some(TAY)
    case 0xAA => Some(TAX)
    case 0xB0 => Some(BCS)
    case 0xB8 => Some(CLV)
    case 0xBA => Some(TSX)
    case 0xBB => Some(LAS)
    case 0xC0 | 0xC4 | 0xCC => Some(CPY)
    case 0xC1 | 0xC5 | 0xC9 | 0xCD | 0xD1 | 0xD5 | 0xD9 | 0xDD => Some(CMP)
    case 0xC3 | 0xC7 | 0xCF | 0xD3 | 0xD7 | 0xDB | 0xDF => Some(DCP)
    case 0xC6 | 0xCE | 0xD6 | 0xDE => Some(DEC)
    case 0xC8 => Some(INY)
    case 0xCA => Some(DEX)
    case 0xCB => Some(AXS)
    case 0xD0 => Some(BNE)
    case 0xD8 => Some(CLD)
    case 0xE0 | 0xE4 | 0xEC => Some(CPX)
    case 0xE1 | 0xE5 | 0xE9 | 0xED | 0xF1 | 0xF5 | 0xF9 | 0xFD => Some(SBC)
    case 0xE3 | 0xE7 | 0xEF | 0xF3 | 0xF7 | 0xFB | 0xFF => Some(ISC)
    case 0xE6 | 0xEE | 0xF6 | 0xFE => Some(INC)
    case 0xE8 => Some(INX)
    case 0xEB => Some(SBC)
    case 0xF0 => Some(BEQ)
    case 0x04 | 0x0C | 0x14 | 0x1A | 0x1C | 0x34 | 0x3A | 0x3C
       | 0x44 | 0x54 | 0x5A | 0x5C | 0x64 | 0x74 | 0x7A | 0x7C
       | 0x80 | 0x82 | 0x89 | 0xC2 | 0xD4 | 0xDA | 0xDC | 0xE2
       | 0xEA | 0xF4 | 0xFA | 0xFC => Some(NOP)
    case _ => None
  }

  /** Every opcode except 0xF8 (SED) has a case label in the dispatch switch. */
  lemma DispatchCoverage(opcode: Opcode)
    ensures Mnemonic(opcode).None? <==> opcode == 0xF8
  {
  }

  /** No case label is SED's: its opcode 0xF8 is the one without a label. */
  lemma NoMnemonicIsSed(opcode: Opcode)
    ensures Mnemonic(opcode) != Some(SED)
  {
  }

  /** What the `value` pointer of `process_next_instruction` designates: a
      cell of `ram` by index (which may lie past its end), the local copy
      `argument` of the byte after the opcode, or nothing (the pointer is
      left uninitialised). */
  datatype Operand = RamCell(index: nat) | ArgumentByte(byte: bv8) | Unset

  /** The operand each addressing mode selects, from the argument byte, X, Y
      and (for the two indirect modes) the zero-page pointer bytes. Only one
      argument byte is ever fetched, so the absolute modes stay below 0x200;
      the indirect modes build a 16-bit pointer and may reach past RAM. */
  function ResolveOperand(mode: AddressingMode, argument: bv8, x: bv8, y: bv8, ram: seq<bv8>): (o: Operand)
    requires |ram| == RAM_SIZE
    ensures mode in {Immediate, Relative} <==> o == ArgumentByte(argument)
    ensures o.Unset? <==> mode in {Indirect, Accumulator, Implicit}
  {
    var arg, xi, yi := Value(argument), Value(x), Value(y);
    match mode
    case ZeroX => RamCell((xi + arg) % 0x100)
    case ZeroY => RamCell((yi + arg) % 0x100)
    case ZeroPage => RamCell(arg % 0x100)
    case AbsX => RamCell(xi + arg)
    case AbsY => RamCell(yi + arg)
    case Abs => RamCell(arg)
    case Immediate | Relative => ArgumentByte(argument)
    case IndX => RamCell(Value(ram[(arg + xi) % 0x100]) + Value(ram[(arg + xi + 1) % 0x100]) * 0x100)
    case IndY => RamCell(Value(ram[arg]) + Value(ram[(arg + 1) % 0x100]) * 0x100 + yi)
    // the `indirect` branch of the source is an empty TODO
    case Indirect => Unset
    // `accumulator` and `implicit` have no case in the source
    case Accumulator | Implicit => Unset
  }

  /** A byte's unsigned value, as C++ promotes it to `int`. */
  function Value(b: bv8): (n: nat)
    ensures n < 0x100
  {
    b as int
  }

  /** Zero-page cell of the low byte of the pointer of an indirect mode. */
  function PointerLow(mode: AddressingMode, argument: bv8, x: bv8): (i: nat)
    requires mode in {IndX, IndY}
    ensures i < 0x100
  {
    if mode == IndX then ZeroPageWrap(Value(argument) + Value(x)) else Value(argument)
  }

  /** Zero-page cell of the high byte of the pointer of an indirect mode: the
      cell after the low one, wrapping within the zero page. */
  function PointerHigh(mode: AddressingMode, argument: bv8, x: bv8): (i: nat)
    requires mode in {IndX, IndY}
    ensures i < 0x100
  {
    ZeroPageWrap(PointerLow(mode, argument, x) + 1)
  }

  /** The zero-page cell a sum of byte values lands on once it wraps. */
  function ZeroPageWrap(n: nat): (i: nat)
    ensures i < 0x100
  {
    n % 0x100
  }

  /** Where each mode's operand lies: the zero-page modes stay in page zero,
      the absolute modes below 0x1FF (one argument byte plus at most 0xFF),
      and the indirect modes anywhere a 16-bit pointer (plus Y) can reach;
      only these modes select a RAM cell. */
  lemma OperandIndexBounds(mode: AddressingMode, argument: bv8, x: bv8, y: bv8, ram: seq<bv8>)
    requires |ram| == RAM_SIZE
    ensures var o := ResolveOperand(mode, argument, x, y, ram);
      && (o.RamCell? <==> mode in {ZeroPage, ZeroX, ZeroY, Abs, AbsX, AbsY, IndX, IndY})
      && (mode in {ZeroPage, ZeroX, ZeroY} ==> o.index < 0x100)
      && (mode in {Abs, AbsX, AbsY} ==> o.index < 0x1FF)
      && (mode == IndX ==> o.index <= 0xFFFF)
      && (mode == IndY ==> o.index <= 0xFFFF + 0xFF)
  {
    if mode in {ZeroPage, ZeroX, ZeroY, Abs, AbsX, AbsY} {
      DirectOperandBounds(mode, argument, x, y, ram);
    } else if mode == IndX {
      IndexedIndirectBound(argument, x, y, ram);
    } else if mode == IndY {
      IndirectIndexedBound(argument, x, y, ram);
    }
  }

  /** The modes that index RAM from the argument byte and X or Y alone. */
  lemma DirectOperandBounds(mode: AddressingMode, argument: bv8, x: bv8, y: bv8, ram: seq<bv8>)
    requires |ram| == RAM_SIZE
    requires mode in {ZeroPage, ZeroX, ZeroY, Abs, AbsX, AbsY}
    ensures var o := ResolveOperand(mode, argument, x, y, ram);
      && o.RamCell?
      && (mode in {ZeroPage, ZeroX, ZeroY} ==> o.index < 0x100)
      && (mode in {Abs, AbsX, AbsY} ==> o.index < 0x1FF)
  {
  }

  /** Indexed-indirect builds its index from two zero-page bytes. */
  lemma IndexedIndirectBound(argument: bv8, x: bv8, y: bv8, ram: seq<bv8>)
    requires |ram| == RAM_SIZE
    ensures var o := ResolveOperand(IndX, argument, x, y, ram);
      o.RamCell? && o.index <= 0xFFFF
  {
    var arg, xi := Value(argument), Value(x);
    PointerFitsSixteenBits(Value(ram[(arg + xi) % 0x100]), Value(ram[(arg + xi + 1) % 0x100]));
  }

  /** Indirect-indexed adds Y to a pointer built from two zero-page bytes. */
  lemma IndirectIndexedBound(argument: bv8, x: bv8, y: bv8, ram: seq<bv8>)
    requires |ram| == RAM_SIZE
    ensures var o := ResolveOperand(IndY, argument, x, y, ram);
      o.RamCell? && o.index <= 0xFFFF + 0xFF
  {
    var arg := Value(argument);
    PointerFitsSixteenBits(Value(ram[arg]), Value(ram[(arg + 1) % 0x100]));
  }

  /** A pointer built from a low and a high byte value fits in 16 bits. */
  lemma PointerFitsSixteenBits(low: nat, high: nat)
    requires low < 0x100 && high < 0x100
    ensures low + high * 0x100 <= 0xFFFF
  {
    assert high * 0x100 <= 0xFF * 0x100;
  }

  /** Zero-page addressing selects the cell the argument byte names. */
  lemma ZeroPageOperand(argument: bv8, x: bv8, y: bv8, ram: seq<bv8>)
    requires |ram| == RAM_SIZE
    ensures ResolveOperand(ZeroPage, argument, x, y, ram) == RamCell(Value(argument))
  {
  }

  /** Zero-page indexing wraps: base 0xFF plus index 0x02 is cell 0x01. */
  lemma ZeroPageIndexingWraps(ram: seq<bv8>)
    requires |ram| == RAM_SIZE
    ensures ResolveOperand(ZeroX, 0xFF, 0x02, 0x00, ram) == RamCell(0x01)
    ensures ResolveOperand(ZeroY, 0xFF, 0x00, 0x02, ram) == RamCell(0x01)
  {
  }

  /** The indirect modes read nothing of RAM but their two pointer cells:
      two RAM images that agree on those cells give the same operand. */
  lemma IndirectModesReadOnlyPointerCells(mode: AddressingMode, argument: bv8, x: bv8, y: bv8,
                                          ram1: seq<bv8>, ram2: seq<bv8>)
    requires mode in {IndX, IndY}
    requires |ram1| == RAM_SIZE && |ram2| == RAM_SIZE
    requires ram1[PointerLow(mode, argument, x)] == ram2[PointerLow(mode, argument, x)]
    requires ram1[PointerHigh(mode, argument, x)] == ram2[PointerHigh(mode, argument, x)]
    ensures ResolveOperand(mode, argument, x, y, ram1) == ResolveOperand(mode, argument, x, y, ram2)
  {
    if mode == IndX {
      IndexedIndirectPointerCells(argument, x);
    }
  }

  /** Both indirect modes read a little-endian pointer: the byte in the low
      pointer cell is the low byte, the byte in the next zero-page cell the
      high byte, and indirect-indexed then adds Y. */
  lemma IndirectPointerIsLittleEndian(mode: AddressingMode, argument: bv8, x: bv8, y: bv8, ram: seq<bv8>)
    requires mode in {IndX, IndY}
    requires |ram| == RAM_SIZE
    ensures ResolveOperand(mode, argument, x, y, ram) ==
      RamCell(Value(ram[PointerLow(mode, argument, x)])
              + Value(ram[PointerHigh(mode, argument, x)]) * 0x100
              + (if mode == IndY then Value(y) else 0))
  {
    if mode == IndX {
      IndexedIndirectPointerCells(argument, x);
    }
  }

  /** For indexed-indirect the pointer cells are the ones the source indexes:
      base plus X, and base plus X plus one, both modulo 256. */
  lemma IndexedIndirectPointerCells(argument: bv8, x: bv8)
    ensures PointerLow(IndX, argument, x) == (Value(argument) + Value(x)) % 0x100
    ensures PointerHigh(IndX, argument, x) == (Value(argument) + Value(x) + 1) % 0x100
  {
    ZeroPageSuccessor(Value(argument) + Value(x));
  }

  /** Wrapping within the zero page commutes with taking the next cell. */
  lemma ZeroPageSuccessor(s: nat)
    requires s < 0x200
    ensures ZeroPageWrap(ZeroPageWrap(s) + 1) == ZeroPageWrap(s + 1)
  {
    if s >= 0x100 {
      assert s % 0x100 == s - 0x100;
    }
  }

  /** Indexed-indirect adds X to the base before the pointer is read, and the
      pointer's high byte comes from the zero page even when the low byte sits
      in cell 0xFF; Y plays no part. */
  lemma IndexedIndirectPointer(argument: bv8, x: bv8, y1: bv8, y2: bv8, ram: seq<bv8>)
    requires |ram| == RAM_SIZE
    ensures ResolveOperand(IndX, argument, x, y1, ram) == ResolveOperand(IndX, argument, x, y2, ram)
    ensures argument as int + x as int == 0xFF ==>
      ResolveOperand(IndX, argument, x, y1, ram) == RamCell(ram[0xFF] as int + ram[0x00] as int * 0x100)
  {
  }

  /** Indirect-indexed reads the pointer from the zero page (high byte
      wrapping from 0xFF to 0x00), then adds Y to the full 16-bit pointer with
      no wrap, so the index can pass 0xFFFF; X plays no part. */
  lemma IndirectIndexedPointer(argument: bv8, x1: bv8, x2: bv8, y: bv8, ram: seq<bv8>)
    requires |ram| == RAM_SIZE
    ensures ResolveOperand(IndY, argument, x1, y, ram) == ResolveOperand(IndY, argument, x2, y, ram)
    ensures ResolveOperand(IndY, argument, x1, y, ram).index ==
      ResolveOperand(IndY, argument, x1, 0, ram).index + y as int
    ensures argument == 0xFF ==>
      ResolveOperand(IndY, argument, x1, 0, ram) == RamCell(ram[0xFF] as int + ram[0x00] as int * 0x100)
    ensures ram[argument] == 0xFF && ram[(argument as int + 1) % 0x100] == 0xFF && y == 0xFF ==>
      ResolveOperand(IndY, argument, x1, y, ram) == RamCell(0x100FE)
  {
  }
}
