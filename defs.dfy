/** Declarations of the CPU header (nesemu/ricoh2a03.h): the status-flag bit
    layout, the addressing-mode and instruction-name enumerations, the byte
    width of the registers, their power-on defaults and the size of RAM,
    together with the outcome types every operation of the model returns. */
module Defs {

  /** Number of bytes of the `ram` array. Every modelled RAM access must use
      an index below this bound; a larger index is an error outcome. */
  const RAM_SIZE: nat := 2048

  /** An opcode byte after integral promotion: the value the dispatch
      switch of `process_next_instruction` compares with its case labels. */
  type Opcode = n: int | 0 <= n < 0x100

  /** Power-on defaults of the register struct. PC has no default. */
  const INITIAL_SP: bv8 := 0xFD
  const INITIAL_P: bv8 := 0x34
  const INITIAL_A: bv8 := 0
  const INITIAL_X: bv8 := 0
  const INITIAL_Y: bv8 := 0

  /** Named bits of the status register P, least significant first. */
  datatype Flag = Carry | Zero | Interrupt | Decimal | S1 | S2 | Overflow | Negative
  {
    /** The enumerator's underlying value: the position of the flag in P. */
    function Bit(): (b: nat)
      ensures b < 8
    {
      match this
      case Carry => 0
      case Zero => 1
      case Interrupt => 2
      case Decimal => 3
      case S1 => 4
      case S2 => 5
      case Overflow => 6
      case Negative => 7
    }

    /** `(ubyte_t)1 << flag`: exactly one bit set (at the flag's position,
        as `MaskIsBitAtPosition` states). */
    function Mask(): (m: bv8)
      ensures m != 0 && m & (m - 1) == 0
    {
      match this
      case Carry => 0x01
      case Zero => 0x02
      case Interrupt => 0x04
      case Decimal => 0x08
      case S1 => 0x10
      case S2 => 0x20
      case Overflow => 0x40
      case Negative => 0x80
    }
  }

  /** The flag that occupies bit `k` of P. */
  function FlagAt(k: nat): (f: Flag)
    requires k < 8
    ensures f.Bit() == k
  {
    [Carry, Zero, Interrupt, Decimal, S1, S2, Overflow, Negative][k]
  }

  /** Whether the bit of `f` is one in the status byte `p`. */
  predicate IsSet(p: bv8, f: Flag)
  {
    p & f.Mask() != 0
  }

  datatype AddressingMode =
    | ZeroX | ZeroY | AbsX | AbsY | IndX | IndY
    | Accumulator | Immediate | ZeroPage | Abs | Relative | Indirect
    | Implicit

  datatype InstructionName =
    | ADC | AND | ASL | BCC | BCS | BEQ | BIT | BMI | BNE | BPL | BRK | BVC | BVS | CLC
    | CLD | CLI | CLV | CMP | CPX | CPY | DEC | DEX | DEY | EOR | INC | INX | INY | JMP
    | JSR | LDA | LDX | LDY | LSR | NOP | ORA | PHA | PHP | PLA | PLP | ROL | ROR | RTI
    | RTS | SBC | SEC | SED | SEI | STA | STX | STY | TAX | TAY | TSX | TXA | TXS | TYA
    // unofficial opcodes
    | AHX | ALR | ANC | ARR | AXS | DCP | ISC | LAS | LAX | RLA | RRA | SAX | SHX | SHY
    | SLO | SRE | STP | TAS | XAA

  /** The register struct as a value: a 16-bit PC and five 8-bit registers,
      so every update of SP, P, A, X or Y wraps modulo 256. */
  datatype Registers = Registers(pc: bv16, sp: bv8, p: bv8, a: bv8, x: bv8, y: bv8)

  /** The register struct right after construction; `pc` is whatever the
      uninitialised field happens to hold. */
  function InitialRegisters(pc: bv16): (r: Registers)
    ensures r.pc == pc
    ensures IsSet(r.p, Interrupt) && IsSet(r.p, S1) && IsSet(r.p, S2)
    ensures r.sp == 0xFD && r.a == 0 && r.x == 0 && r.y == 0
  {
    Registers(pc, INITIAL_SP, INITIAL_P, INITIAL_A, INITIAL_X, INITIAL_Y)
  }

  /** Why a step cannot complete: the `throw` on an opcode without a case
      label, an access past the end of `ram`, or a dereference of the operand
      pointer that was never assigned. */
  datatype Error =
    | UnprocessedOpcode(opcode: bv8)
    | RamIndexOutOfRange(index: int)
    | OperandNotSet(opcode: bv8)

  datatype Option<+T> = None | Some(value: T)

  datatype Result<+T> = Ok(value: T) | Err(error: Error)
  {
    predicate IsFailure() { Err? }

    function PropagateFailure<U>(): Result<U>
      requires Err?
    {
      Err(error)
    }

    function Extract(): T
      requires Ok?
    {
      value
    }
  }

  /** Each bit position of P belongs to exactly one flag: `Bit` and `FlagAt`
      are inverse to each other, so the eight flags are distinct. */
  lemma {:induction false} FlagBitsAreABijection(f: Flag, k: nat)
    requires k < 8
    ensures FlagAt(f.Bit()) == f
    ensures FlagAt(k).Bit() == k
    ensures forall g: Flag :: g.Bit() == f.Bit() ==> g == f
  {
    forall g: Flag | g.Bit() == f.Bit()
      ensures g == f
    {
      match g
      case Carry =>
      case Zero =>
      case Interrupt =>
      case Decimal =>
      case S1 =>
      case S2 =>
      case Overflow =>
      case Negative =>
    }
  }

  /** The mask of a flag is one shifted left by the flag's bit position. */
  lemma MaskIsBitAtPosition(f: Flag)
    ensures f.Mask() == (1 as bv8) << f.Bit()
  {
    match f
    case Carry =>
    case Zero =>
    case Interrupt =>
    case Decimal =>
    case S1 =>
    case S2 =>
    case Overflow =>
    case Negative =>
  }

  /** Distinct flags have masks with no bit in common. */
  lemma MasksAreDisjoint(f: Flag, g: Flag)
    requires f != g
    ensures f.Mask() & g.Mask() == 0
  {
    FlagBitsAreABijection(f, 0);
    assert f.Bit() != g.Bit();
    MaskIsBitAtPosition(f);
    MaskIsBitAtPosition(g);
    DistinctShiftsAreDisjoint(f.Bit(), g.Bit());
  }

  /** Single-bit masks at distinct positions share no bit. */
  lemma DistinctShiftsAreDisjoint(i: nat, j: nat)
    requires i < 8 && j < 8 && i != j
    ensures ((1 as bv8) << i) & ((1 as bv8) << j) == 0
  {
  }

  /** The power-on status 0x34 has Interrupt, S1 and S2 set and every other
      flag clear. */
  lemma InitialStatusFlags(f: Flag)
    ensures IsSet(INITIAL_P, f) <==> f in {Interrupt, S1, S2}
  {
  }
}
