/** The `Ricoh2A03` class of nesemu/ricoh2a03.h: the register struct as six
    mutable fields, the 2 KiB `ram` array, and the member functions that update
    them in place, each proved to do what module Semantics says. */
module Cpu {
  import opened Defs
  import opened Decode
  import opened Semantics

  class Ricoh2A03 {
    var pc: bv16
    var sp: bv8
    var p: bv8
    var a: bv8
    var x: bv8
    var y: bv8
    const ram: array<bv8>

    /** `ram` is the 2048-byte array of the header. */
    ghost predicate Valid()
    {
      ram.Length == RAM_SIZE
    }

    /** The register struct as a value. */
    function Regs(): Registers
      reads this
    {
      Registers(pc, sp, p, a, x, y)
    }

    /** Registers and RAM as a value. */
    function Snapshot(): State
      reads this, ram
    {
      State(Regs(), ram[..])
    }

    /** A freshly constructed CPU: the registers take their default member
        initialisers and PC, which has none, is the parameter `pc0`; the
        contents of `ram`, which the class never initialises, are `image`. */
    constructor (pc0: bv16, image: seq<bv8>)
      requires |image| == RAM_SIZE
      ensures Valid() && fresh(ram)
      ensures Regs() == InitialRegisters(pc0)
      ensures ram[..] == image
    {
      pc, sp, p, a, x, y := pc0, INITIAL_SP, INITIAL_P, INITIAL_A, INITIAL_X, INITIAL_Y;
      ram := new bv8[RAM_SIZE](i requires 0 <= i < RAM_SIZE => image[i]);
    }

    /** `set_flag`: take the flag's mask (one shifted left by its bit
        position), then OR it into P or AND its complement into P. Only P
        changes. */
    method SetFlag(flag: Flag, value: bool)
      modifies this
      ensures p == WithFlag(old(p), flag, value)
      ensures pc == old(pc) && sp == old(sp) && a == old(a) && x == old(x) && y == old(y)
    {
      var mask := flag.Mask();
      if value {
        p := p | mask;
      } else {
        p := p & !mask;
      }
    }

    /** `get_flag` as written: it tests `P | mask`, which is never zero, so
        it answers true whatever P holds. */
    function GetFlag(flag: Flag): (r: bool)
      reads this
      ensures r
      ensures r == ReadFlag(p, flag)
    {
      p | flag.Mask() != 0
    }

    /** Store through the operand pointer: only a RAM cell inside `ram`
        receives the byte. */
    method Store(operand: Operand, v: bv8)
      requires Valid()
      modifies ram
      ensures ram[..] == WriteOperand(operand, v, old(ram[..]))
    {
      if operand.RamCell? && operand.index < ram.Length {
        ram[operand.index] := v;
      }
    }

    /** `process_next_instruction`: fetch the opcode at PC, decode its
        addressing mode, fetch the argument byte at PC + 1, resolve the
        operand, and run the case of the opcode's label. The outcome and
        the new registers and RAM are exactly one `Step` of the old ones. */
    method ProcessNextInstruction() returns (outcome: Result<InstructionName>)
      requires Valid()
      modifies this, ram
      ensures Valid()
      ensures StepResult(outcome, Snapshot()) == Step(old(Snapshot()))
    {
      ghost var s := Snapshot();
      assert s.ram == ram[..] && s.regs == Regs();
      var index := pc as int;
      if index >= RAM_SIZE {
        assert Snapshot() == s;
        return Err(RamIndexOutOfRange(index));
      }
      var opcode := ram[index];
      var addressing := GetAddressing(opcode).value;
      if index + 1 >= RAM_SIZE {
        FetchThenDecode(Y_GROUP_BOUND_AS_WRITTEN, s);
        assert Snapshot() == s;
        return Err(RamIndexOutOfRange(index + 1));
      }
      var argument := ram[index + 1];
      var operand := ResolveOperand(addressing, argument, x, y, ram[..]);
      StepOnCaseOf(s, opcode, addressing, argument, operand);
      assert Snapshot() == s;
      outcome := Dispatch(opcode, addressing, operand, argument);
    }

    /** The dispatch switch of `process_next_instruction` on the fetched
        opcode. A case that only names its instruction returns that name;
        a case with a body runs it and, its `break` leaving the switch,
        reaches the `throw` after it, as does an opcode with no label. */
    method Dispatch(opcode: bv8, addressing: AddressingMode, operand: Operand, argument: bv8)
      returns (outcome: Result<InstructionName>)
      requires Valid()
      modifies this, ram
      ensures StepResult(outcome, Snapshot()) ==
        Switch(opcode, CaseLabel(opcode), addressing, operand, argument, old(Snapshot()))
    {
      ghost var s := Snapshot();
      var caseLabel := CaseLabel(opcode);
      if caseLabel.None? {
        return Err(UnprocessedOpcode(opcode));
      }
      var name := caseLabel.value;
      if name !in HANDLED {
        SwitchIgnoresOperand(opcode, name, addressing, addressing, operand, operand, argument, s);
        return Ok(name);
      }
      var fault := RunCase(name, opcode, addressing, operand, argument);
      SwitchOnHandledCase(opcode, name, addressing, operand, argument, s, fault, Snapshot());
      if fault.Some? {
        return Err(fault.value);
      }
      return Err(UnprocessedOpcode(opcode));
    }

    /** The body of the case labelled `name`. Every case body is given the
        fetched opcode, its addressing mode, the operand and the argument
        byte: the locals of `process_next_instruction` it has in scope. */
    method RunCase(name: InstructionName, opcode: bv8, addressing: AddressingMode, operand: Operand, argument: bv8)
      returns (fault: Option<Error>)
      requires Valid() && name in HANDLED
      modifies this, ram
      ensures Execute(name, opcode, addressing, operand, argument, old(Snapshot())) == (if fault.Some? then Err(fault.value) else Ok(Snapshot()))
      ensures fault.Some? ==> Snapshot() == old(Snapshot())
    {
      match name {
        case ORA => fault := OraCase(opcode, addressing, operand, argument);
        case ASL => fault := AslCase(opcode, addressing, operand, argument);
        case PHP => fault := PhpCase(opcode, addressing, operand, argument);
        case BPL => fault := BplCase(opcode, addressing, operand, argument);
        case CLC => fault := ClcCase(opcode, addressing, operand, argument);
        case AND => fault := AndCase(opcode, addressing, operand, argument);
        case BIT => fault := BitCase(opcode, addressing, operand, argument);
        case ROL => fault := RolCase(opcode, addressing, operand, argument);
        case _ => assert false;
      }
    }

    /** The ORA case: dereference the operand, then update A and P. */
    method OraCase(opcode: bv8, addressing: AddressingMode, operand: Operand, argument: bv8) returns (fault: Option<Error>)
      requires Valid()
      modifies this
      ensures Execute(ORA, opcode, addressing, operand, argument, old(Snapshot())) == (if fault.Some? then Err(fault.value) else Ok(Snapshot()))
      ensures fault.Some? ==> Snapshot() == old(Snapshot())
    {
      ghost var s := Snapshot();
      var read := ReadOperand(operand, ram[..], opcode);
      if read.Err? {
        ReadingCaseFails(ORA, opcode, addressing, operand, argument, s);
        return Some(read.error);
      }
      ApplyOra(read.value);
      ReadingCaseRuns(ORA, opcode, addressing, operand, argument, s, read.value);
      return None;
    }

    /** The ORA case once the operand reads `v`: A |= v, then Carry and
        Negative from the new A. */
    method ApplyOra(v: bv8)
      modifies this
      ensures Regs() == Ora(old(Regs()), v)
    {
      var result := a | v;
      a := result;
      SetFlag(Carry, result == 0);
      SetFlag(Negative, result > 127);
    }

    /** The ASL case: dereference the operand, then shift it in place. */
    method AslCase(opcode: bv8, addressing: AddressingMode, operand: Operand, argument: bv8) returns (fault: Option<Error>)
      requires Valid()
      modifies this, ram
      ensures Execute(ASL, opcode, addressing, operand, argument, old(Snapshot())) == (if fault.Some? then Err(fault.value) else Ok(Snapshot()))
      ensures fault.Some? ==> Snapshot() == old(Snapshot())
    {
      ghost var s := Snapshot();
      var read := ReadOperand(operand, ram[..], opcode);
      if read.Err? {
        ReadingCaseFails(ASL, opcode, addressing, operand, argument, s);
        return Some(read.error);
      }
      ApplyAsl(operand, read.value);
      ReadingCaseRuns(ASL, opcode, addressing, operand, argument, s, read.value);
      return None;
    }

    /** The ASL case once the operand reads `v`: Carry from bit 7 of `v`,
        the shifted byte stored through the operand, then Negative from the
        shifted byte. */
    method ApplyAsl(operand: Operand, v: bv8)
      requires Valid()
      modifies this, ram
      ensures Regs() == old(Regs()).(p := AslStatus(old(p), v))
      ensures ram[..] == WriteOperand(operand, ShiftedLeft(v), old(ram[..]))
    {
      SetFlag(Carry, v > 127);
      var shifted := v << 1;
      Store(operand, shifted);
      SetFlag(Negative, shifted > 127);
    }

    /** The PHP case: `ram[SP] = P`, then SP is decremented. */
    method PhpCase(opcode: bv8, addressing: AddressingMode, operand: Operand, argument: bv8) returns (fault: Option<Error>)
      requires Valid()
      modifies this, ram
      ensures Execute(PHP, opcode, addressing, operand, argument, old(Snapshot())) == (if fault.Some? then Err(fault.value) else Ok(Snapshot()))
      ensures fault.Some? ==> Snapshot() == old(Snapshot())
    {
      ram[sp as int] := p;
      sp := sp - 1;
      return None;
    }

    /** The BPL case: SP moves by the signed argument unless `get_flag`
        reports Negative, which it always does. */
    method BplCase(opcode: bv8, addressing: AddressingMode, operand: Operand, argument: bv8) returns (fault: Option<Error>)
      requires Valid()
      modifies this
      ensures Execute(BPL, opcode, addressing, operand, argument, old(Snapshot())) == (if fault.Some? then Err(fault.value) else Ok(Snapshot()))
      ensures fault.Some? ==> Snapshot() == old(Snapshot())
    {
      sp := if !GetFlag(Negative) then sp + argument else sp;
      return None;
    }

    /** The CLC case. */
    method ClcCase(opcode: bv8, addressing: AddressingMode, operand: Operand, argument: bv8) returns (fault: Option<Error>)
      requires Valid()
      modifies this
      ensures Execute(CLC, opcode, addressing, operand, argument, old(Snapshot())) == (if fault.Some? then Err(fault.value) else Ok(Snapshot()))
      ensures fault.Some? ==> Snapshot() == old(Snapshot())
    {
      SetFlag(Carry, false);
      return None;
    }

    /** The AND case: dereference the operand, then update A and P. */
    method AndCase(opcode: bv8, addressing: AddressingMode, operand: Operand, argument: bv8) returns (fault: Option<Error>)
      requires Valid()
      modifies this
      ensures Execute(AND, opcode, addressing, operand, argument, old(Snapshot())) == (if fault.Some? then Err(fault.value) else Ok(Snapshot()))
      ensures fault.Some? ==> Snapshot() == old(Snapshot())
    {
      ghost var s := Snapshot();
      var read := ReadOperand(operand, ram[..], opcode);
      if read.Err? {
        ReadingCaseFails(AND, opcode, addressing, operand, argument, s);
        return Some(read.error);
      }
      ApplyAnd(read.value);
      ReadingCaseRuns(AND, opcode, addressing, operand, argument, s, read.value);
      return None;
    }

    /** The AND case once the operand reads `v`: A &= v, then Zero and
        Negative from the new A. */
    method ApplyAnd(v: bv8)
      modifies this
      ensures Regs() == And(old(Regs()), v)
    {
      var result := a & v;
      a := result;
      SetFlag(Zero, result != 0);
      SetFlag(Negative, result > 127);
    }

    /** The BIT case: dereference the operand, then update P. */
    method BitCase(opcode: bv8, addressing: AddressingMode, operand: Operand, argument: bv8) returns (fault: Option<Error>)
      requires Valid()
      modifies this
      ensures Execute(BIT, opcode, addressing, operand, argument, old(Snapshot())) == (if fault.Some? then Err(fault.value) else Ok(Snapshot()))
      ensures fault.Some? ==> Snapshot() == old(Snapshot())
    {
      ghost var s := Snapshot();
      var read := ReadOperand(operand, ram[..], opcode);
      if read.Err? {
        ReadingCaseFails(BIT, opcode, addressing, operand, argument, s);
        return Some(read.error);
      }
      ApplyBit(read.value);
      ReadingCaseRuns(BIT, opcode, addressing, operand, argument, s, read.value);
      return None;
    }

    /** The BIT case once the operand reads `v`: P keeps its low six bits
        and takes `v` ORed in, then Zero from A & v. */
    method ApplyBit(v: bv8)
      modifies this
      ensures Regs() == BitTest(old(Regs()), v)
    {
      p := (p & 0x3F) | v;
      SetFlag(Zero, a & v != 0);
    }

    /** The ROL case: under implicit addressing the operand is A; otherwise
        dereference the operand and rotate it in place. */
    method RolCase(opcode: bv8, addressing: AddressingMode, operand: Operand, argument: bv8) returns (fault: Option<Error>)
      requires Valid()
      modifies this, ram
      ensures Execute(ROL, opcode, addressing, operand, argument, old(Snapshot())) == (if fault.Some? then Err(fault.value) else Ok(Snapshot()))
      ensures fault.Some? ==> Snapshot() == old(Snapshot())
    {
      if addressing == Implicit {
        RotateAccumulator();
        return None;
      }
      ghost var s := Snapshot();
      var read := ReadOperand(operand, ram[..], opcode);
      if read.Err? {
        ReadingCaseFails(ROL, opcode, addressing, operand, argument, s);
        return Some(read.error);
      }
      ApplyRol(operand, read.value);
      ReadingCaseRuns(ROL, opcode, addressing, operand, argument, s, read.value);
      return None;
    }

    /** ROL on A: the old Carry shifted into bit 0, then Carry from the old
        bit 7. */
    method RotateAccumulator()
      modifies this
      ensures Regs() == old(Regs()).(a := RotatedLeft(old(a), old(p)), p := RolStatus(old(p), old(a)))
    {
      var carry := a > 127;
      a := (a << 1) | (p & 1);
      SetFlag(Carry, carry);
    }

    /** ROL once the memory operand reads `v`: the rotated byte stored
        through the operand, then Carry from bit 7 of `v`. */
    method ApplyRol(operand: Operand, v: bv8)
      requires Valid()
      modifies this, ram
      ensures Regs() == old(Regs()).(p := RolStatus(old(p), v))
      ensures ram[..] == WriteOperand(operand, RotatedLeft(v, old(p)), old(ram[..]))
    {
      var rotated := (v << 1) | (p & 1);
      Store(operand, rotated);
      SetFlag(Carry, v > 127);
    }
  }

  /** A case that reads its operand stops, with the read's error, when the
      read fails. */
  lemma ReadingCaseFails(name: InstructionName, opcode: bv8, mode: AddressingMode, operand: Operand,
                         argument: bv8, s: State)
    requires |s.ram| == RAM_SIZE
    requires name in {ORA, AND, BIT, ASL} || (name == ROL && mode != Implicit)
    requires ReadOperand(operand, s.ram, opcode).Err?
    ensures Execute(name, opcode, mode, operand, argument, s) == Err(ReadOperand(operand, s.ram, opcode).error)
  {
  }

  /** A case that reads its operand, once the read gives `v`. */
  lemma ReadingCaseRuns(name: InstructionName, opcode: bv8, mode: AddressingMode, operand: Operand,
                        argument: bv8, s: State, v: bv8)
    requires |s.ram| == RAM_SIZE && ReadOperand(operand, s.ram, opcode) == Ok(v)
    requires name in {ORA, AND, BIT, ASL} || (name == ROL && mode != Implicit)
    ensures Execute(name, opcode, mode, operand, argument, s) == Ok(
      match name
      case ORA => s.(regs := Ora(s.regs, v))
      case AND => s.(regs := And(s.regs, v))
      case BIT => s.(regs := BitTest(s.regs, v))
      case ASL => State(s.regs.(p := AslStatus(s.regs.p, v)), WriteOperand(operand, ShiftedLeft(v), s.ram))
      case _ => State(s.regs.(p := RolStatus(s.regs.p, v)), WriteOperand(operand, RotatedLeft(v, s.regs.p), s.ram)))
  {
  }

  /** The switch on a case with a body: the `throw` after it once the body
      has run to its end, or the body's own error with nothing changed. */
  lemma SwitchOnHandledCase(opcode: bv8, name: InstructionName, mode: AddressingMode, operand: Operand,
                            argument: bv8, s: State, fault: Option<Error>, after: State)
    requires |s.ram| == RAM_SIZE && name in HANDLED
    requires Execute(name, opcode, mode, operand, argument, s) == (if fault.Some? then Err(fault.value) else Ok(after))
    requires fault.Some? ==> after == s
    ensures Switch(opcode, Some(name), mode, operand, argument, s) ==
      StepResult(Err(if fault.Some? then fault.value else UnprocessedOpcode(opcode)), after)
  {
  }

  /** A step whose two fetches succeed is the dispatch on the fetched opcode
      with the operand its mode selects. */
  lemma StepOnCaseOf(s: State, opcode: bv8, addressing: AddressingMode, argument: bv8, operand: Operand)
    requires |s.ram| == RAM_SIZE && Fetchable(s)
    requires opcode == OpcodeAt(s) && argument == ArgumentAt(s)
    requires addressing == GetAddressing(opcode).value
    requires operand == ResolveOperand(addressing, argument, s.regs.x, s.regs.y, s.ram)
    ensures Step(s) == Switch(opcode, CaseLabel(opcode), addressing, operand, argument, s)
  {
    StepFetched(s);
  }
}
