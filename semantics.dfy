/** The state-changing parts of nesemu/ricoh2a03.cpp stated on values:
    `set_flag` and `get_flag` on a status byte, the eight implemented
    instruction handlers, and one whole `process_next_instruction` step from
    a register file and a RAM image to the outcome and the next ones. The
    class in module Cpu is proved to perform exactly these steps. */
module Semantics {
  import opened Defs
  import opened Decode

  // ---------------------------------------------------------------- flags

  /** `set_flag` on a status byte: OR the flag's mask in, or AND its
      complement. The flag's bit becomes `value`; the seven other bits, and
      so every other flag, keep their state. */
  function WithFlag(p: bv8, flag: Flag, value: bool): (r: bv8)
    ensures IsSet(r, flag) == value
    ensures r & !flag.Mask() == p & !flag.Mask()
  {
    WithBit(p, flag.Mask(), value)
  }

  /** Set (`value`) or clear the bits of mask `m` in `p`. */
  function WithBit(p: bv8, m: bv8, value: bool): (r: bv8)
    ensures r & m == (if value then m else 0)
    ensures r & !m == p & !m
  {
    if value then p | m else p & !m
  }

  /** `set_flag` leaves every other flag as it was. */
  lemma WithFlagKeepsOtherFlags(p: bv8, flag: Flag, value: bool, other: Flag)
    requires other != flag
    ensures IsSet(WithFlag(p, flag, value), other) == IsSet(p, other)
  {
    MasksAreDisjoint(other, flag);
  }

  /** Setting a flag to the state it already has changes nothing, and a
      second `set_flag` of the same flag overrides the first. */
  lemma WithFlagIdempotent(p: bv8, flag: Flag, v: bool, w: bool)
    ensures WithFlag(WithFlag(p, flag, v), flag, v) == WithFlag(p, flag, v)
    ensures WithFlag(WithFlag(p, flag, v), flag, w) == WithFlag(p, flag, w)
    ensures IsSet(p, flag) == v ==> WithFlag(p, flag, v) == p
  {
    SingleBitUpdate(p, flag.Mask(), v, w);
  }

  /** Updating one bit `m` of a byte: repeating the update, overriding it,
      or applying it where the bit already has that state. */
  lemma SingleBitUpdate(p: bv8, m: bv8, v: bool, w: bool)
    requires m != 0 && m & (m - 1) == 0
    ensures WithBit(WithBit(p, m, v), m, v) == WithBit(p, m, v)
    ensures WithBit(WithBit(p, m, v), m, w) == WithBit(p, m, w)
    ensures (p & m != 0) == v ==> WithBit(p, m, v) == p
  {
  }

  /** `set_flag` of two different flags can be done in either order. */
  lemma WithFlagCommutes(p: bv8, f: Flag, g: Flag, v: bool, w: bool)
    requires f != g
    ensures WithFlag(WithFlag(p, f, v), g, w) == WithFlag(WithFlag(p, g, w), f, v)
  {
    MasksAreDisjoint(f, g);
  }

  /** `get_flag` as written: it tests `P | mask` instead of `P & mask`, and
      that byte always has the mask bit set, so the answer is always true. */
  function ReadFlag(p: bv8, flag: Flag): (r: bool)
    ensures r
  {
    p | flag.Mask() != 0
  }

  /** `get_flag` answers the flag's real state only when the flag is set:
      for a clear flag (Negative in P = 0, say) it still answers true. */
  lemma ReadFlagIgnoresStatus(p: bv8, flag: Flag)
    ensures ReadFlag(p, flag) == IsSet(p, flag) <==> IsSet(p, flag)
    ensures ReadFlag(0x00, Negative) && !IsSet(0x00, Negative)
  {
  }

  // ------------------------------------------------------------- handlers

  /** Whether a byte, read as unsigned, exceeds 127: its bit 7. */
  predicate High(v: bv8)
  {
    v > 127
  }

  /** ORA as written: A := A | v, then Carry (not Zero) reports a zero
      result and Negative reports bit 7 of the result. */
  function Ora(regs: Registers, v: bv8): (r: Registers)
    ensures r == regs.(a := r.a, p := r.p)
    ensures r.a == regs.a | v
    ensures IsSet(r.p, Carry) <==> r.a == 0
    ensures IsSet(r.p, Negative) <==> r.a & 0x80 != 0
    ensures r.p & 0x7E == regs.p & 0x7E
  {
    var a := regs.a | v;
    regs.(a := a, p := WithFlag(WithFlag(regs.p, Carry, a == 0), Negative, High(a)))
  }

  /** AND as written: A := A & v, then Zero is set exactly when the result is
      NOT zero, and Negative reports bit 7 of the result. */
  function And(regs: Registers, v: bv8): (r: Registers)
    ensures r == regs.(a := r.a, p := r.p)
    ensures r.a == regs.a & v
    ensures IsSet(r.p, Zero) <==> r.a != 0
    ensures IsSet(r.p, Negative) <==> r.a & 0x80 != 0
    ensures r.p & 0x7D == regs.p & 0x7D
  {
    var a := regs.a & v;
    regs.(a := a, p := WithFlag(WithFlag(regs.p, Zero, a != 0), Negative, High(a)))
  }

  /** BIT as written: P keeps its low six bits and the whole operand is ORed
      in (not just its bits 6 and 7), then Zero is set exactly when A & v is
      NOT zero. */
  function BitTest(regs: Registers, v: bv8): (r: Registers)
    ensures r == regs.(p := r.p)
    ensures IsSet(r.p, Zero) <==> regs.a & v != 0
    ensures r.p & 0xC0 == v & 0xC0
    ensures r.p & 0x3D == (regs.p | v) & 0x3D
  {
    regs.(p := WithFlag((regs.p & 0x3F) | v, Zero, regs.a & v != 0))
  }

  /** The byte ASL stores back: the operand shifted left by one, bit 7
      dropped and a zero shifted in. */
  function ShiftedLeft(v: bv8): (r: bv8)
    ensures r >> 1 == v & 0x7F
    ensures r & 0x01 == 0
  {
    v << 1
  }

  /** The byte ROL stores back: the operand shifted left by one with the old
      Carry (bit 0 of P) shifted in. */
  function RotatedLeft(v: bv8, p: bv8): (r: bv8)
    ensures r >> 1 == v & 0x7F
    ensures r & 0x01 == 0x01 <==> IsSet(p, Carry)
  {
    (v << 1) | (p & 1)
  }

  /** The status byte after ASL: Carry takes the operand's old bit 7 and
      Negative bit 7 of the shifted value; Zero is not updated. */
  function AslStatus(p: bv8, v: bv8): (r: bv8)
    ensures IsSet(r, Carry) <==> v & 0x80 != 0
    ensures IsSet(r, Negative) <==> v & 0x40 != 0
    ensures r & 0x7E == p & 0x7E
  {
    WithFlag(WithFlag(p, Carry, High(v)), Negative, High(ShiftedLeft(v)))
  }

  /** The status byte after ROL: only Carry changes, to the operand's old
      bit 7; Negative and Zero are not updated. */
  function RolStatus(p: bv8, v: bv8): (r: bv8)
    ensures IsSet(r, Carry) <==> v & 0x80 != 0
    ensures r & 0xFE == p & 0xFE
  {
    WithFlag(p, Carry, High(v))
  }

  /** ROL's shift and Carry update together lose no bit: the old Carry
      becomes bit 0 of the result and the old bit 7 becomes the new Carry. */
  lemma RotationKeepsEveryBit(v: bv8, p: bv8)
    ensures RotatedLeft(v, p) >> 1 == v & 0x7F
    ensures (RotatedLeft(v, p) & 1 == 1) == IsSet(p, Carry)
    ensures IsSet(RolStatus(p, v), Carry) == (v >> 7 == 1)
  {
  }

  /** BPL as written: when `get_flag(Negative)` is false, SP (not PC) moves
      by the argument read as a signed byte, wrapping modulo 256. Because
      `get_flag` always answers true, it never moves. */
  function Bpl(regs: Registers, argument: bv8): (r: Registers)
    ensures r == regs
  {
    if !ReadFlag(regs.p, Negative) then regs.(sp := regs.sp + argument) else regs
  }

  /** The register and RAM state a step reads and writes. */
  datatype State = State(regs: Registers, ram: seq<bv8>)

  /** PHP as written: P is stored at `ram[SP]` (in page zero, not page one)
      and SP is decremented modulo 256; nothing else changes. */
  function Php(s: State): (r: State)
    requires |s.ram| == RAM_SIZE
    ensures |r.ram| == RAM_SIZE
    ensures r.regs == s.regs.(sp := r.regs.sp)
    ensures r.regs.sp + 1 == s.regs.sp
    ensures r.ram[Value(s.regs.sp)] == s.regs.p
    ensures forall i :: 0 <= i < RAM_SIZE && i != Value(s.regs.sp) ==> r.ram[i] == s.ram[i]
  {
    State(s.regs.(sp := s.regs.sp - 1), s.ram[Value(s.regs.sp) := s.regs.p])
  }

  /** CLC: clear Carry, nothing else. */
  function Clc(regs: Registers): (r: Registers)
    ensures r == regs.(p := r.p)
    ensures !IsSet(r.p, Carry)
    ensures r.p & 0xFE == regs.p & 0xFE
  {
    regs.(p := WithFlag(regs.p, Carry, false))
  }

  // ------------------------------------------------------------ operands

  /** Dereference of the operand pointer: a RAM cell past the end of `ram`
      and the never-assigned pointer are error outcomes. */
  function ReadOperand(o: Operand, ram: seq<bv8>, opcode: bv8): (r: Result<bv8>)
    ensures r.Ok? <==> (o.RamCell? && o.index < |ram|) || o.ArgumentByte?
    ensures o.RamCell? && o.index < |ram| ==> r == Ok(ram[o.index])
    ensures o.ArgumentByte? ==> r == Ok(o.byte)
    ensures o.Unset? ==> r == Err(OperandNotSet(opcode))
  {
    match o
    case RamCell(i) => if i < |ram| then Ok(ram[i]) else Err(RamIndexOutOfRange(i))
    case ArgumentByte(b) => Ok(b)
    case Unset => Err(OperandNotSet(opcode))
  }

  /** Store through the operand pointer. A store into the local copy of the
      argument byte is lost when the step ends, so RAM is unchanged. */
  function WriteOperand(o: Operand, v: bv8, ram: seq<bv8>): (r: seq<bv8>)
    ensures |r| == |ram|
    ensures o.RamCell? && o.index < |ram| ==> r == ram[o.index := v]
    ensures !(o.RamCell? && o.index < |ram|) ==> r == ram
  {
    if o.RamCell? && o.index < |ram| then ram[o.index := v] else ram
  }

  // ---------------------------------------------------------------- steps

  /** The instruction names whose case has a body that changes state. */
  const HANDLED: set<InstructionName> := {ORA, ASL, PHP, BPL, CLC, AND, BIT, ROL}

  /** The body of the case the opcode's label selects. Every case that only
      names its instruction leaves the state as it is; a dereference that
      cannot be done stops the body before its first write. */
  function Execute(name: InstructionName, opcode: bv8, mode: AddressingMode, operand: Operand,
                   argument: bv8, s: State): (r: Result<State>)
    requires |s.ram| == RAM_SIZE
    ensures r.Ok? ==> |r.value.ram| == RAM_SIZE && r.value.regs.pc == s.regs.pc
    ensures name !in HANDLED ==> r == Ok(s)
    ensures r.Err? ==> name in {ORA, AND, BIT, ASL, ROL}
  {
    match name
    case ORA =>
      var v :- ReadOperand(operand, s.ram, opcode);
      Ok(s.(regs := Ora(s.regs, v)))
    case AND =>
      var v :- ReadOperand(operand, s.ram, opcode);
      Ok(s.(regs := And(s.regs, v)))
    case BIT =>
      var v :- ReadOperand(operand, s.ram, opcode);
      Ok(s.(regs := BitTest(s.regs, v)))
    case ASL =>
      var v :- ReadOperand(operand, s.ram, opcode);
      Ok(State(s.regs.(p := AslStatus(s.regs.p, v)), WriteOperand(operand, ShiftedLeft(v), s.ram)))
    case ROL =>
      if mode == Implicit then
        // under implicit addressing the operand is A
        Ok(s.(regs := s.regs.(a := RotatedLeft(s.regs.a, s.regs.p), p := RolStatus(s.regs.p, s.regs.a))))
      else
        var v :- ReadOperand(operand, s.ram, opcode);
        Ok(State(s.regs.(p := RolStatus(s.regs.p, v)), WriteOperand(operand, RotatedLeft(v, s.regs.p), s.ram)))
    case PHP => Ok(Php(s))
    case BPL => Ok(s.(regs := Bpl(s.regs, argument)))
    case CLC => Ok(s.(regs := Clc(s.regs)))
    case _ => Ok(s)
  }

  /** What a step reports, and the state it leaves. */
  datatype StepResult = StepResult(outcome: Result<InstructionName>, state: State)

  /** One `process_next_instruction` with the Y-group bound of the decoder
      as a parameter. In order: fetch the opcode at PC, decode its mode,
      fetch the argument byte at PC + 1, resolve the operand, and run the
      case of the opcode's label. PC never moves. */
  function StepWithBound(yGroupBound: bv8, s: State): (r: StepResult)
    requires |s.ram| == RAM_SIZE
    ensures |r.state.ram| == RAM_SIZE
    ensures r.state.regs.pc == s.regs.pc
    ensures r.outcome.Ok? ==> r.state == s && r.outcome.value !in HANDLED
  {
    var pc := Value16(s.regs.pc);
    if pc >= RAM_SIZE then StepResult(Err(RamIndexOutOfRange(pc)), s)
    else AfterDecode(s.ram[pc], DecodeAddressing(s.ram[pc], yGroupBound), s)
  }

  /** The rest of a step once the opcode is fetched and decoded: fetch the
      argument, resolve the operand and run the switch. */
  function AfterDecode(opcode: bv8, addressing: Result<AddressingMode>, s: State): (r: StepResult)
    requires |s.ram| == RAM_SIZE
    ensures |r.state.ram| == RAM_SIZE
    ensures r.state.regs.pc == s.regs.pc
    ensures r.outcome.Ok? ==> r.state == s && r.outcome.value !in HANDLED
  {
    match addressing
    case Err(e) => StepResult(Err(e), s)
    case Ok(mode) =>
      var pc := Value16(s.regs.pc);
      if pc + 1 >= RAM_SIZE then StepResult(Err(RamIndexOutOfRange(pc + 1)), s)
      else
        var argument := s.ram[pc + 1];
        var operand := ResolveOperand(mode, argument, s.regs.x, s.regs.y, s.ram);
        Switch(opcode, CaseLabel(opcode), mode, operand, argument, s)
  }

  /** The mnemonic of the case label of the (promoted) opcode byte: every
      byte but 0xF8 has a label, and none of them is SED's. */
  function CaseLabel(opcode: bv8): (r: Option<InstructionName>)
    ensures r.None? <==> opcode == 0xF8
    ensures r != Some(SED)
  {
    DispatchCoverage(Value(opcode));
    NoMnemonicIsSed(Value(opcode));
    Mnemonic(Value(opcode))
  }

  /** The dispatch switch, given the mnemonic of the opcode's case label
      (`None` when it has none). A case that names its instruction returns
      that name; a case with a body ends with `break`, which leaves the
      switch and reaches the final `throw` after its writes are done; an
      opcode with no label reaches the `throw` directly. */
  function Switch(opcode: bv8, mnemonic: Option<InstructionName>, mode: AddressingMode, operand: Operand,
                  argument: bv8, s: State): (r: StepResult)
    requires |s.ram| == RAM_SIZE
    ensures |r.state.ram| == RAM_SIZE
    ensures r.state.regs.pc == s.regs.pc
    ensures r.outcome.Ok? ==> r.state == s && r.outcome.value !in HANDLED
  {
    match mnemonic
    case None => StepResult(Err(UnprocessedOpcode(opcode)), s)
    case Some(name) =>
      match Execute(name, opcode, mode, operand, argument, s)
      case Err(e) => StepResult(Err(e), s)
      case Ok(next) =>
        if name in HANDLED then StepResult(Err(UnprocessedOpcode(opcode)), next)
        else StepResult(Ok(name), next)
  }

  /** A 16-bit value as an unsigned number. */
  function Value16(w: bv16): (n: nat)
    ensures n < 0x10000
  {
    w as int
  }

  /** `process_next_instruction` with the decoder as written. */
  function Step(s: State): (r: StepResult)
    requires |s.ram| == RAM_SIZE
    ensures |r.state.ram| == RAM_SIZE
    ensures r.state.regs.pc == s.regs.pc
    ensures r.outcome.Ok? ==> r.state == s && r.outcome.value !in HANDLED
  {
    StepWithBound(Y_GROUP_BOUND_AS_WRITTEN, s)
  }

  // ------------------------------------------------------- step properties

  /** PC and PC + 1 both index RAM, so the opcode and argument fetches
      succeed. */
  predicate Fetchable(s: State)
  {
    Value16(s.regs.pc) + 1 < RAM_SIZE
  }

  /** The opcode byte a step fetches. */
  function OpcodeAt(s: State): bv8
    requires |s.ram| == RAM_SIZE && Fetchable(s)
  {
    s.ram[Value16(s.regs.pc)]
  }

  /** The argument byte a step fetches. */
  function ArgumentAt(s: State): bv8
    requires |s.ram| == RAM_SIZE && Fetchable(s)
  {
    s.ram[Value16(s.regs.pc) + 1]
  }

  /** The first part of a step: fetch the opcode, then decode it. */
  lemma FetchThenDecode(bound: bv8, s: State)
    requires |s.ram| == RAM_SIZE && Value16(s.regs.pc) < RAM_SIZE
    ensures var op := s.ram[Value16(s.regs.pc)];
      StepWithBound(bound, s) == AfterDecode(op, DecodeAddressing(op, bound), s)
  {
  }

  /** The second part: fetch the argument, resolve the operand, switch. */
  lemma DecodeThenSwitch(s: State, op: bv8, mode: AddressingMode)
    requires |s.ram| == RAM_SIZE && Fetchable(s)
    ensures AfterDecode(op, Ok(mode), s) ==
      Switch(op, CaseLabel(op), mode, ResolveOperand(mode, ArgumentAt(s), s.regs.x, s.regs.y, s.ram), ArgumentAt(s), s)
  {
  }

  /** A step whose two fetches succeed is the switch on the fetched
      opcode, with the mode the decoder gives and the operand it selects. */
  lemma StepFetched(s: State)
    requires |s.ram| == RAM_SIZE && Fetchable(s)
    ensures var op := OpcodeAt(s);
      var mode := GetAddressing(op).value;
      var arg := ArgumentAt(s);
      Step(s) == Switch(op, CaseLabel(op), mode, ResolveOperand(mode, arg, s.regs.x, s.regs.y, s.ram), arg, s)
  {
    var op := OpcodeAt(s);
    FetchThenDecode(Y_GROUP_BOUND_AS_WRITTEN, s);
    assert DecodeAddressing(op, Y_GROUP_BOUND_AS_WRITTEN) == Ok(GetAddressing(op).value);
    DecodeThenSwitch(s, op, GetAddressing(op).value);
  }

  /** A step whose opcode has case label `name` and decodes to `mode`. */
  lemma StepOnCase(s: State, name: InstructionName, mode: AddressingMode)
    requires |s.ram| == RAM_SIZE && Fetchable(s)
    requires CaseLabel(OpcodeAt(s)) == Some(name) && GetAddressing(OpcodeAt(s)) == Ok(mode)
    ensures Step(s) == Switch(OpcodeAt(s), Some(name), mode,
      ResolveOperand(mode, ArgumentAt(s), s.regs.x, s.regs.y, s.ram), ArgumentAt(s), s)
  {
    StepFetched(s);
  }

  /** A fetch past the end of RAM is an error and changes nothing. */
  lemma FetchOutsideRam(s: State)
    requires |s.ram| == RAM_SIZE && !Fetchable(s)
    ensures Step(s).outcome.Err? && Step(s).outcome.error.RamIndexOutOfRange?
    ensures Step(s).outcome.error.index >= RAM_SIZE
    ensures Step(s).state == s
  {
    var pc := Value16(s.regs.pc);
    if pc < RAM_SIZE {
      var op := s.ram[pc];
      FetchThenDecode(Y_GROUP_BOUND_AS_WRITTEN, s);
      assert DecodeAddressing(op, Y_GROUP_BOUND_AS_WRITTEN).Ok?;
    }
  }

  /** A step returns normally exactly when the opcode's case only names its
      instruction, and then it returns that name and changes nothing. */
  lemma StepReturnsTheMnemonic(s: State)
    requires |s.ram| == RAM_SIZE && Fetchable(s)
    ensures var name := Mnemonic(Value(OpcodeAt(s)));
      Step(s).outcome.Ok? <==> name.Some? && name.value !in HANDLED
    ensures Step(s).outcome.Ok? ==>
      Step(s) == StepResult(Ok(Mnemonic(Value(OpcodeAt(s))).value), s)
  {
    StepFetched(s);
  }

  /** The opcode without a case label, 0xF8, reaches the `throw` with
      nothing changed. */
  lemma UnlabelledOpcodeStep(s: State)
    requires |s.ram| == RAM_SIZE && Fetchable(s) && OpcodeAt(s) == 0xF8
    ensures Step(s) == StepResult(Err(UnprocessedOpcode(0xF8)), s)
  {
    StepFetched(s);
    assert Value(OpcodeAt(s)) == 0xF8;
    DispatchCoverage(0xF8);
  }

  /** Every case with a body ends in `break` and so in the `throw` after the
      switch: a handled opcode never returns normally. Either its body ran
      to the end and the error is "Unprocessed opcode", or a dereference
      stopped it before any write. */
  lemma HandlersReachTheThrow(s: State)
    requires |s.ram| == RAM_SIZE && Fetchable(s)
    requires Mnemonic(Value(OpcodeAt(s))).Some? && Mnemonic(Value(OpcodeAt(s))).value in HANDLED
    ensures Step(s).outcome.Err?
    ensures Step(s).outcome == Err(UnprocessedOpcode(OpcodeAt(s))) || Step(s).state == s
  {
    StepFetched(s);
  }

  /** PHP (0x08) pushes P at `ram[SP]`, decrements SP and changes nothing
      else before reaching the `throw`. */
  lemma PhpStep(s: State)
    requires |s.ram| == RAM_SIZE && Fetchable(s) && OpcodeAt(s) == 0x08
    ensures Step(s) == StepResult(Err(UnprocessedOpcode(0x08)), Php(s))
  {
    assert CaseLabel(OpcodeAt(s)) == Some(PHP) by {
      assert Value(OpcodeAt(s)) == 0x08;
      assert Mnemonic(0x08) == Some(PHP);
    }
    StepOnCase(s, PHP, Implicit);
  }

  /** BPL (0x10) never moves SP, since `get_flag` always answers true. */
  lemma BplStep(s: State)
    requires |s.ram| == RAM_SIZE && Fetchable(s) && OpcodeAt(s) == 0x10
    ensures Step(s) == StepResult(Err(UnprocessedOpcode(0x10)), s)
  {
    assert CaseLabel(OpcodeAt(s)) == Some(BPL) by {
      assert Value(OpcodeAt(s)) == 0x10;
      assert Mnemonic(0x10) == Some(BPL);
    }
    StepOnCase(s, BPL, Relative);
  }

  /** CLC (0x18) clears Carry and nothing else. */
  lemma ClcStep(s: State)
    requires |s.ram| == RAM_SIZE && Fetchable(s) && OpcodeAt(s) == 0x18
    ensures Step(s) == StepResult(Err(UnprocessedOpcode(0x18)), s.(regs := Clc(s.regs)))
  {
    assert CaseLabel(OpcodeAt(s)) == Some(CLC) by {
      assert Value(OpcodeAt(s)) == 0x18;
      assert Mnemonic(0x18) == Some(CLC);
    }
    StepOnCase(s, CLC, Implicit);
  }

  /** ASL A (0x0A) decodes as implicit, for which no operand is assigned:
      its body would dereference the unset pointer, an error here. */
  lemma AslAccumulatorStep(s: State)
    requires |s.ram| == RAM_SIZE && Fetchable(s) && OpcodeAt(s) == 0x0A
    ensures Step(s) == StepResult(Err(OperandNotSet(0x0A)), s)
  {
    assert CaseLabel(OpcodeAt(s)) == Some(ASL) by {
      assert Value(OpcodeAt(s)) == 0x0A;
      assert Mnemonic(0x0A) == Some(ASL);
    }
    StepOnCase(s, ASL, Implicit);
  }

  /** ROL A (0x2A) decodes as implicit and rotates A through Carry. */
  lemma RolAccumulatorStep(s: State)
    requires |s.ram| == RAM_SIZE && Fetchable(s) && OpcodeAt(s) == 0x2A
    ensures Step(s) == StepResult(Err(UnprocessedOpcode(0x2A)),
      s.(regs := s.regs.(a := RotatedLeft(s.regs.a, s.regs.p), p := RolStatus(s.regs.p, s.regs.a))))
  {
    assert CaseLabel(OpcodeAt(s)) == Some(ROL) by {
      assert Value(OpcodeAt(s)) == 0x2A;
      assert Mnemonic(0x2A) == Some(ROL);
    }
    StepOnCase(s, ROL, Implicit);
    SwitchOnAccumulatorRotate(0x2A, ResolveOperand(Implicit, ArgumentAt(s), s.regs.x, s.regs.y, s.ram), ArgumentAt(s), s);
  }

  /** ORA # (0x09) ORs the argument byte itself into A. */
  lemma OraImmediateStep(s: State)
    requires |s.ram| == RAM_SIZE && Fetchable(s) && OpcodeAt(s) == 0x09
    ensures Step(s) == StepResult(Err(UnprocessedOpcode(0x09)), s.(regs := Ora(s.regs, ArgumentAt(s))))
  {
    assert CaseLabel(OpcodeAt(s)) == Some(ORA) by {
      assert Value(OpcodeAt(s)) == 0x09;
      assert Mnemonic(0x09) == Some(ORA);
    }
    StepOnCase(s, ORA, Immediate);
  }

  /** BIT zp (0x24) tests the zero-page cell the argument names, which is
      always inside RAM. */
  lemma BitZeroPageStep(s: State)
    requires |s.ram| == RAM_SIZE && Fetchable(s) && OpcodeAt(s) == 0x24
    ensures Step(s) == StepResult(Err(UnprocessedOpcode(0x24)),
      s.(regs := BitTest(s.regs, s.ram[Value(ArgumentAt(s))])))
  {
    assert CaseLabel(OpcodeAt(s)) == Some(BIT) by {
      assert Value(OpcodeAt(s)) == 0x24;
      assert Mnemonic(0x24) == Some(BIT);
    }
    StepOnZeroPage(s, BIT);
    SwitchOnRamRead(0x24, BIT, ZeroPage, Value(ArgumentAt(s)), ArgumentAt(s), s);
  }

  /** AND zp (0x25) ANDs the zero-page cell the argument names into A. */
  lemma AndZeroPageStep(s: State)
    requires |s.ram| == RAM_SIZE && Fetchable(s) && OpcodeAt(s) == 0x25
    ensures Step(s) == StepResult(Err(UnprocessedOpcode(0x25)),
      s.(regs := And(s.regs, s.ram[Value(ArgumentAt(s))])))
  {
    assert CaseLabel(OpcodeAt(s)) == Some(AND) by {
      assert Value(OpcodeAt(s)) == 0x25;
      assert Mnemonic(0x25) == Some(AND);
    }
    StepOnZeroPage(s, AND);
    SwitchOnRamRead(0x25, AND, ZeroPage, Value(ArgumentAt(s)), ArgumentAt(s), s);
  }

  /** ASL zp (0x06) writes the shifted byte back into the zero-page cell it
      read, and into no other cell. */
  lemma AslZeroPageStep(s: State)
    requires |s.ram| == RAM_SIZE && Fetchable(s) && OpcodeAt(s) == 0x06
    ensures var i := Value(ArgumentAt(s));
      Step(s) == StepResult(Err(UnprocessedOpcode(0x06)),
        State(s.regs.(p := AslStatus(s.regs.p, s.ram[i])), s.ram[i := ShiftedLeft(s.ram[i])]))
  {
    assert CaseLabel(OpcodeAt(s)) == Some(ASL) by {
      assert Value(OpcodeAt(s)) == 0x06;
      assert Mnemonic(0x06) == Some(ASL);
    }
    StepOnZeroPage(s, ASL);
    SwitchOnRamShift(0x06, ASL, ZeroPage, Value(ArgumentAt(s)), ArgumentAt(s), s);
  }

  /** ROL zp (0x26) writes the rotated byte back into the zero-page cell it
      read, and into no other cell. */
  lemma RolZeroPageStep(s: State)
    requires |s.ram| == RAM_SIZE && Fetchable(s) && OpcodeAt(s) == 0x26
    ensures var i := Value(ArgumentAt(s));
      Step(s) == StepResult(Err(UnprocessedOpcode(0x26)),
        State(s.regs.(p := RolStatus(s.regs.p, s.ram[i])), s.ram[i := RotatedLeft(s.ram[i], s.regs.p)]))
  {
    assert CaseLabel(OpcodeAt(s)) == Some(ROL) by {
      assert Value(OpcodeAt(s)) == 0x26;
      assert Mnemonic(0x26) == Some(ROL);
    }
    StepOnZeroPage(s, ROL);
    SwitchOnRamShift(0x26, ROL, ZeroPage, Value(ArgumentAt(s)), ArgumentAt(s), s);
  }

  /** A step whose opcode decodes as zero page runs its case on the cell
      the argument byte names. */
  lemma StepOnZeroPage(s: State, name: InstructionName)
    requires |s.ram| == RAM_SIZE && Fetchable(s)
    requires CaseLabel(OpcodeAt(s)) == Some(name) && GetAddressing(OpcodeAt(s)) == Ok(ZeroPage)
    ensures Step(s) == Switch(OpcodeAt(s), Some(name), ZeroPage, RamCell(Value(ArgumentAt(s))), ArgumentAt(s), s)
  {
    StepOnCase(s, name, ZeroPage);
    ZeroPageOperand(ArgumentAt(s), s.regs.x, s.regs.y, s.ram);
  }

  /** The switch of a case that reads a RAM cell inside RAM and writes only
      registers. */
  lemma SwitchOnRamRead(opcode: bv8, name: InstructionName, mode: AddressingMode, i: nat, argument: bv8, s: State)
    requires |s.ram| == RAM_SIZE && i < RAM_SIZE && name in {ORA, AND, BIT}
    ensures Switch(opcode, Some(name), mode, RamCell(i), argument, s) ==
      StepResult(Err(UnprocessedOpcode(opcode)), s.(regs :=
        if name == ORA then Ora(s.regs, s.ram[i])
        else if name == AND then And(s.regs, s.ram[i])
        else BitTest(s.regs, s.ram[i])))
  {
  }

  /** The switch of a shift case on a RAM cell inside RAM: the new status
      and the shifted byte written back into that cell. */
  lemma SwitchOnRamShift(opcode: bv8, name: InstructionName, mode: AddressingMode, i: nat, argument: bv8, s: State)
    requires |s.ram| == RAM_SIZE && i < RAM_SIZE && name in {ASL, ROL} && mode != Implicit
    ensures Switch(opcode, Some(name), mode, RamCell(i), argument, s) ==
      StepResult(Err(UnprocessedOpcode(opcode)),
        if name == ASL then State(s.regs.(p := AslStatus(s.regs.p, s.ram[i])), s.ram[i := ShiftedLeft(s.ram[i])])
        else State(s.regs.(p := RolStatus(s.regs.p, s.ram[i])), s.ram[i := RotatedLeft(s.ram[i], s.regs.p)]))
  {
  }

  /** The switch of ROL under implicit addressing: A rotated through Carry,
      whatever the operand. */
  lemma SwitchOnAccumulatorRotate(opcode: bv8, operand: Operand, argument: bv8, s: State)
    requires |s.ram| == RAM_SIZE
    ensures Switch(opcode, Some(ROL), Implicit, operand, argument, s) ==
      StepResult(Err(UnprocessedOpcode(opcode)),
        s.(regs := s.regs.(a := RotatedLeft(s.regs.a, s.regs.p), p := RolStatus(s.regs.p, s.regs.a))))
  {
  }

  /** An operand cell past the end of RAM stops any case that reads it,
      before any write. */
  lemma SwitchOnRamPastEnd(opcode: bv8, name: InstructionName, mode: AddressingMode, i: nat, argument: bv8, s: State)
    requires |s.ram| == RAM_SIZE && RAM_SIZE <= i && name in {ORA, AND, BIT, ASL, ROL} && mode != Implicit
    ensures Switch(opcode, Some(name), mode, RamCell(i), argument, s) == StepResult(Err(RamIndexOutOfRange(i)), s)
  {
  }

  /** An indirect operand that points past the end of RAM stops ORA (ind,X)
      (0x01) with an error, before any write. */
  lemma IndirectOperandPastRam(s: State)
    requires |s.ram| == RAM_SIZE && Fetchable(s) && OpcodeAt(s) == 0x01
    requires ResolveOperand(IndX, ArgumentAt(s), s.regs.x, s.regs.y, s.ram).index >= RAM_SIZE
    ensures Step(s) == StepResult(
      Err(RamIndexOutOfRange(ResolveOperand(IndX, ArgumentAt(s), s.regs.x, s.regs.y, s.ram).index)), s)
  {
    assert CaseLabel(OpcodeAt(s)) == Some(ORA) by {
      assert Value(OpcodeAt(s)) == 0x01;
      assert Mnemonic(0x01) == Some(ORA);
    }
    StepOnCase(s, ORA, IndX);
    var o := ResolveOperand(IndX, ArgumentAt(s), s.regs.x, s.regs.y, s.ram);
    OperandIndexBounds(IndX, ArgumentAt(s), s.regs.x, s.regs.y, s.ram);
    SwitchOnRamPastEnd(0x01, ORA, IndX, o.index, ArgumentAt(s), s);
  }

  /** The decoder's Y-group bound only matters for 0x7E and 0x7F, whose
      cases only name ROR and RRA: a step is the same with the bound as
      written and with the intended one. */
  lemma YGroupBoundDoesNotAffectStep(s: State)
    requires |s.ram| == RAM_SIZE
    ensures Step(s) == StepWithBound(Y_GROUP_BOUND_INTENDED, s)
  {
    if Value16(s.regs.pc) < RAM_SIZE {
      var op := s.ram[Value16(s.regs.pc)];
      FetchThenDecode(Y_GROUP_BOUND_AS_WRITTEN, s);
      FetchThenDecode(Y_GROUP_BOUND_INTENDED, s);
      if op == 0x7E || op == 0x7F {
        DecodeOfRorRraIgnored(op, s);
      } else {
        AbsYBoundDiscrepancy(op);
      }
    }
  }

  /** 0x7E and 0x7F, the two opcodes the bounds tell apart, only name ROR
      and RRA, so their decoded mode does not matter. */
  lemma DecodeOfRorRraIgnored(op: bv8, s: State)
    requires |s.ram| == RAM_SIZE && Value16(s.regs.pc) < RAM_SIZE
    requires op == 0x7E || op == 0x7F
    ensures AfterDecode(op, DecodeAddressing(op, Y_GROUP_BOUND_AS_WRITTEN), s) ==
      AfterDecode(op, DecodeAddressing(op, Y_GROUP_BOUND_INTENDED), s)
  {
    RorRraLabels();
    RorRraModes();
    if op == 0x7E {
      AfterDecodeIgnoresMode(0x7E, ROR, AbsY, AbsX, s);
    } else {
      AfterDecodeIgnoresMode(0x7F, RRA, AbsY, AbsX, s);
    }
  }

  /** The case labels of 0x7E and 0x7F. */
  lemma RorRraLabels()
    ensures CaseLabel(0x7E) == Some(ROR) && CaseLabel(0x7F) == Some(RRA)
  {
    assert Value(0x7E) == 0x7E && Value(0x7F) == 0x7F;
  }

  /** The modes the two bounds give 0x7E and 0x7F. */
  lemma RorRraModes()
    ensures DecodeAddressing(0x7E, Y_GROUP_BOUND_AS_WRITTEN) == Ok(AbsY)
    ensures DecodeAddressing(0x7F, Y_GROUP_BOUND_AS_WRITTEN) == Ok(AbsY)
    ensures DecodeAddressing(0x7E, Y_GROUP_BOUND_INTENDED) == Ok(AbsX)
    ensures DecodeAddressing(0x7F, Y_GROUP_BOUND_INTENDED) == Ok(AbsX)
  {
  }

  /** The mode does not matter to an opcode whose case only names its
      instruction. */
  lemma AfterDecodeIgnoresMode(op: bv8, name: InstructionName, m1: AddressingMode, m2: AddressingMode, s: State)
    requires |s.ram| == RAM_SIZE && Value16(s.regs.pc) < RAM_SIZE
    requires CaseLabel(op) == Some(name) && name !in HANDLED
    ensures AfterDecode(op, Ok(m1), s) == AfterDecode(op, Ok(m2), s)
  {
    if Fetchable(s) {
      DecodeThenSwitch(s, op, m1);
      DecodeThenSwitch(s, op, m2);
      SwitchIgnoresOperand(op, name, m1, m2,
        ResolveOperand(m1, ArgumentAt(s), s.regs.x, s.regs.y, s.ram),
        ResolveOperand(m2, ArgumentAt(s), s.regs.x, s.regs.y, s.ram), ArgumentAt(s), s);
    }
  }

  /** A case that only names its instruction does not look at the mode or
      the operand. */
  lemma SwitchIgnoresOperand(opcode: bv8, name: InstructionName, m1: AddressingMode, m2: AddressingMode,
                             o1: Operand, o2: Operand, argument: bv8, s: State)
    requires |s.ram| == RAM_SIZE && name !in HANDLED
    ensures Switch(opcode, Some(name), m1, o1, argument, s) == Switch(opcode, Some(name), m2, o2, argument, s)
    ensures Switch(opcode, Some(name), m1, o1, argument, s) == StepResult(Ok(name), s)
  {
  }
}
