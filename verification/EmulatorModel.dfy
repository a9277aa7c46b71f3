/** The functional emulator of emulator.cpp: one instruction per step, delay slots kept as a pending
    branch, register 0 cleared at the start of every step. `Step` is the specification; class `Emulator`
    changes its fields in place and is proved to do exactly that. */
module EmulatorModel {
  import opened Words
  import opened Memory
  import opened Instructions

  type Registers = r: seq<Word> | |r| == 32 witness seq(32, _ => 0)

  const EXCEPTION_ADDRESS: Word := 0x8000

  datatype Machine = Machine(PC: Word, encounteredBranch: bool, savedBranch: Word,
                             registers: Registers, mem: Mem, din: nat)

  datatype InstructionInfo = InstructionInfo(pc: Word, nextPC: Word, isHalt: bool, isValid: bool, isOverflow: bool,
                                             instructionID: nat, instruction: Word,
                                             loadAddress: Word, storeAddress: Word)

  /** What executing the body of one instruction leaves behind. */
  datatype Outcome = Outcome(machine: Machine, isValid: bool, isOverflow: bool,
                             loadAddress: Word, storeAddress: Word)

  function SignExt(smol: Half): Word {
    if smol >= 0x8000 then smol + 0xffff_0000 else smol
  }

  /** The sign extension flips the sixteen upper bits of a negative half word. */
  lemma SignExtIsXor(smol: Half)
    ensures SignExt(smol) == if WordOp(And, smol, 0x8000) != 0 then WordOp(Xor, 0xffff_0000, smol) else smol
  {
    ShiftsByBytes(0xffff);
    Pow2Of16();
    JoinDisjoint(Xor, 0xffff, smol, 16);
    assert WordOp(Xor, 0xffff_0000, smol) == Bitwise(Xor, 0xffff_0000, smol);
    TopBitOfHalf(smol);
  }

  lemma Pow2Of16()
    ensures Pow2(16) == 0x1_0000
  {
    assert Pow2(4) == 16;
    Pow2Plus4(4);
    Pow2Plus4(8);
    Pow2Plus4(12);
  }

  lemma TopBitOfHalf(smol: Half)
    ensures WordOp(And, smol, 0x8000) != 0 <==> smol >= 0x8000
  {
    assert Shl(1, 15) == 0x8000 by {
      ShlShl(1, 8, 7);
      ShiftsByByte(1);
      ShlShl(0x100, 4, 3);
      ShiftsByFour(0x100);
      assert Shl(0x1000, 3) == 2 * Shl(0x1000, 2);
    }
    AndShifted(smol, 1, 15);
    TopBit(smol);
    assert Shl(0, 15) == 0 by {
      ShlZero(15);
    }
    Pow2Of32();
    assert WordOp(And, smol, 0x8000) == Bitwise(And, smol, 0x8000);
  }

  lemma TopBit(smol: Half)
    ensures Bitwise(And, Shr(smol, 15), 1) == if smol >= 0x8000 then 1 else 0
  {
    ShiftsByByte(smol);
    ShrShr(smol, 8, 7);
    var high := smol / 0x100;
    ShiftsByFour(high);
    ShrShr(high, 4, 3);
    var top := high / 16;
    assert Shr(top, 3) == Shr(top / 2, 2);
    assert Shr(top / 2, 2) == Shr(top / 2 / 2, 1);
    assert Shr(top / 2 / 2, 1) == Shr(top / 2 / 2 / 2, 0);
    assert Bitwise(And, 1, 1) == 1;
    assert Bitwise(And, 0, 1) == 0;
  }

  // The C++ tests on `int32_t` sums and differences, which wrap around.

  predicate AddTraps(a: int, b: int)
    requires -0x8000_0000 <= a < 0x8000_0000 && -0x8000_0000 <= b < 0x8000_0000
  {
    var sum := Signed(Wrap(a + b));
    (a >= 0 && b >= 0 && sum < 0) || (a < 0 && b < 0 && sum >= 0)
  }

  predicate SubTraps(a: int, b: int)
    requires -0x8000_0000 <= a < 0x8000_0000 && -0x8000_0000 <= b < 0x8000_0000
  {
    var difference := Signed(Wrap(a - b));
    (a >= 0 && b < 0 && difference < 0) || (a < 0 && b >= 0 && difference >= 0)
  }

  function SetRegister(m: Machine, r: RegId, v: Word): Outcome {
    Outcome(m.(registers := m.registers[r := v]), true, false, 0, 0)
  }

  function Overflow(m: Machine): Outcome {
    Outcome(m.(PC := EXCEPTION_ADDRESS), true, true, 0, 0)
  }

  function BranchIf(m: Machine, taken: bool, target: Word): Outcome {
    Outcome(if taken then m.(encounteredBranch := true, savedBranch := target) else m, true, false, 0, 0)
  }

  function LoadRegister(m: Machine, r: RegId, address: Word, size: nat): Outcome
    requires IsSize(size)
  {
    Outcome(m.(registers := m.registers[r := Load(m.mem, address, size)]), true, false, address, 0)
  }

  function StoreRegister(m: Machine, address: Word, value: Word, size: nat): Outcome
    requires IsSize(size)
  {
    Outcome(m.(mem := Store(m.mem, address, value, size)), true, false, 0, address)
  }

  function ExecuteRType(m: Machine, f: Fields): Outcome {
    var a, b := m.registers[f.rs], m.registers[f.rt];
    match f.funct
    case 0x20 /* ADD */ =>
      if AddTraps(Signed(a), Signed(b)) then Overflow(m) else SetRegister(m, f.rd, Add(a, b))
    case 0x21 /* ADDU */ => SetRegister(m, f.rd, Add(a, b))
    case 0x24 /* AND */ => SetRegister(m, f.rd, WordOp(And, a, b))
    case 0x08 /* JR */ => BranchIf(m, true, a)
    case 0x27 /* NOR */ => SetRegister(m, f.rd, BitNot(WordOp(Or, a, b)))
    case 0x25 /* OR */ => SetRegister(m, f.rd, WordOp(Or, a, b))
    case 0x2a /* SLT */ => SetRegister(m, f.rd, if Signed(a) < Signed(b) then 1 else 0)
    case 0x2b /* SLTU */ => SetRegister(m, f.rd, if a < b then 1 else 0)
    case 0x00 /* SLL */ => SetRegister(m, f.rd, ShiftLeft(b, f.shamt))
    case 0x02 /* SRL */ => SetRegister(m, f.rd, Shr(b, f.shamt))
    case 0x22 /* SUB */ => SetRegister(m, f.rd, Sub(a, b))
    case 0x23 /* SUBU */ =>
      if SubTraps(Signed(a), Signed(b)) then Overflow(m) else SetRegister(m, f.rd, Sub(a, b))
    case _ => Outcome(m, false, false, 0, 0)
  }

  /** `signExtImm << 2` */
  function BranchOffset(f: Fields): Word {
    ShiftLeft(SignExt(f.immediate), 2)
  }

  /** `(PC & 0xf0000000) ^ (address << 2)`, with the PC already advanced. */
  function JumpAddress(pc: Word, f: Fields): Word {
    WordOp(Xor, WordOp(And, pc, 0xf000_0000), ShiftLeft(f.address, 2))
  }

  /** The `switch` of `executeInstruction`: `m` already has its PC advanced and register 0 cleared. */
  function Execute(m: Machine, f: Fields): Outcome {
    var a, b := m.registers[f.rs], m.registers[f.rt];
    var signExtImm := SignExt(f.immediate);
    match f.opcode
    case 0x00 => ExecuteRType(m, f)
    case 0x08 /* ADDI */ =>
      if AddTraps(Signed(a), Signed(signExtImm)) then Overflow(m) else SetRegister(m, f.rt, Add(a, signExtImm))
    case 0x09 /* ADDIU */ => SetRegister(m, f.rt, Add(a, signExtImm))
    case 0x0c /* ANDI */ => SetRegister(m, f.rt, WordOp(And, a, f.immediate))
    case 0x04 /* BEQ */ => BranchIf(m, a == b, Add(m.PC, BranchOffset(f)))
    case 0x05 /* BNE */ => BranchIf(m, a != b, Add(m.PC, BranchOffset(f)))
    case 0x06 /* BLEZ */ => BranchIf(m, a == 0 || a >= 0x8000_0000, Add(m.PC, BranchOffset(f)))
    case 0x07 /* BGTZ */ => BranchIf(m, a < 0x8000_0000 && a != 0, Add(m.PC, BranchOffset(f)))
    case 0x02 /* J */ => BranchIf(m, true, JumpAddress(m.PC, f))
    case 0x03 /* JAL */ =>
      BranchIf(m.(registers := m.registers[31 := Add(m.PC, 4)]), true, JumpAddress(m.PC, f))
    case 0x24 /* LBU */ => LoadRegister(m, f.rt, Add(a, signExtImm), 1)
    case 0x25 /* LHU */ => LoadRegister(m, f.rt, Add(a, signExtImm), 2)
    case 0x0f /* LUI */ => SetRegister(m, f.rt, f.immediate * 0x1_0000)
    case 0x23 /* LW */ => LoadRegister(m, f.rt, Add(a, signExtImm), 4)
    case 0x0d /* ORI */ => SetRegister(m, f.rt, WordOp(Or, a, f.immediate))
    case 0x0a /* SLTI */ => SetRegister(m, f.rt, if Signed(a) < Signed(signExtImm) then 1 else 0)
    case 0x0b /* SLTIU */ => SetRegister(m, f.rt, if a < signExtImm then 1 else 0)
    case 0x28 /* SB */ => StoreRegister(m, Add(a, signExtImm), b % 0x100, 1)
    case 0x29 /* SH */ => StoreRegister(m, Add(a, signExtImm), b % 0x1_0000, 2)
    case 0x2b /* SW */ => StoreRegister(m, Add(a, signExtImm), b, 4)
    case _ => Outcome(m.(PC := EXCEPTION_ADDRESS), false, false, 0, 0)
  }

  /** The instruction word the next step fetches; bytes outside the store read as zero. */
  function Fetched(m: Machine): Word {
    Load(m.mem, m.PC, 4)
  }

  function NextPC(m: Machine): Word {
    if m.encounteredBranch then m.savedBranch else Add(m.PC, 4)
  }

  /** The machine after fetching: PC advanced, pending branch consumed, register 0 cleared. */
  function Advance(m: Machine): Machine {
    m.(PC := NextPC(m), encounteredBranch := false, registers := m.registers[0 := 0], din := m.din + 1)
  }

  /** `executeInstruction` */
  function Step(m: Machine): Machine {
    if Fetched(m) == HALT then Advance(m) else Execute(Advance(m), Decode(Fetched(m))).machine
  }

  function Info(m: Machine): InstructionInfo {
    var w := Fetched(m);
    if w == HALT then InstructionInfo(m.PC, NextPC(m), true, true, false, m.din, w, 0, 0)
    else
      var o := Execute(Advance(m), Decode(w));
      InstructionInfo(m.PC, NextPC(m), false, o.isValid, o.isOverflow, m.din, w, o.loadAddress, o.storeAddress)
  }

  /** The machine after n instructions. */
  function Run(m: Machine, n: nat): Machine {
    if n == 0 then m else Step(Run(m, n - 1))
  }

  /** What the emulator reports about its instruction number n. */
  function InfoAt(m: Machine, n: nat): InstructionInfo {
    Info(Run(m, n))
  }

  /** The functional run halts with instruction number n - 1. */
  ghost predicate HaltsAfter(m: Machine, n: nat) {
    && n > 0 && InfoAt(m, n - 1).isHalt
    && forall k: nat :: k < n - 1 ==> !InfoAt(m, k).isHalt
  }

  lemma HaltUnique(m: Machine, n: nat, n': nat)
    requires HaltsAfter(m, n) && HaltsAfter(m, n')
    ensures n == n'
  {
    hide InfoAt;
  }

  lemma HaltPositive(m: Machine, n: nat)
    requires HaltsAfter(m, n)
    ensures n > 0
  {
  }

  lemma {:induction false} DinCounts(m: Machine, n: nat)
    ensures Run(m, n).din == m.din + n
  {
    hide Step;
    if n != 0 {
      DinCounts(m, n - 1);
      StepCounts(Run(m, n - 1));
    }
  }

  lemma StepCounts(m: Machine)
    ensures Step(m).din == m.din + 1
  {
  }

  /** HALT never faults, and at most one kind of fault is reported. */
  lemma FaultKinds(m: Machine)
    ensures Info(m).isHalt <==> Info(m).instruction == HALT
    ensures Info(m).isHalt ==> Info(m).isValid && !Info(m).isOverflow
    ensures Info(m).isOverflow ==> Info(m).isValid
  {
  }

  /** Base register plus signed offset, register 0 reading as zero. */
  function EffectiveAddress(registers: Registers, w: Word): Word {
    Wrap((if Rs(w) == 0 then 0 else registers[Rs(w)]) + SignedHalf(Immediate(w)))
  }

  function SignedHalf(h: Half): int {
    if h >= 0x8000 then h - 0x1_0000 else h
  }

  lemma AddSignExt(a: Word, h: Half)
    ensures Add(a, SignExt(h)) == Wrap(a + SignedHalf(h))
  {
  }

  lemma LoadReports(m: Machine, f: Fields)
    requires f.opcode in {OP_LBU, OP_LHU, OP_LW}
    ensures Execute(m, f).loadAddress == Add(m.registers[f.rs], SignExt(f.immediate))
  {
  }

  lemma StoreReports(m: Machine, f: Fields)
    requires f.opcode in {OP_SB, OP_SH, OP_SW}
    ensures Execute(m, f).storeAddress == Add(m.registers[f.rs], SignExt(f.immediate))
  {
  }

  lemma AddressFromBase(registers: Registers, w: Word)
    ensures Add(registers[0 := 0][Rs(w)], SignExt(Immediate(w))) == EffectiveAddress(registers, w)
  {
    AddSignExt(registers[0 := 0][Rs(w)], Immediate(w));
  }

  /** A load or store reports its effective address. */
  lemma InfoAddress(m: Machine)
    ensures IsLoad(Fetched(m)) ==> Info(m).loadAddress == EffectiveAddress(m.registers, Fetched(m))
    ensures IsStore(Fetched(m)) ==> Info(m).storeAddress == EffectiveAddress(m.registers, Fetched(m))
  {
    var w := Fetched(m);
    ClassesDisjoint(w);
    AddressFromBase(m.registers, w);
    if IsLoad(w) {
      LoadReports(Advance(m), Decode(w));
    } else if IsStore(w) {
      StoreReports(Advance(m), Decode(w));
    }
  }

  class Emulator {
    var PC: Word
    var encounteredBranch: bool
    var savedBranch: Word
    var din: nat
    const registers: array<Word>
    const memory: MemoryStore

    ghost predicate Valid() {
      registers.Length == 32 && memory.Valid()
    }

    ghost const Repr: set<object> := {this, registers, memory.memArr}

    ghost function Model(): Machine
      requires Valid()
      reads this, registers, memory.memArr
    {
      Machine(PC, encounteredBranch, savedBranch, registers[..], memory.Model(), din)
    }

    constructor (mem: MemoryStore)
      requires mem.Valid()
      ensures Valid() && memory == mem && fresh(registers)
      ensures Model() == Machine(0, false, 0, seq(32, _ => 0), mem.Model(), 0)
    {
      memory := mem;
      PC := 0;
      encounteredBranch := false;
      savedBranch := 0;
      registers := new Word[32](_ => 0);
      din := 0;
      new;
      assert registers[..] == seq(32, _ => 0);
    }

    method ExecuteInstruction() returns (info: InstructionInfo)
      requires Valid()
      modifies this, registers, memory.memArr
      ensures Model() == Step(old(Model()))
      ensures info == Info(old(Model()))
    {
      ghost var m := Model();
      var pc, id := PC, din;
      var status, instruction := memory.GetMemValue(PC, 0, 4);
      var nextPC := if encounteredBranch then savedBranch else Add(PC, 4);
      if !encounteredBranch {
        PC := Add(PC, 4);
      } else {
        PC := savedBranch;
        encounteredBranch := false;
      }
      registers[0] := 0;
      din := din + 1;
      if instruction == 0xfeed_feed {
        return InstructionInfo(pc, nextPC, true, true, false, id, instruction, 0, 0);
      }
      assert Model() == Advance(m);
      var isValid, isOverflow, loadAddress, storeAddress := Dispatch(Decode(instruction));
      info := InstructionInfo(pc, nextPC, false, isValid, isOverflow, id, instruction, loadAddress, storeAddress);
    }

    /** The `switch` on the opcode. */
    method Dispatch(f: Fields) returns (isValid: bool, isOverflow: bool, loadAddress: Word, storeAddress: Word)
      requires Valid()
      modifies this, registers, memory.memArr
      ensures Outcome(Model(), isValid, isOverflow, loadAddress, storeAddress) == Execute(old(Model()), f)
    {
      isValid, isOverflow, loadAddress, storeAddress := true, false, 0, 0;
      var a, b := registers[f.rs], registers[f.rt];
      var signExtImm, zeroExtImm := SignExt(f.immediate), f.immediate;
      var branchAddr := ShiftLeft(signExtImm, 2);
      var jumpAddr := WordOp(Xor, WordOp(And, PC, 0xf000_0000), ShiftLeft(f.address, 2));
      match f.opcode {
        case 0x00 =>
          isValid, isOverflow := DispatchRType(f);
        case 0x08 =>
          if AddTraps(Signed(a), Signed(signExtImm)) {
            isOverflow := true;
            PC := 0x8000;
          } else {
            registers[f.rt] := Add(a, signExtImm);
          }
        case 0x09 => registers[f.rt] := Add(a, signExtImm);
        case 0x0c => registers[f.rt] := WordOp(And, a, zeroExtImm);
        case 0x04 =>
          if a == b {
            encounteredBranch, savedBranch := true, Add(PC, branchAddr);
          }
        case 0x05 =>
          if a != b {
            encounteredBranch, savedBranch := true, Add(PC, branchAddr);
          }
        case 0x06 =>
          if a == 0 || a >= 0x8000_0000 {
            encounteredBranch, savedBranch := true, Add(PC, branchAddr);
          }
        case 0x07 =>
          if a < 0x8000_0000 && a != 0 {
            encounteredBranch, savedBranch := true, Add(PC, branchAddr);
          }
        case 0x02 => encounteredBranch, savedBranch := true, jumpAddr;
        case 0x03 =>
          encounteredBranch := true;
          registers[31] := Add(PC, 4);
          savedBranch := jumpAddr;
        case 0x24 => loadAddress := LoadInto(f.rt, Add(a, signExtImm), 1);
        case 0x25 => loadAddress := LoadInto(f.rt, Add(a, signExtImm), 2);
        case 0x0f => registers[f.rt] := f.immediate as int * 0x1_0000;
        case 0x23 => loadAddress := LoadInto(f.rt, Add(a, signExtImm), 4);
        case 0x0d => registers[f.rt] := WordOp(Or, a, zeroExtImm);
        case 0x0a => registers[f.rt] := if Signed(a) < Signed(signExtImm) then 1 else 0;
        case 0x0b => registers[f.rt] := if a < signExtImm then 1 else 0;
        case 0x28 =>
          storeAddress := Add(a, signExtImm);
          var _ := memory.SetMemValue(storeAddress, b % 0x100, 1);
        case 0x29 =>
          storeAddress := Add(a, signExtImm);
          var _ := memory.SetMemValue(storeAddress, b % 0x1_0000, 2);
        case 0x2b =>
          storeAddress := Add(a, signExtImm);
          var _ := memory.SetMemValue(storeAddress, b, 4);
        case _ =>
          PC := 0x8000;
          isValid := false;
      }
    }

    /** The inner `switch` on the funct. */
    method DispatchRType(f: Fields) returns (isValid: bool, isOverflow: bool)
      requires Valid()
      modifies this, registers
      ensures Outcome(Model(), isValid, isOverflow, 0, 0) == ExecuteRType(old(Model()), f)
    {
      isValid, isOverflow := true, false;
      var a, b := registers[f.rs], registers[f.rt];
      match f.funct {
        case 0x20 =>
          if AddTraps(Signed(a), Signed(b)) {
            isOverflow := true;
            PC := 0x8000;
          } else {
            registers[f.rd] := Add(a, b);
          }
        case 0x21 => registers[f.rd] := Add(a, b);
        case 0x24 => registers[f.rd] := WordOp(And, a, b);
        case 0x08 => encounteredBranch, savedBranch := true, a;
        case 0x27 => registers[f.rd] := BitNot(WordOp(Or, a, b));
        case 0x25 => registers[f.rd] := WordOp(Or, a, b);
        case 0x2a => registers[f.rd] := if Signed(a) < Signed(b) then 1 else 0;
        case 0x2b => registers[f.rd] := if a < b then 1 else 0;
        case 0x00 => registers[f.rd] := ShiftLeft(b, f.shamt);
        case 0x02 => registers[f.rd] := Shr(b, f.shamt);
        case 0x22 => registers[f.rd] := Sub(a, b);
        case 0x23 =>
          if SubTraps(Signed(a), Signed(b)) {
            isOverflow := true;
            PC := 0x8000;
          } else {
            registers[f.rd] := Sub(a, b);
          }
        case _ => isValid := false;
      }
    }

    method LoadInto(r: RegId, address: Word, size: nat) returns (loadAddress: Word)
      requires Valid() && IsSize(size)
      modifies registers, memory.memArr
      ensures Outcome(Model(), true, false, loadAddress, 0) == LoadRegister(old(Model()), r, address, size)
    {
      loadAddress := address;
      var status, value := memory.GetMemValue(address, registers[r], size);
      registers[r] := value;
    }
  }
}
