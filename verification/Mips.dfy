/** A reference machine in the manner of the MIPS32 manual: two program counters instead of a pending
    branch, and a register 0 that reads as zero and ignores writes. An instruction is first read as an
    effect, then the effect is applied. The emulator is proved to simulate this machine step by step. */
module Mips {
  import opened Words
  import opened Memory
  import opened Instructions
  import opened EmulatorModel

  /** `pc` is the instruction to execute now, `npc` the one after it. */
  datatype Isa = Isa(pc: Word, npc: Word, gpr: Registers, mem: Mem, count: nat)

  datatype Effect =
    | Nothing
    | WriteGpr(r: RegId, v: Word)
    | LoadGpr(r: RegId, address: Word, size: nat)
    | WriteMemory(address: Word, v: Word, size: nat)
    | Jump(target: Word)
    | JumpAndLink(target: Word)
    | IntegerOverflow
    | ReservedOpcode
    | ReservedFunct

  function Gpr(s: Isa, r: RegId): Word {
    if r == 0 then 0 else s.gpr[r]
  }

  predicate FitsSigned(x: int) {
    -0x8000_0000 <= x < 0x8000_0000
  }

  /** A sum or difference that traps when it does not fit 32 signed bits. */
  function Trapping(r: RegId, x: int): Effect {
    if FitsSigned(x) then WriteGpr(r, Wrap(x)) else IntegerOverflow
  }

  function Quotient(b: Word, k: nat): Word {
    HighBits(b, k);
    b / Pow2(k)
  }

  function Truth(b: bool): Word {
    if b then 1 else 0
  }

  /** R-type instructions. As in the emulator, SUBU is the trapping subtraction and SUB the silent one. */
  function RTypeEffect(f: Fields, a: Word, b: Word): Effect {
    if f.funct == FUN_ADD then Trapping(f.rd, Signed(a) + Signed(b))
    else if f.funct == FUN_ADDU then WriteGpr(f.rd, Wrap(a + b))
    else if f.funct == FUN_SUBU then Trapping(f.rd, Signed(a) - Signed(b))
    else if f.funct == FUN_SUB then WriteGpr(f.rd, Wrap(a - b))
    else if f.funct == FUN_AND then WriteGpr(f.rd, WordOp(And, a, b))
    else if f.funct == FUN_OR then WriteGpr(f.rd, WordOp(Or, a, b))
    else if f.funct == FUN_NOR then WriteGpr(f.rd, WordOp(Xor, WordOp(Or, a, b), 0xffff_ffff))
    else if f.funct == FUN_SLT then WriteGpr(f.rd, Truth(Signed(a) < Signed(b)))
    else if f.funct == FUN_SLTU then WriteGpr(f.rd, Truth(a < b))
    else if f.funct == FUN_SLL then WriteGpr(f.rd, Wrap(b * Pow2(f.shamt)))
    else if f.funct == FUN_SRL then WriteGpr(f.rd, Quotient(b, f.shamt))
    else if f.funct == FUN_JR then Jump(a)
    else ReservedFunct
  }

  /** Branch targets are relative to the delay slot, whose address is `npc`. */
  function Branch(taken: bool, npc: Word, imm: int): Effect {
    if taken then Jump(Wrap(npc + 4 * imm)) else Nothing
  }

  /** The 256 MB region of the delay slot, joined with the instruction index shifted left by two. */
  function Region(npc: Word, index: Word): Word
    requires index < 0x400_0000
  {
    npc / 0x1000_0000 * 0x1000_0000 + index * 4
  }

  predicate Sized(e: Effect) {
    (e.LoadGpr? || e.WriteMemory?) ==> IsSize(e.size)
  }

  function EffectOf(f: Fields, a: Word, b: Word, npc: Word): (e: Effect)
    requires f.address < 0x400_0000
    ensures Sized(e)
  {
    var imm := SignedHalf(f.immediate);
    if f.opcode == OP_ZERO then RTypeEffect(f, a, b)
    else if f.opcode == OP_ADDI then Trapping(f.rt, Signed(a) + imm)
    else if f.opcode == OP_ADDIU then WriteGpr(f.rt, Wrap(a + imm))
    else if f.opcode == OP_ANDI then WriteGpr(f.rt, WordOp(And, a, f.immediate))
    else if f.opcode == OP_ORI then WriteGpr(f.rt, WordOp(Or, a, f.immediate))
    else if f.opcode == OP_LUI then WriteGpr(f.rt, f.immediate * 0x1_0000)
    else if f.opcode == OP_SLTI then WriteGpr(f.rt, Truth(Signed(a) < imm))
    else if f.opcode == OP_SLTIU then WriteGpr(f.rt, Truth(a < Wrap(imm)))
    else if f.opcode == OP_BEQ then Branch(a == b, npc, imm)
    else if f.opcode == OP_BNE then Branch(a != b, npc, imm)
    else if f.opcode == OP_BLEZ then Branch(Signed(a) <= 0, npc, imm)
    else if f.opcode == OP_BGTZ then Branch(Signed(a) > 0, npc, imm)
    else if f.opcode == OP_J then Jump(Region(npc, f.address))
    else if f.opcode == OP_JAL then JumpAndLink(Region(npc, f.address))
    else if f.opcode == OP_LBU then LoadGpr(f.rt, Wrap(a + imm), 1)
    else if f.opcode == OP_LHU then LoadGpr(f.rt, Wrap(a + imm), 2)
    else if f.opcode == OP_LW then LoadGpr(f.rt, Wrap(a + imm), 4)
    else if f.opcode == OP_SB then WriteMemory(Wrap(a + imm), b % 0x100, 1)
    else if f.opcode == OP_SH then WriteMemory(Wrap(a + imm), b % 0x1_0000, 2)
    else if f.opcode == OP_SW then WriteMemory(Wrap(a + imm), b, 4)
    else ReservedOpcode
  }

  function Write(gpr: Registers, r: RegId, v: Word): Registers {
    if r == 0 then gpr else gpr[r := v]
  }

  function Apply(s: Isa, e: Effect): Isa
    requires Sized(e)
  {
    var next := Isa(s.npc, Add(s.npc, 4), s.gpr, s.mem, s.count + 1);
    match e
    case Nothing => next
    case WriteGpr(r, v) => next.(gpr := Write(s.gpr, r, v))
    case LoadGpr(r, address, size) => next.(gpr := Write(s.gpr, r, Load(s.mem, address, size)))
    case WriteMemory(address, v, size) => next.(mem := Store(s.mem, address, v, size))
    case Jump(target) => next.(npc := target)
    case JumpAndLink(target) => next.(npc := target, gpr := Write(s.gpr, 31, Add(s.npc, 4)))
    case IntegerOverflow => next.(pc := 0x8000, npc := 0x8004)
    case ReservedOpcode => next.(pc := 0x8000, npc := 0x8004)
    case ReservedFunct => next
  }

  /** The fields of an instruction word, each cut out of it between its two bit positions. */
  function Parse(w: Word): (f: Fields)
    ensures f.address < 0x400_0000
  {
    FieldsAreBits(w);
    Fields(ExtractBits(w, 31, 26), ExtractBits(w, 25, 21), ExtractBits(w, 20, 16), ExtractBits(w, 15, 11),
           ExtractBits(w, 10, 6), ExtractBits(w, 5, 0), ExtractBits(w, 15, 0), ExtractBits(w, 25, 0))
  }

  function IsaEffect(s: Isa): (e: Effect)
    ensures Sized(e)
  {
    hide EffectOf, Parse, Load;
    var w := Load(s.mem, s.pc, 4);
    var f := Parse(w);
    if w == HALT then Nothing else EffectOf(f, Gpr(s, f.rs), Gpr(s, f.rt), s.npc)
  }

  function IsaStep(s: Isa): Isa {
    Apply(s, IsaEffect(s))
  }

  function IsaRun(s: Isa, n: nat): Isa {
    if n == 0 then s else IsaStep(IsaRun(s, n - 1))
  }

  // ---------- Simulation ----------

  /** The reference state an emulator state stands for: a pending branch is a diverted `npc`, and
      whatever register 0 holds counts as zero. */
  function Abs(m: Machine): Isa {
    Isa(m.PC, NextPC(m), m.registers[0 := 0], m.mem, m.din)
  }

  lemma AddTrapsIffOverflow(a: Word, b: Word)
    ensures AddTraps(Signed(a), Signed(b)) <==> !FitsSigned(Signed(a) + Signed(b))
    ensures Add(a, b) == Wrap(Signed(a) + Signed(b))
  {
  }

  lemma SubTrapsIffOverflow(a: Word, b: Word)
    ensures SubTraps(Signed(a), Signed(b)) <==> !FitsSigned(Signed(a) - Signed(b))
    ensures Sub(a, b) == Wrap(Signed(a) - Signed(b))
  {
  }

  lemma SignedSignExt(h: Half)
    ensures Signed(SignExt(h)) == SignedHalf(h) && SignExt(h) == Wrap(SignedHalf(h))
  {
  }

  lemma BranchTarget(npc: Word, f: Fields)
    ensures Add(npc, BranchOffset(f)) == Wrap(npc + 4 * SignedHalf(f.immediate))
  {
    ShlTwo(SignExt(f.immediate));
  }

  lemma JumpTarget(npc: Word, f: Fields)
    requires f.address < 0x400_0000
    ensures JumpAddress(npc, f) == Region(npc, f.address)
  {
    hide WordOp, Shl;
    var low: nat := 4 * f.address;
    ShlTwo(f.address);
    HighNibble(npc);
    JoinHighNibble(npc / 0x1000_0000, low);
    assert ShiftLeft(f.address, 2) == low;
  }

  lemma HighNibble(npc: Word)
    ensures WordOp(And, npc, 0xf000_0000) == npc / 0x1000_0000 * 0x1000_0000
  {
    ShiftBy28(npc);
    ShiftBy28(15);
    ShiftBy28(npc / 0x1000_0000);
    AndShifted(npc, 15, 28);
    AndFifteen(npc / 0x1000_0000);
  }

  lemma JoinHighNibble(high: nat, low: nat)
    requires high < 16 && low < 0x1000_0000
    ensures WordOp(Xor, high * 0x1000_0000, low) == high * 0x1000_0000 + low
  {
    Pow2Plus4(24);
    Pow2Plus4(20);
    Pow2Plus4(16);
    Pow2Of16();
    ShiftBy28(high);
    JoinDisjoint(Xor, high, low, 28);
  }

  lemma ShiftBy28(w: nat)
    ensures Shr(w, 28) == w / 0x1000_0000 && Shl(w, 28) == w * 0x1000_0000
  {
    ShiftsByBytes(w);
    ShrShr(w, 24, 4);
    ShiftsByFour(w / 0x100_0000);
    ShlShl(w, 24, 4);
    ShiftsByFour(w * 0x100_0000);
  }

  lemma AndFifteen(x: nat)
    requires x < 16
    ensures Bitwise(And, x, 15) == x
  {
    AndOnes(x, 4);
    assert Pow2(4) == 16;
  }

  lemma {:induction false} AndOnes(x: nat, k: nat)
    requires x < Pow2(k)
    ensures Bitwise(And, x, Pow2(k) - 1) == x
  {
    if k != 0 {
      AndOnes(x / 2, k - 1);
    }
  }

  /** The flags and addresses the emulator reports for an effect. */
  predicate ReportsEffect(o: Outcome, e: Effect) {
    && o.isOverflow == e.IntegerOverflow?
    && o.isValid == !(e.ReservedOpcode? || e.ReservedFunct?)
    && (e.LoadGpr? ==> o.loadAddress == e.address)
    && (e.WriteMemory? ==> o.storeAddress == e.address)
  }

  /** An `Isa` that is about to execute what `m` has just fetched: `m` is past `Advance`. */
  function Pending(m: Machine, pc: Word): Isa
    requires m.din > 0
  {
    Isa(pc, m.PC, m.registers, m.mem, m.din - 1)
  }

  lemma RTypeSimulates(m: Machine, f: Fields, pc: Word)
    requires m.din > 0 && m.registers[0] == 0 && !m.encounteredBranch
    ensures var e := RTypeEffect(f, m.registers[f.rs], m.registers[f.rt]);
      Sized(e) && Abs(ExecuteRType(m, f).machine) == Apply(Pending(m, pc), e) && ReportsEffect(ExecuteRType(m, f), e)
  {
    hide WordOp, BitNot, Shl, Shr, Pow2, AddTraps, SubTraps;
    ShlMultiplies(m.registers[f.rt], f.shamt);
    HighBits(m.registers[f.rt], f.shamt);
    ComplementIsXor(WordOp(Or, m.registers[f.rs], m.registers[f.rt]));
    AddTrapsIffOverflow(m.registers[f.rs], m.registers[f.rt]);
    SubTrapsIffOverflow(m.registers[f.rs], m.registers[f.rt]);
    WritesAgree(m.registers, f.rd);
  }

  lemma ComplementIsXor(a: Word)
    ensures BitNot(a) == WordOp(Xor, a, 0xffff_ffff)
  {
    Pow2Of32();
    XorOnes(a, 32);
  }

  lemma {:induction false} XorOnes(a: nat, n: nat)
    requires a < Pow2(n)
    ensures Bitwise(Xor, a, Pow2(n) - 1) == Pow2(n) - 1 - a
  {
    if n != 0 {
      XorOnes(a / 2, n - 1);
    }
  }

  lemma WritesAgree(g: Registers, r: RegId)
    requires g[0] == 0
    ensures g[0 := 0] == g
    ensures forall v: Word :: g[r := v][0 := 0] == Write(g, r, v)
  {
    assert g[0 := 0] == g;
    forall v: Word
      ensures g[r := v][0 := 0] == Write(g, r, v)
    {
      assert g[r := v][0 := 0] == Write(g, r, v);
    }
  }

  /** The claim about one instruction, for a machine that is past `Advance`. */
  predicate Simulated(m: Machine, f: Fields, pc: Word)
    requires m.din > 0 && f.address < 0x400_0000
  {
    var e := EffectOf(f, m.registers[f.rs], m.registers[f.rt], m.PC);
    Sized(e) && Abs(Execute(m, f).machine) == Apply(Pending(m, pc), e) && ReportsEffect(Execute(m, f), e)
  }

  predicate IsConditional(opcode: SixBits) {
    opcode in {OP_BEQ, OP_BNE, OP_BLEZ, OP_BGTZ}
  }

  predicate IsJump(opcode: SixBits) {
    opcode == OP_J || opcode == OP_JAL
  }

  predicate IsMemory(opcode: SixBits) {
    opcode in {OP_LBU, OP_LHU, OP_LW, OP_SB, OP_SH, OP_SW}
  }

  lemma ConditionalSimulates(m: Machine, f: Fields, pc: Word)
    requires m.din > 0 && m.registers[0] == 0 && !m.encounteredBranch
    requires f.address < 0x400_0000 && IsConditional(f.opcode)
    ensures Simulated(m, f, pc)
  {
    BranchTarget(m.PC, f);
    WritesAgree(m.registers, 0);
  }

  lemma JumpSimulates(m: Machine, f: Fields, pc: Word)
    requires m.din > 0 && m.registers[0] == 0 && !m.encounteredBranch
    requires f.address < 0x400_0000 && IsJump(f.opcode)
    ensures Simulated(m, f, pc)
  {
    JumpTarget(m.PC, f);
    WritesAgree(m.registers, 31);
  }

  lemma MemorySimulates(m: Machine, f: Fields, pc: Word)
    requires m.din > 0 && m.registers[0] == 0 && !m.encounteredBranch
    requires f.address < 0x400_0000 && IsMemory(f.opcode)
    ensures Simulated(m, f, pc)
  {
    hide Load, Store, SignExt, SignedHalf, ExecuteRType, RTypeEffect, JumpAddress, BranchOffset, Region, WordOp,
      AddTraps;
    AddSignExt(m.registers[f.rs], f.immediate);
    WritesAgree(m.registers, f.rt);
  }

  lemma ArithmeticSimulates(m: Machine, f: Fields, pc: Word)
    requires m.din > 0 && m.registers[0] == 0 && !m.encounteredBranch
    requires f.address < 0x400_0000 && f.opcode != OP_ZERO
    requires !IsConditional(f.opcode) && !IsJump(f.opcode) && !IsMemory(f.opcode)
    ensures Simulated(m, f, pc)
  {
    hide WordOp, AddTraps, ExecuteRType, RTypeEffect, JumpAddress, BranchOffset, Region, Load, Store;
    var a := m.registers[f.rs];
    SignedSignExt(f.immediate);
    AddTrapsIffOverflow(a, SignExt(f.immediate));
    AddSignExt(a, f.immediate);
    WritesAgree(m.registers, f.rt);
  }

  lemma ExecuteSimulates(m: Machine, f: Fields, pc: Word)
    requires m.din > 0 && m.registers[0] == 0 && !m.encounteredBranch
    requires f.address < 0x400_0000
    ensures Simulated(m, f, pc)
  {
    if f.opcode == OP_ZERO {
      RTypeSimulates(m, f, pc);
    } else if IsConditional(f.opcode) {
      ConditionalSimulates(m, f, pc);
    } else if IsJump(f.opcode) {
      JumpSimulates(m, f, pc);
    } else if IsMemory(f.opcode) {
      MemorySimulates(m, f, pc);
    } else {
      ArithmeticSimulates(m, f, pc);
    }
  }

  lemma ParseIsDecode(w: Word)
    ensures Parse(w) == Decode(w) && Decode(w).rs == Rs(w) && Decode(w).rt == Rt(w)
  {
    hide ExtractBits;
    DecodeIsBits(w);
  }

  /** What the reference machine executes is what the emulator has fetched. */
  lemma SameEffect(m: Machine)
    requires Fetched(m) != HALT
    ensures var next, f := Advance(m), Decode(Fetched(m));
      && f.address < 0x400_0000 && next.din > 0 && next.registers[0] == 0 && !next.encounteredBranch
      && Pending(next, m.PC) == Abs(m)
      && IsaEffect(Abs(m)) == EffectOf(f, next.registers[f.rs], next.registers[f.rt], next.PC)
  {
    hide EffectOf, Parse, Decode, Load;
    ParseIsDecode(Fetched(m));
  }

  lemma HaltSimulates(m: Machine)
    requires Fetched(m) == HALT
    ensures IsaEffect(Abs(m)) == Nothing && Abs(Step(m)) == IsaStep(Abs(m))
  {
    hide EffectOf, Parse, Load;
    assert m.registers[0 := 0][0 := 0] == m.registers[0 := 0];
  }

  /** One emulator step is one step of the reference machine. */
  lemma StepSimulates(m: Machine)
    ensures Abs(Step(m)) == IsaStep(Abs(m))
  {
    hide Execute, EffectOf, IsaEffect, Decode, Apply, Abs, Pending, Fetched, Advance;
    if Fetched(m) != HALT {
      SameEffect(m);
      ExecuteSimulates(Advance(m), Decode(Fetched(m)), m.PC);
    } else {
      HaltSimulates(m);
    }
  }

  /** The emulator reports the PC, the count, the word, the faults and the addresses of the reference machine. */
  lemma InfoSimulates(m: Machine)
    ensures Info(m).pc == Abs(m).pc && Info(m).instructionID == Abs(m).count && Info(m).nextPC == Abs(m).npc
    ensures Info(m).instruction == Load(Abs(m).mem, Abs(m).pc, 4)
    ensures Info(m).isHalt <==> Info(m).instruction == 0xfeed_feed
    ensures var e := IsaEffect(Abs(m));
      Info(m).isOverflow == e.IntegerOverflow? && Info(m).isValid == !(e.ReservedOpcode? || e.ReservedFunct?)
      && (e.LoadGpr? ==> Info(m).loadAddress == e.address)
      && (e.WriteMemory? ==> Info(m).storeAddress == e.address)
  {
    hide Execute, EffectOf, IsaEffect, Decode, Apply, Pending, Load;
    if Fetched(m) != HALT {
      SameEffect(m);
      ExecuteSimulates(Advance(m), Decode(Fetched(m)), m.PC);
    } else {
      HaltSimulates(m);
    }
  }

  /** A trap leaves no pending branch and changes neither registers nor memory. It goes to address 0x8000,
      except that an illegal funct lets execution continue, in a delay slot at the branch target. */
  lemma TrapsLeaveNoBranch(m: Machine)
    ensures Info(m).isOverflow || !Info(m).isValid ==>
      && !Step(m).encounteredBranch && Step(m).mem == m.mem && Step(m).registers == m.registers[0 := 0]
      && Step(m).PC == if !Info(m).isValid && Fetched(m) < 0x400_0000 then NextPC(m) else 0x8000
  {
    hide Load, Store, WordOp, SignExt, ShiftLeft, Shr;
  }

  /** Every run of the emulator is a run of the reference machine. */
  lemma {:induction false} RunSimulates(m: Machine, n: nat)
    ensures Abs(Run(m, n)) == IsaRun(Abs(m), n)
  {
    hide Step, IsaStep, Abs;
    if n != 0 {
      RunSimulates(m, n - 1);
      StepSimulates(Run(m, n - 1));
    }
  }

  // ---------- Single instructions, in terms of their words ----------

  /** What register r reads as. */
  function Reading(m: Machine, r: int): Word
    requires 0 <= r < 32
  {
    if r == 0 then 0 else m.registers[r]
  }

  /** SLL and SRL shift the register named by bits 16 to 20 by the number in bits 6 to 10. */
  lemma ShiftSteps(m: Machine)
    requires Fetched(m) < 0x400_0000 && Fetched(m) / 0x800 % 32 != 0
    ensures var w := Fetched(m);
      var b, k, v := Reading(m, w / 0x1_0000 % 32), w / 0x40 % 32, Step(m).registers[w / 0x800 % 32];
      (w % 64 == 0 ==> v == b * Pow2(k) % 0x1_0000_0000) && (w % 64 == 2 ==> v == b / Pow2(k))
  {
    hide Fetched, WordOp, Shl, Shr, Pow2, AddTraps, SubTraps;
    var w := Fetched(m);
    ShlMultiplies(Reading(m, w / 0x1_0000 % 32), w / 0x40 % 32);
    HighBits(Reading(m, w / 0x1_0000 % 32), w / 0x40 % 32);
  }

  /** AND, OR and NOR work on the bits of the two registers. */
  lemma LogicSteps(m: Machine, i: nat)
    requires Fetched(m) < 0x400_0000 && Fetched(m) / 0x800 % 32 != 0 && i < 32
    ensures var w := Fetched(m);
      var a, b := Reading(m, w / 0x20_0000 % 32), Reading(m, w / 0x1_0000 % 32);
      var v := Step(m).registers[w / 0x800 % 32];
      && (w % 64 == 0x24 ==> (BitAt(v, i) <==> BitAt(a, i) && BitAt(b, i)))
      && (w % 64 == 0x25 ==> (BitAt(v, i) <==> BitAt(a, i) || BitAt(b, i)))
      && (w % 64 == 0x27 ==> (BitAt(v, i) <==> !BitAt(a, i) && !BitAt(b, i)))
  {
    hide Fetched, WordOp, BitNot, BitAt, Shl, Shr, Pow2, AddTraps, SubTraps;
    var w := Fetched(m);
    var a, b := Reading(m, w / 0x20_0000 % 32), Reading(m, w / 0x1_0000 % 32);
    WordOpByBits(a, b, i);
    BitNotByBits(WordOp(Or, a, b), i);
  }

  /** After an overflow or an illegal opcode the word at address 0x8000 is fetched next. */
  lemma HandlerFetched(m: Machine)
    requires Info(m).isOverflow || (!Info(m).isValid && Fetched(m) >= 0x400_0000)
    ensures Fetched(Step(m)) == Load(m.mem, 0x8000, 4)
  {
    hide Step, Info, Load;
    TrapsLeaveNoBranch(m);
    FaultKinds(m);
  }
}
