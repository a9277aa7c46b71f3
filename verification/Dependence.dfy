/** Which instructions really depend on a register, and which of these dependences no detector sees.
    An instruction depends on register d when two machines that differ in d only can be told apart after
    executing it, by anything but what d held before; the value written counts even where the written register is 0.
    Register 0 itself is always clear when an instruction executes. */
module Dependence {
  import opened Words
  import opened Memory
  import opened Instructions
  import opened EmulatorModel
  import opened Hazards

  // ---------- What an instruction reads and writes ----------

  predicate IsShift(f: Fields) {
    f.funct == FUN_SLL || f.funct == FUN_SRL
  }

  /** R-type functs that compute a value from both operands. */
  predicate IsBinary(f: Fields) {
    f.funct in {FUN_ADD, FUN_ADDU, FUN_AND, FUN_NOR, FUN_OR, FUN_SLT, FUN_SLTU, FUN_SUB, FUN_SUBU}
  }

  predicate IsAluImm(f: Fields) {
    f.opcode in {OP_ADDI, OP_ADDIU, OP_ANDI, OP_ORI, OP_SLTI, OP_SLTIU}
  }

  predicate IsLoadOp(f: Fields) {
    f.opcode in {OP_LBU, OP_LHU, OP_LW}
  }

  predicate IsStoreOp(f: Fields) {
    f.opcode in {OP_SB, OP_SH, OP_SW}
  }

  predicate ReadsRs(f: Fields) {
    if f.opcode == OP_ZERO then IsBinary(f) || f.funct == FUN_JR
    else IsAluImm(f) || IsLoadOp(f) || IsStoreOp(f) || f.opcode in {OP_BEQ, OP_BNE, OP_BLEZ, OP_BGTZ}
  }

  predicate ReadsRt(f: Fields) {
    if f.opcode == OP_ZERO then IsBinary(f) || IsShift(f)
    else IsStoreOp(f) || f.opcode == OP_BEQ || f.opcode == OP_BNE
  }

  predicate Reads(f: Fields, d: RegId) {
    (ReadsRs(f) && f.rs == d) || (ReadsRt(f) && f.rt == d)
  }

  predicate Writes(f: Fields, d: RegId) {
    if f.opcode == OP_ZERO then (IsBinary(f) || IsShift(f)) && f.rd == d
    else if f.opcode == OP_JAL then d == 31
    else (IsAluImm(f) || IsLoadOp(f) || f.opcode == OP_LUI) && f.rt == d
  }

  /** Executing f on the machine in which d holds v instead has the same outcome, but for d itself keeping
      the foreign value where f does not overwrite it. */
  predicate Unaffected(m: Machine, f: Fields, d: RegId, v: Word) {
    var o, o' := Execute(m, f), Execute(Poke(m, d, v), f);
    o' == if Completes(o) && Writes(f, d) then o else o.(machine := Poke(o.machine, d, v))
  }

  ghost predicate DependsOn(f: Fields, d: RegId) {
    exists m: Machine, v: Word :: m.registers[0] == 0 && !Unaffected(m, f, d, v)
  }

  /** Reads registers but computes a constant: equal operands, an empty mask, or a comparison with zero that
      never holds. */
  predicate Determined(f: Fields) {
    if f.opcode == OP_ZERO then
      || (f.rs == f.rt && f.funct in {FUN_SUB, FUN_SUBU, FUN_SLT, FUN_SLTU})
      || (f.funct == FUN_AND && (f.rs == 0 || f.rt == 0))
      || (f.funct == FUN_SLTU && f.rt == 0)
    else
      || (f.rs == f.rt && (f.opcode == OP_BEQ || f.opcode == OP_BNE))
      || (f.immediate == 0 && (f.opcode == OP_ANDI || f.opcode == OP_SLTIU))
  }

  // ---------- What is not read does not matter ----------

  lemma RTypeUnread(m: Machine, f: Fields, d: RegId, v: Word)
    requires f.opcode == OP_ZERO && !Reads(f, d)
    ensures Unaffected(m, f, d, v)
  {
    hide WordOp, BitNot, ShiftLeft, Shr, AddTraps, SubTraps, Add, Sub, Signed;
    var p := Poke(m, d, v);
    var o := ExecuteRType(m, f);
    assert ReadsRs(f) ==> p.registers[f.rs] == m.registers[f.rs];
    assert ReadsRt(f) ==> p.registers[f.rt] == m.registers[f.rt];
    if Completes(o) && (IsBinary(f) || IsShift(f)) {
      var x := o.machine.registers[f.rd];
      assert o == SetRegister(m, f.rd, x);
      assert ExecuteRType(p, f) == SetRegister(p, f.rd, x);
      UpdatesCommute(m.registers, d, v, f.rd, x);
    }
  }

  lemma ImmUnread(m: Machine, f: Fields, d: RegId, v: Word)
    requires IsAluImm(f) && !Reads(f, d)
    ensures Unaffected(m, f, d, v)
  {
    ImmIndependent(m, f, d, v);
  }

  lemma MemoryUnread(m: Machine, f: Fields, d: RegId, v: Word)
    requires (IsLoadOp(f) || IsStoreOp(f) || f.opcode == OP_LUI) && !Reads(f, d)
    ensures Unaffected(m, f, d, v)
  {
    hide Load, Store, Add, SignExt;
    UpdatesCommute(m.registers, d, v, f.rt, Execute(m, f).machine.registers[f.rt]);
  }

  lemma ControlUnread(m: Machine, f: Fields, d: RegId, v: Word)
    requires f.opcode in {OP_BEQ, OP_BNE, OP_BLEZ, OP_BGTZ, OP_J, OP_JAL} && !Reads(f, d)
    ensures Unaffected(m, f, d, v)
  {
    hide Add, BranchOffset, JumpAddress;
    UpdatesCommute(m.registers, d, v, 31, Add(m.PC, 4));
  }

  /** An instruction is independent of every register it does not read. */
  lemma UnreadUnaffected(m: Machine, f: Fields, d: RegId, v: Word)
    requires !Reads(f, d)
    ensures Unaffected(m, f, d, v)
  {
    if f.opcode == OP_ZERO {
      RTypeUnread(m, f, d, v);
    } else if IsAluImm(f) {
      ImmUnread(m, f, d, v);
    } else if IsLoadOp(f) || IsStoreOp(f) || f.opcode == OP_LUI {
      MemoryUnread(m, f, d, v);
    } else if f.opcode in {OP_BEQ, OP_BNE, OP_BLEZ, OP_BGTZ, OP_J, OP_JAL} {
      ControlUnread(m, f, d, v);
    }
  }

  lemma AndZero(a: Word)
    ensures WordOp(And, a, 0) == 0 && WordOp(And, 0, a) == 0
  {
    AndZeroBits(a);
  }

  lemma {:induction false} AndZeroBits(a: nat)
    ensures Bitwise(And, a, 0) == 0 && Bitwise(And, 0, a) == 0
  {
    if a != 0 {
      AndZeroBits(a / 2);
    }
  }

  /** A determined instruction is independent of all registers. */
  lemma DeterminedUnaffected(m: Machine, f: Fields, d: RegId, v: Word)
    requires Determined(f) && m.registers[0] == 0 && d != 0
    ensures Unaffected(m, f, d, v)
  {
    hide WordOp;
    AndZero(m.registers[f.rs]);
    AndZero(m.registers[f.rt]);
    AndZero(v);
    UpdatesCommute(m.registers, d, v, f.rd, 0);
    UpdatesCommute(m.registers, d, v, f.rt, 0);
  }

  // ---------- What is read does matter ----------

  /** A machine whose registers are clear but for r. */
  function Bare(r: RegId, x: Word, address: Word): Machine {
    Machine(0, false, 0, seq(32, _ => 0)[r := x], Mem(address, [0, 0, 0, 0]), 0)
  }

  /** Machines that end with different values in a written register can be told apart. */
  lemma ToldByRegister(m: Machine, f: Fields, d: RegId, v: Word, r: RegId)
    requires m.registers[0] == 0 && Writes(f, r) && Completes(Execute(m, f))
    requires Execute(m, f).machine.registers[r] != Execute(Poke(m, d, v), f).machine.registers[r]
    ensures DependsOn(f, d)
  {
    hide Execute;
    assert !Unaffected(m, f, d, v);
  }

  lemma {:induction false} ShiftedOne(k: nat)
    ensures Shr(Shl(1, k), k) == 1 && Shl(1, k) == Pow2(k)
  {
    if k != 0 {
      ShiftedOne(k - 1);
      assert Shl(1, k) / 2 == Shl(1, k - 1);
    }
  }

  lemma ShiftDepends(f: Fields, d: RegId)
    requires f.opcode == OP_ZERO && IsShift(f) && d != 0 && f.rt == d
    ensures DependsOn(f, d)
  {
    hide Shl, Shr;
    ShiftedOne(f.shamt);
    Pow2Monotone(f.shamt, 31);
    Pow2Of32();
    assert Pow2(32) == 2 * Pow2(31);
    ShlZero(f.shamt);
    var m := Bare(0, 0, 0);
    if f.funct == FUN_SLL {
      ToldByRegister(m, f, d, 1, f.rd) by {
        ShiftedOne(f.shamt);
        assert ShiftLeft(1, f.shamt) == Pow2(f.shamt);
      }
    } else {
      ToldByRegister(m, f, d, Shl(1, f.shamt), f.rd);
    }
  }

  lemma BitwiseOfOne()
    ensures WordOp(And, 1, 1) == 1 && WordOp(And, 0, 1) == 0 && WordOp(And, 1, 0) == 0 && WordOp(And, 0, 0) == 0
    ensures WordOp(Or, 1, 1) == 1 && WordOp(Or, 0, 1) == 1 && WordOp(Or, 1, 0) == 1 && WordOp(Or, 0, 0) == 0
  {
    assert Bitwise(And, 0, 0) == 0 && Bitwise(Or, 0, 0) == 0;
  }

  lemma LogicDepends(f: Fields, d: RegId)
    requires f.opcode == OP_ZERO && f.funct in {FUN_AND, FUN_OR, FUN_NOR}
    requires d != 0 && Reads(f, d) && !Determined(f)
    ensures DependsOn(f, d)
  {
    hide WordOp;
    BitwiseOfOne();
    if f.funct == FUN_AND {
      ToldByRegister(Bare(if f.rs == d then f.rt else f.rs, if f.rs == f.rt then 0 else 1, 0), f, d, 1, f.rd);
    } else {
      ToldByRegister(Bare(0, 0, 0), f, d, 1, f.rd);
    }
  }

  lemma AddDepends(f: Fields, d: RegId)
    requires f.opcode == OP_ZERO && f.funct in {FUN_ADD, FUN_ADDU}
    requires d != 0 && Reads(f, d)
    ensures DependsOn(f, d)
  {
    var m := Bare(0, 0, 0);
    assert m.registers[f.rs] == 0 && m.registers[f.rt] == 0;
    assert Execute(m, f) == SetRegister(m, f.rd, 0);
    ToldByRegister(m, f, d, 1, f.rd);
  }

  lemma SubDepends(f: Fields, d: RegId)
    requires f.opcode == OP_ZERO && f.funct in {FUN_SUB, FUN_SUBU}
    requires d != 0 && Reads(f, d) && f.rs != f.rt
    ensures DependsOn(f, d)
  {
    var m := Bare(0, 0, 0);
    assert m.registers[f.rs] == 0 && m.registers[f.rt] == 0;
    assert Execute(m, f) == SetRegister(m, f.rd, 0);
    ToldByRegister(m, f, d, 1, f.rd);
  }

  lemma CompareDepends(f: Fields, d: RegId)
    requires f.opcode == OP_ZERO && (f.funct == FUN_SLT || f.funct == FUN_SLTU)
    requires d != 0 && Reads(f, d) && !Determined(f)
    ensures DependsOn(f, d)
  {
    if f.rt == d {
      ToldByRegister(Bare(0, 0, 0), f, d, 1, f.rd);
    } else if f.funct == FUN_SLT {
      ToldByRegister(Bare(0, 0, 0), f, d, 0x8000_0000, f.rd);
    } else {
      ToldByRegister(Bare(f.rt, 1, 0), f, d, 1, f.rd);
    }
  }

  lemma {:induction false} AndSelf(x: nat)
    ensures Bitwise(And, x, x) == x
  {
    if x != 0 {
      AndSelf(x / 2);
    }
  }

  /** A bit above the immediate survives an OR. */
  lemma OrAboveImmediate(h: Half)
    ensures WordOp(Or, 0x1_0000, h) == 0x1_0000 + h && WordOp(Or, 0, h) == h
  {
    Pow2Of16();
    ShiftsByBytes(1);
    JoinDisjoint(Or, 1, h, 16);
    JoinDisjoint(Or, 0, h, 16);
    ShlZero(16);
  }

  lemma ImmDepends(f: Fields, d: RegId)
    requires IsAluImm(f) && d != 0 && f.rs == d && !Determined(f)
    ensures DependsOn(f, d)
  {
    hide WordOp;
    var m, h := Bare(0, 0, 0), f.immediate;
    if f.opcode == OP_ADDI || f.opcode == OP_ADDIU {
      ToldByRegister(m, f, d, 1, f.rt);
    } else if f.opcode == OP_ANDI {
      AndZero(h);
      assert WordOp(And, h, h) == h by {
        AndIsSelf(h);
      }
      ToldByRegister(m, f, d, h, f.rt);
    } else if f.opcode == OP_ORI {
      OrAboveImmediate(h);
      ToldByRegister(m, f, d, 0x1_0000, f.rt);
    } else if f.opcode == OP_SLTI {
      ToldByRegister(m, f, d, if 0 < h < 0x8000 then 0x7fff_ffff else 0x8000_0000, f.rt);
    } else {
      ToldByRegister(m, f, d, 0xffff_ffff, f.rt);
    }
  }

  lemma AndIsSelf(h: Half)
    ensures WordOp(And, h, h) == h
  {
    AndSelf(h);
  }

  lemma BranchDepends(f: Fields, d: RegId)
    requires f.opcode in {OP_BEQ, OP_BNE, OP_BLEZ, OP_BGTZ} && d != 0 && Reads(f, d) && !Determined(f)
    ensures DependsOn(f, d)
  {
    hide Add, BranchOffset;
    assert !Unaffected(Bare(0, 0, 0), f, d, 1);
  }

  lemma JumpRegisterDepends(f: Fields, d: RegId)
    requires f.opcode == OP_ZERO && f.funct == FUN_JR && f.rs == d && d != 0
    ensures DependsOn(f, d)
  {
    assert !Unaffected(Bare(0, 0, 0), f, d, 1);
  }

  lemma AddressDepends(f: Fields, d: RegId)
    requires (IsLoadOp(f) || IsStoreOp(f)) && f.rs == d && d != 0
    ensures DependsOn(f, d)
  {
    hide Load, Store, SignExt;
    var m := Bare(0, 0, 0);
    var o, o' := Execute(m, f), Execute(Poke(m, d, 1), f);
    assert Add(0, SignExt(f.immediate)) != Add(1, SignExt(f.immediate));
    assert o.loadAddress != o'.loadAddress || o.storeAddress != o'.storeAddress;
    assert !Unaffected(m, f, d, 1);
  }

  /** The value stored reaches memory. */
  lemma DataDepends(f: Fields, d: RegId)
    requires IsStoreOp(f) && f.rt == d && f.rs != d && d != 0
    ensures DependsOn(f, d)
  {
    hide Store, SignExt;
    var address := SignExt(f.immediate);
    var m := Bare(0, 0, address);
    assert Offset(m.mem, address) == 0;
    assert Add(m.registers[f.rs], address) == address;
    StoredByte(m.mem, address, 0, StoreSize(f));
    StoredByte(m.mem, address, 1, StoreSize(f));
    assert Execute(m, f).machine.mem == Store(m.mem, address, 0, StoreSize(f));
    assert Execute(Poke(m, d, 1), f).machine.mem == Store(m.mem, address, 1, StoreSize(f));
    assert !Unaffected(m, f, d, 1);
  }

  function StoreSize(f: Fields): (size: nat)
    requires IsStoreOp(f)
    ensures IsSize(size)
  {
    if f.opcode == OP_SB then 1 else if f.opcode == OP_SH then 2 else 4
  }

  lemma StoredByte(m: Mem, address: Word, v: Word, size: nat)
    requires IsSize(size) && InRange(m, address, size)
    ensures Store(m, address, v, size).bytes[Offset(m, address) + size - 1] == v % 0x100
  {
    assert Covers(m, address, size, Offset(m, address) + size - 1);
  }

  // ---------- The exact dependences ----------

  /** An instruction depends on a register exactly when it reads it and is not determined. */
  lemma DependsIff(f: Fields, d: RegId)
    requires d != 0
    ensures DependsOn(f, d) <==> Reads(f, d) && !Determined(f)
  {
    hide DependsOn, Unaffected;
    if Reads(f, d) && !Determined(f) {
      ReadDepends(f, d);
    } else {
      NoDependence(f, d);
    }
  }

  lemma NoDependence(f: Fields, d: RegId)
    requires d != 0 && (!Reads(f, d) || Determined(f))
    ensures !DependsOn(f, d)
  {
    hide Unaffected, Reads, Determined;
    forall m: Machine, v: Word | m.registers[0] == 0
      ensures Unaffected(m, f, d, v)
    {
      if Determined(f) {
        DeterminedUnaffected(m, f, d, v);
      } else {
        UnreadUnaffected(m, f, d, v);
      }
    }
  }

  lemma ReadDepends(f: Fields, d: RegId)
    requires d != 0 && Reads(f, d) && !Determined(f)
    ensures DependsOn(f, d)
  {
    hide DependsOn;
    if f.opcode == OP_ZERO {
      if IsShift(f) {
        ShiftDepends(f, d);
      } else if f.funct == FUN_JR {
        JumpRegisterDepends(f, d);
      } else if f.funct in {FUN_AND, FUN_OR, FUN_NOR} {
        LogicDepends(f, d);
      } else if f.funct in {FUN_SLT, FUN_SLTU} {
        CompareDepends(f, d);
      } else if f.funct in {FUN_ADD, FUN_ADDU} {
        AddDepends(f, d);
      } else {
        SubDepends(f, d);
      }
    } else if IsAluImm(f) {
      ImmDepends(f, d);
    } else if f.opcode in {OP_BEQ, OP_BNE, OP_BLEZ, OP_BGTZ} {
      BranchDepends(f, d);
    } else if f.rs == d {
      AddressDepends(f, d);
    } else {
      DataDepends(f, d);
    }
  }

  // ---------- What the detectors miss ----------

  predicate IsJumpRegister(w: Word) {
    Opcode(w) == OP_ZERO && Funct(w) == FUN_JR
  }

  /** The four ways in which `use` reads t without any detector looking: the target of a JR, the base of a
      load or store, the data of a store, and an op that follows an op. */
  predicate OutOfSight(use: Word, dep: Word, t: RegId) {
    || (IsJumpRegister(use) && Rs(use) == t)
    || ((IsLoad(use) || IsStore(use)) && Rs(use) == t)
    || (IsStore(use) && Rt(use) == t)
    || (IsOp(use) && IsOp(dep) && Reads(Decode(use), t))
  }

  /** What is read after an op or a load is either detected or out of sight, never both. */
  lemma SeenOrOutOfSight(use: Word, dep: Word)
    requires (IsOp(dep) || IsLoad(dep)) && Target(dep) != 0
    ensures Reads(Decode(use), Target(dep)) && !Detected(use, dep) <==> OutOfSight(use, dep, Target(dep))
  {
    ClassesDisjoint(use);
    ClassesDisjoint(dep);
  }

  /** Exactly which dependences the detectors miss: after an op or a load whose target is t, an instruction
      depends on t without being detected if and only if it reads t out of sight and is not determined. */
  lemma MissedDependences(use: Word, dep: Word)
    requires (IsOp(dep) || IsLoad(dep)) && Target(dep) != 0
    ensures DependsOn(Decode(use), Target(dep)) && !Detected(use, dep)
      <==> OutOfSight(use, dep, Target(dep)) && !Determined(Decode(use))
  {
    hide DependsOn, Reads, Determined, Detected, OutOfSight;
    DependsIff(Decode(use), Target(dep));
    SeenOrOutOfSight(use, dep);
  }

  /** An undetected instruction that does not read t out of sight is independent of it. */
  lemma OthersIndependent(m: Machine, use: Word, dep: Word, v: Word)
    requires (IsOp(dep) || IsLoad(dep)) && Target(dep) != 0
    requires !Detected(use, dep) && !OutOfSight(use, dep, Target(dep))
    ensures Unaffected(m, Decode(use), Target(dep), v)
  {
    hide Unaffected, Reads, Detected, OutOfSight;
    SeenOrOutOfSight(use, dep);
    UnreadUnaffected(m, Decode(use), Target(dep), v);
  }

  /** Three of the four, on every machine: a different base gives a different address, and a different register
      a different jump. */
  lemma AddressesAndJumpsMissed(m: Machine, use: Word, dep: Word, v: Word)
    requires (IsOp(dep) || IsLoad(dep)) && Target(dep) != 0 && Rs(use) == Target(dep)
    requires v != m.registers[Rs(use)]
    requires IsJumpRegister(use) || IsLoad(use) || IsStore(use)
    ensures !Detected(use, dep)
    ensures var o, o' := Execute(m, Decode(use)), Execute(Poke(m, Target(dep), v), Decode(use));
      o'.machine.savedBranch != o.machine.savedBranch || o'.loadAddress != o.loadAddress
      || o'.storeAddress != o.storeAddress
  {
    hide Load, Store, SignExt, JumpAddress, BranchOffset, WordOp, AddTraps, SubTraps, Shl, Shr;
    ClassesDisjoint(use);
    assert Add(v, SignExt(Immediate(use))) != Add(m.registers[Rs(use)], SignExt(Immediate(use)));
  }

  // ---------- When the detectors fire for nothing ----------

  /** The ways in which a detected instruction may not depend on t: register 0 never changes, BLEZ and BGTZ do not read
      the register in their rt field, nor shifts the one in rs, nor unknown functs any, and a result may be
      determined. */
  predicate FalseAlarm(use: Word, t: RegId) {
    var f := Decode(use);
    || t == 0
    || (f.opcode in {OP_BLEZ, OP_BGTZ} && f.rs != t)
    || (f.opcode == OP_ZERO && IsShift(f) && f.rt != t)
    || (f.opcode == OP_ZERO && !IsShift(f) && !IsBinary(f))
    || Determined(f)
  }

  lemma ReadUnlessFalse(use: Word, dep: Word)
    requires Detected(use, dep) && Target(dep) != 0 && !Determined(Decode(use))
    ensures Reads(Decode(use), Target(dep)) <==> !FalseAlarm(use, Target(dep))
  {
    ClassesDisjoint(use);
    ClassesDisjoint(dep);
  }

  /** Exactly when a detector fires without a dependence, so that the pipeline stalls for nothing. */
  lemma FalseAlarmsIff(use: Word, dep: Word)
    requires Detected(use, dep)
    ensures Target(dep) == 0 || !DependsOn(Decode(use), Target(dep)) <==> FalseAlarm(use, Target(dep))
  {
    hide DependsOn, Reads, Determined, Detected;
    if Target(dep) != 0 {
      DependsIff(Decode(use), Target(dep));
      if !Determined(Decode(use)) {
        ReadUnlessFalse(use, dep);
      }
    }
  }
}
