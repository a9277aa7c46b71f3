/** The pipeline's hazard detectors, judged by what instructions do in the emulator. */
module Hazards {
  import opened Words
  import opened Instructions
  import opened EmulatorModel

  /** The class pairs the three detectors look at: branch after op, branch after load, op after load. */
  predicate DetectorPair(use: Word, dep: Word) {
    || (IsBranch(use) && (IsOp(dep) || IsLoad(dep)))
    || (IsOp(use) && IsLoad(dep))
  }

  predicate Detected(use: Word, dep: Word) {
    OpBranch(use, dep) != 0 || LoadBranch(use, dep) != 0 || LoadOp(use, dep) != 0
  }

  /** The machine with register r holding v instead. */
  function Poke(m: Machine, r: RegId, v: Word): Machine {
    m.(registers := m.registers[r := v])
  }

  predicate Completes(o: Outcome) {
    o.isValid && !o.isOverflow
  }

  /** An op or load writes no register but its target, and leaves memory alone. */
  lemma WritesOnlyTarget(m: Machine, dep: Word)
    requires IsOp(dep) || IsLoad(dep)
    ensures var after := Execute(m, Decode(dep)).machine;
      after.mem == m.mem && forall r: RegId :: r != Target(dep) ==> after.registers[r] == m.registers[r]
  {
    ClassesDisjoint(dep);
  }

  lemma BranchIndependent(m: Machine, f: Fields, d: RegId, v: Word)
    requires f.opcode in {OP_BEQ, OP_BNE, OP_BLEZ, OP_BGTZ} && f.rs != d && f.rt != d
    ensures var o, o' := Execute(m, f), Execute(Poke(m, d, v), f);
      o' == o.(machine := Poke(o.machine, d, v))
  {
  }

  lemma ImmIndependent(m: Machine, f: Fields, d: RegId, v: Word)
    requires f.opcode in {OP_ADDI, OP_ADDIU, OP_ANDI, OP_ORI, OP_SLTI, OP_SLTIU} && f.rs != d
    ensures var o, o' := Execute(m, f), Execute(Poke(m, d, v), f);
      o' == if Completes(o) && f.rt == d then o else o.(machine := Poke(o.machine, d, v))
  {
    UpdatesCommute(m.registers, d, v, f.rt, Execute(m, f).machine.registers[f.rt]);
  }

  lemma RopIndependent(m: Machine, f: Fields, d: RegId, v: Word)
    requires f.funct != FUN_JR && f.rs != d && f.rt != d
    ensures var o, o' := ExecuteRType(m, f), ExecuteRType(Poke(m, d, v), f);
      o' == if Completes(o) && f.rd == d then o else o.(machine := Poke(o.machine, d, v))
  {
    hide WordOp, BitNot, Shl, Shr, AddTraps, SubTraps, Add, Sub, Signed;
    var p := Poke(m, d, v);
    assert p.registers[f.rs] == m.registers[f.rs] && p.registers[f.rt] == m.registers[f.rt];
    var o := ExecuteRType(m, f);
    if Completes(o) {
      var x := o.machine.registers[f.rd];
      assert o == SetRegister(m, f.rd, x);
      assert ExecuteRType(p, f) == SetRegister(p, f.rd, x);
      UpdatesCommute(m.registers, d, v, f.rd, x);
    }
  }

  lemma UpdatesCommute(g: Registers, d: RegId, v: Word, r: RegId, x: Word)
    ensures g[d := v][r := x] == if r == d then g[r := x] else g[r := x][d := v]
  {
    assert g[d := v][r := x] == if r == d then g[r := x] else g[r := x][d := v];
  }

  /** Soundness: when no detector fires for a pair they look at, `use` takes the same branch, raises the same
      trap and writes the same value whatever the target register of `dep` holds; that register
      itself keeps the foreign value unless `use` overwrites it. */
  lemma UndetectedMeansIndependent(m: Machine, use: Word, dep: Word, v: Word)
    requires DetectorPair(use, dep) && !Detected(use, dep)
    ensures var d := Target(dep);
      var o, o' := Execute(m, Decode(use)), Execute(Poke(m, d, v), Decode(use));
      o' == if IsOp(use) && Completes(o) && Target(use) == d then o else o.(machine := Poke(o.machine, d, v))
  {
    var d := Target(dep);
    ClassesDisjoint(use);
    ClassesDisjoint(dep);
    if IsBranch(use) {
      BranchIndependent(m, Decode(use), d, v);
    } else if IsImm(use) {
      ImmIndependent(m, Decode(use), d, v);
    } else {
      RopIndependent(m, Decode(use), d, v);
    }
  }

  // ---------- When the detectors fire ----------

  /** One of the two source fields of `use`, whether or not it is read. */
  predicate Names(use: Word, r: int) {
    use / 0x20_0000 % 32 == r || use / 0x1_0000 % 32 == r
  }

  predicate Branches(w: Word) {
    w / 0x400_0000 in {4, 5, 6, 7}
  }

  predicate Loads(w: Word) {
    w / 0x400_0000 in {0x23, 0x24, 0x25}
  }

  predicate ComputesImm(w: Word) {
    w / 0x400_0000 in {8, 9, 0xa, 0xb, 0xc, 0xd}
  }

  predicate ComputesR(w: Word) {
    0 < w < 0x400_0000 && w % 64 != 8
  }

  /** The delays, read off the bits of the two words: a branch waits for an op or a load whose destination field either
      of its source fields names, an op for such a load; an immediate op by its first source field alone. */
  lemma DetectorsByFields(use: Word, dep: Word)
    ensures var rt, rd := dep / 0x1_0000 % 32, dep / 0x800 % 32;
      && OpBranch(use, dep) == (if Branches(use) && ((ComputesImm(dep) && Names(use, rt))
                                                     || (ComputesR(dep) && Names(use, rd))) then 1 else 0)
      && LoadBranch(use, dep) == (if Branches(use) && Loads(dep) && Names(use, rt) then 2 else 0)
      && LoadOp(use, dep) == (if Loads(dep) && ((ComputesImm(use) && use / 0x20_0000 % 32 == rt)
                                                || (ComputesR(use) && Names(use, rt))) then 1 else 0)
  {
    OpcodeZero(use);
    OpcodeZero(dep);
  }

  lemma OpcodeZero(w: Word)
    ensures w < 0x400_0000 <==> w / 0x400_0000 == 0
  {
  }
}
