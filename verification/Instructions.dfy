/** Instruction words: their bit fields and the classes the pipeline sorts them into. */
module Instructions {
  import opened Words

  const HALT: Word := 0xfeed_feed

  // Opcodes
  const OP_ZERO := 0x0
  const OP_ADDI := 0x8
  const OP_ADDIU := 0x9
  const OP_ANDI := 0xc
  const OP_ORI := 0xd
  const OP_SLTI := 0xa
  const OP_SLTIU := 0xb
  const OP_LUI := 0xf
  const OP_LBU := 0x24
  const OP_LHU := 0x25
  const OP_LW := 0x23
  const OP_SB := 0x28
  const OP_SH := 0x29
  const OP_SW := 0x2b
  const OP_BEQ := 0x4
  const OP_BNE := 0x5
  const OP_BLEZ := 0x6
  const OP_BGTZ := 0x7
  const OP_J := 0x2
  const OP_JAL := 0x3

  // Functs of R-type instructions
  const FUN_ADD := 0x20
  const FUN_ADDU := 0x21
  const FUN_AND := 0x24
  const FUN_JR := 0x08
  const FUN_NOR := 0x27
  const FUN_OR := 0x25
  const FUN_SLT := 0x2a
  const FUN_SLTU := 0x2b
  const FUN_SLL := 0x00
  const FUN_SRL := 0x02
  const FUN_SUB := 0x22
  const FUN_SUBU := 0x23

  // ---------- Fields ----------

  type SixBits = n: int | 0 <= n < 64
  type RegId = r: int | 0 <= r < 32

  /** `extractBits`, and `extract` of the pipeline: bits start down to end. */
  function ExtractBits(instruction: Word, start: nat, end: nat): nat
    requires end <= start < 32
  {
    Low(Shr(instruction, end), start - end + 1)
  }

  function Opcode(w: Word): SixBits { w / 0x400_0000 }
  function Rs(w: Word): RegId { w / 0x20_0000 % 32 }
  function Rt(w: Word): RegId { w / 0x1_0000 % 32 }
  function Rd(w: Word): RegId { w / 0x800 % 32 }
  function Shamt(w: Word): RegId { w / 0x40 % 32 }
  function Funct(w: Word): SixBits { w % 64 }
  function Immediate(w: Word): Half { w % 0x1_0000 }
  function Address(w: Word): (a: Word)
    ensures a < 0x400_0000
  {
    w % 0x400_0000
  }

  /** The fields by division are the fields by shifting and masking. */
  lemma FieldsAreBits(w: Word)
    ensures ExtractBits(w, 31, 26) == Opcode(w)
    ensures ExtractBits(w, 25, 21) == Rs(w)
    ensures ExtractBits(w, 20, 16) == Rt(w)
    ensures ExtractBits(w, 15, 11) == Rd(w)
    ensures ExtractBits(w, 10, 6) == Shamt(w)
    ensures ExtractBits(w, 5, 0) == Funct(w)
    ensures ExtractBits(w, 15, 0) == Immediate(w)
    ensures ExtractBits(w, 25, 0) == Address(w)
  {
    hide ExtractBits;
    ExtractDivides(w, 31, 26, 0x400_0000, 64);
    ExtractDivides(w, 25, 21, 0x20_0000, 32);
    ExtractDivides(w, 20, 16, 0x1_0000, 32);
    ExtractDivides(w, 15, 11, 0x800, 32);
    ExtractDivides(w, 10, 6, 0x40, 32);
    ExtractDivides(w, 5, 0, 1, 64);
    ExtractDivides(w, 15, 0, 1, 0x1_0000);
    ExtractDivides(w, 25, 0, 1, 0x400_0000);
  }

  lemma ExtractDivides(w: Word, start: nat, end: nat, d: nat, m: nat)
    requires end <= start < 32
    requires d >= 1 && IsPower(d, end) && m >= 1 && IsPower(m, start - end + 1)
    ensures ExtractBits(w, start, end) == w / d % m
  {
    Powers(end);
    Powers(start - end + 1);
    HighBits(w, end);
    LowBits(Shr(w, end), start - end + 1);
  }

  /** d is 2^k, for the shift amounts and field widths in use. */
  predicate IsPower(d: nat, k: nat) {
    d == match k
      case 0 => 1
      case 5 => 32
      case 6 => 64
      case 11 => 0x800
      case 16 => 0x1_0000
      case 21 => 0x20_0000
      case 26 => 0x400_0000
      case _ => 0
  }

  lemma Powers(k: nat)
    ensures forall d: nat :: d >= 1 && IsPower(d, k) ==> Pow2(k) == d
  {
    assert Pow2(4) == 16;
    assert Pow2(5) == 2 * Pow2(4);
    assert Pow2(6) == 2 * Pow2(5);
    assert Pow2(7) == 2 * Pow2(6);
    Pow2Plus4(7);
    assert Pow2(12) == 2 * Pow2(11);
    Pow2Plus4(12);
    assert Pow2(17) == 2 * Pow2(16);
    Pow2Plus4(17);
    assert Pow2(22) == 2 * Pow2(21);
    Pow2Plus4(22);
  }

  datatype Fields = Fields(opcode: SixBits, rs: RegId, rt: RegId, rd: RegId, shamt: RegId, funct: SixBits,
                           immediate: Half, address: Word)

  function Decode(w: Word): Fields {
    Fields(Opcode(w), Rs(w), Rt(w), Rd(w), Shamt(w), Funct(w), Immediate(w), Address(w))
  }

  /** The fields lie side by side: opcode, rs, rt, rd, shift amount and funct make up the word, the last three the
      immediate, and all but the opcode the jump index. */
  lemma FieldsMakeWord(w: Word)
    ensures var f := Decode(w);
      && w == f.opcode * 0x400_0000 + f.rs * 0x20_0000 + f.rt * 0x1_0000 + f.rd * 0x800 + f.shamt * 0x40 + f.funct
      && f.immediate == f.rd * 0x800 + f.shamt * 0x40 + f.funct
      && f.address == f.rs * 0x20_0000 + f.rt * 0x1_0000 + f.immediate
  {
    var a := w / 0x40;
    var b := a / 0x20;
    var c := b / 0x20;
    var d := c / 0x20;
    assert b == w / 0x800 && c == w / 0x1_0000 && d == w / 0x20_0000 && d / 0x20 == w / 0x400_0000;
  }

  /** What is handed on to execution are the bit ranges of the word. */
  lemma DecodeIsBits(w: Word)
    ensures var f := Decode(w);
      && f.opcode == ExtractBits(w, 31, 26) && f.rs == ExtractBits(w, 25, 21) && f.rt == ExtractBits(w, 20, 16)
      && f.rd == ExtractBits(w, 15, 11) && f.shamt == ExtractBits(w, 10, 6) && f.funct == ExtractBits(w, 5, 0)
      && f.immediate == ExtractBits(w, 15, 0) && f.address == ExtractBits(w, 25, 0)
  {
    hide ExtractBits;
    FieldsAreBits(w);
  }

  // ---------- Classes ----------

  predicate IsLoad(w: Word) {
    w != 0 && (Opcode(w) == OP_LBU || Opcode(w) == OP_LHU || Opcode(w) == OP_LW)
  }

  predicate IsStore(w: Word) {
    w != 0 && (Opcode(w) == OP_SB || Opcode(w) == OP_SH || Opcode(w) == OP_SW)
  }

  predicate IsBranch(w: Word) {
    w != 0 && (Opcode(w) == OP_BEQ || Opcode(w) == OP_BNE || Opcode(w) == OP_BLEZ || Opcode(w) == OP_BGTZ)
  }

  /** Immediate arithmetic; LUI is not in this class. */
  predicate IsImm(w: Word) {
    || Opcode(w) == OP_ADDI || Opcode(w) == OP_ADDIU || Opcode(w) == OP_ANDI
    || Opcode(w) == OP_ORI || Opcode(w) == OP_SLTI || Opcode(w) == OP_SLTIU
  }

  /** Every R-type except JR, whatever its funct. */
  predicate IsRop(w: Word) {
    w != 0 && Opcode(w) == OP_ZERO && Funct(w) != FUN_JR
  }

  predicate IsOp(w: Word) {
    w != 0 && (IsImm(w) || IsRop(w))
  }

  // ---------- Hazard detectors ----------

  /** The register an op or a load is taken to write. */
  function Target(dep: Word): RegId {
    if IsRop(dep) then Rd(dep) else Rt(dep)
  }

  function OpBranch(use: Word, dep: Word): nat {
    if IsBranch(use) && IsOp(dep) then
      var target := if IsImm(dep) then Rt(dep) else Rd(dep);
      if Rs(use) == target || Rt(use) == target then 1 else 0
    else 0
  }

  function LoadBranch(use: Word, dep: Word): nat {
    if IsBranch(use) && IsLoad(dep) && (Rs(use) == Rt(dep) || Rt(use) == Rt(dep)) then 2 else 0
  }

  function LoadOp(use: Word, dep: Word): nat {
    if IsOp(use) && IsLoad(dep) then
      var target := Rt(dep);
      if IsImm(use) then if Rs(use) == target then 1 else 0
      else if Rs(use) == target || Rt(use) == target then 1 else 0
    else 0
  }

  /** The four classes are disjoint, and an empty slot belongs to none. */
  lemma ClassesDisjoint(w: Word)
    ensures !(IsLoad(w) && IsStore(w)) && !(IsLoad(w) && IsBranch(w)) && !(IsLoad(w) && IsOp(w))
    ensures !(IsStore(w) && IsBranch(w)) && !(IsStore(w) && IsOp(w)) && !(IsBranch(w) && IsOp(w))
    ensures !IsLoad(0) && !IsStore(0) && !IsBranch(0) && !IsOp(0) && !IsRop(0)
    ensures !IsLoad(HALT) && !IsStore(HALT) && !IsBranch(HALT) && !IsOp(HALT)
  {
  }
}
