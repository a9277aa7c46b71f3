/** Programs on which the pipeline does not do what it is for: a branch overtakes the value it needs, after a data
    miss, before a fault and in the flush after HALT; and a load passes MEM without the data cache being asked, in the
    last cycle of a stall and in the flush. They run through the emulator, over a memory that holds the program and
    zeros, from arbitrary register contents. */
module Witnesses {
  import opened Words
  import opened Memory
  import opened Instructions
  import opened EmulatorModel
  import opened CacheModel
  import opened Pipeline
  import opened History
  import opened Retirement
  import opened Lookups
  import opened Separation
  import opened Runs
  import opened Refinement

  const SW_0X100: Word := 0xac00_0100  // sw $0, 0x100($0)
  const ADDI_8: Word := 0x2008_0001    // addi $8, $0, 1
  const BEQ_8: Word := 0x1100_0000     // beq $8, $0, next
  const LW_8: Word := 0x8c08_0000      // lw $8, 0($0)
  const ILLEGAL: Word := 0xfc00_0000   // opcode 0x3f

  function Zeros(n: nat): seq<Byte> {
    seq(n, _ => 0)
  }

  const StoreBranch: seq<Byte> := [0xac, 0, 1, 0, 0x20, 8, 0, 1, 0x11, 0, 0, 0]
  const LoadOnly: seq<Byte> := [0x8c, 8, 0, 0]
  const LoadHalt: seq<Byte> := [0x8c, 8, 0, 0, 0xfe, 0xed, 0xfe, 0xed]
  const BranchHalt: seq<Byte> := [0x20, 8, 0, 1, 0x11, 0, 0, 0, 0xfe, 0xed, 0xfe, 0xed]
  const BranchFault: seq<Byte> := [0x20, 8, 0, 1, 0x11, 0, 0, 0, 0xfc, 0, 0, 0]

  // ---------- The emulator on these programs ----------

  /** About to execute the instruction at pc. */
  predicate At(m: Machine, pc: Word, bytes: seq<Byte>) {
    m.PC == pc && !m.encounteredBranch && m.mem == Mem(0, bytes)
  }

  predicate Plain(info: InstructionInfo, pc: Word, w: Word) {
    info.pc == pc && info.instruction == w && !Faulty(info) && !info.isHalt
  }

  lemma WordAt(bytes: seq<Byte>, m: Machine, pc: Word)
    requires At(m, pc, bytes)
    ensures Fetched(m) == ByteAt(bytes, pc) * 0x100_0000 + ByteAt(bytes, pc + 1) * 0x1_0000
                          + ByteAt(bytes, pc + 2) * 0x100 + ByteAt(bytes, pc + 3)
  {
    AssembleUnfolds(bytes, pc);
  }

  lemma NopStep(m: Machine, pc: Word, bytes: seq<Byte>)
    requires At(m, pc, bytes) && Fetched(m) == 0
    ensures Plain(Info(m), pc, 0) && At(Step(m), Add(pc, 4), bytes)
  {
    hide Fetched, JumpAddress, BranchOffset, WordOp, AddTraps, SubTraps, LoadRegister, StoreRegister;
  }

  lemma StoreStep(m: Machine, pc: Word, bytes: seq<Byte>)
    requires At(m, pc, bytes) && Fetched(m) == SW_0X100
    requires forall j :: 0x100 <= j < 0x104 ==> ByteAt(bytes, j) == 0
    ensures Plain(Info(m), pc, SW_0X100) && Info(m).storeAddress == 0x100 && At(Step(m), Add(pc, 4), bytes)
  {
    hide Fetched, ExecuteRType, JumpAddress, BranchOffset, WordOp, AddTraps, LoadRegister;
    StoreNothing(bytes);
  }

  lemma StoreNothing(bytes: seq<Byte>)
    requires forall j :: 0x100 <= j < 0x104 ==> ByteAt(bytes, j) == 0
    ensures Store(Mem(0, bytes), 0x100, 0, 4) == Mem(0, bytes)
  {
    forall j | 0 <= j < |bytes| && 0x100 <= j < 0x104
      ensures bytes[j] == 0
    {
      assert ByteAt(bytes, j) == 0;
    }
    StoreUnique(Mem(0, bytes), 0x100, 0, 4, bytes);
  }

  lemma AddStep(m: Machine, pc: Word, bytes: seq<Byte>)
    requires At(m, pc, bytes) && Fetched(m) == ADDI_8
    ensures Plain(Info(m), pc, ADDI_8) && At(Step(m), Add(pc, 4), bytes) && Step(m).registers[8] == 1
  {
    hide Fetched, ExecuteRType, JumpAddress, BranchOffset, WordOp, LoadRegister, StoreRegister;
  }

  lemma BranchStep(m: Machine, pc: Word, bytes: seq<Byte>)
    requires At(m, pc, bytes) && Fetched(m) == BEQ_8 && m.registers[8] == 1
    ensures Plain(Info(m), pc, BEQ_8) && At(Step(m), Add(pc, 4), bytes)
  {
    hide Fetched, ExecuteRType, JumpAddress, BranchOffset, WordOp, AddTraps, LoadRegister, StoreRegister, Decode;
    BranchFields();
    var f := Decode(BEQ_8);
    assert Execute(EmulatorModel.Advance(m), f)
        == BranchIf(EmulatorModel.Advance(m), false, Add(EmulatorModel.Advance(m).PC, BranchOffset(f)));
  }

  lemma BranchFields()
    ensures var f := Decode(BEQ_8);
      f.opcode == 4 && f.rs == 8 && f.rt == 0
  {
  }

  lemma LoadStep(m: Machine, pc: Word, bytes: seq<Byte>)
    requires At(m, pc, bytes) && Fetched(m) == LW_8
    ensures Plain(Info(m), pc, LW_8) && Info(m).loadAddress == 0 && At(Step(m), Add(pc, 4), bytes)
  {
    hide Fetched, Load, ExecuteRType, JumpAddress, BranchOffset, WordOp, AddTraps, StoreRegister;
  }

  lemma StoreBranchReports(m: Machine, n: nat)
    requires At(m, 0, StoreBranch + Zeros(n))
    ensures var r := Reports(m);
      Plain(r(0), 0, SW_0X100) && r(0).storeAddress == 0x100 && Plain(r(1), 4, ADDI_8) && Plain(r(2), 8, BEQ_8)
      && Plain(r(3), 12, 0) && Plain(r(4), 16, 0)
  {
    hide Info, Step, Fetched, At, Plain;
    var bytes := StoreBranch + Zeros(n);
    var m1 := Step(m);
    var m2 := Step(m1);
    var m3 := Step(m2);
    var m4 := Step(m3);
    WordAt(bytes, m, 0);
    StoreStep(m, 0, bytes);
    WordAt(bytes, m1, 4);
    AddStep(m1, 4, bytes);
    WordAt(bytes, m2, 8);
    BranchStep(m2, 8, bytes);
    WordAt(bytes, m3, 12);
    NopStep(m3, 12, bytes);
    WordAt(bytes, m4, 16);
    NopStep(m4, 16, bytes);
    RunUnfolds(m);
  }

  lemma RunUnfolds(m: Machine)
    ensures Run(m, 0) == m && Run(m, 1) == Step(m) && Run(m, 2) == Step(Step(m))
    ensures Run(m, 3) == Step(Step(Step(m))) && Run(m, 4) == Step(Step(Step(Step(m))))
  {
    hide Step;
    assert Run(m, 1) == Step(Run(m, 0));
    assert Run(m, 2) == Step(Run(m, 1));
    assert Run(m, 3) == Step(Run(m, 2));
  }

  lemma LoadOnlyReports(m: Machine, n: nat)
    requires At(m, 0, LoadOnly + Zeros(n))
    ensures var r := Reports(m);
      Plain(r(0), 0, LW_8) && r(0).loadAddress == 0 && Plain(r(1), 4, 0)
  {
    hide Info, Step, Fetched, At, Plain;
    var bytes := LoadOnly + Zeros(n);
    WordAt(bytes, m, 0);
    LoadStep(m, 0, bytes);
    WordAt(bytes, Step(m), 4);
    NopStep(Step(m), 4, bytes);
    RunUnfolds(m);
  }

  lemma LoadHaltReports(m: Machine, n: nat)
    requires At(m, 0, LoadHalt + Zeros(n))
    ensures var r := Reports(m);
      Plain(r(0), 0, LW_8) && r(0).loadAddress == 0 && r(1).isHalt && !Faulty(r(1))
  {
    hide Info, Step, Fetched, At, Plain;
    var bytes := LoadHalt + Zeros(n);
    WordAt(bytes, m, 0);
    LoadStep(m, 0, bytes);
    WordAt(bytes, Step(m), 4);
    FaultKinds(Step(m));
    HaltReported(Step(m));
    RunUnfolds(m);
  }

  lemma HaltReported(m: Machine)
    requires Fetched(m) == HALT
    ensures Info(m).isHalt && Info(m).instruction == HALT && !Faulty(Info(m))
  {
    hide Fetched, Execute;
  }

  lemma IllegalReported(m: Machine)
    requires Fetched(m) == ILLEGAL
    ensures !Info(m).isHalt && !Info(m).isValid && !Info(m).isOverflow
  {
    hide Fetched, ExecuteRType, JumpAddress, BranchOffset, WordOp, AddTraps, LoadRegister, StoreRegister;
  }

  /** The addition and the branch, with anything behind them. */
  lemma AddBranchReports(m: Machine, bytes: seq<Byte>)
    requires At(m, 0, bytes) && |bytes| >= 12 && bytes[..8] == BranchHalt[..8]
    ensures var r := Reports(m);
      && Plain(r(0), 0, ADDI_8) && Plain(r(1), 4, BEQ_8)
      && r(2) == Info(Run(m, 2)) && At(Run(m, 2), 8, bytes)
  {
    hide Info, Step, Fetched, At, Plain;
    assert forall j :: 0 <= j < 8 ==> ByteAt(bytes, j) == bytes[..8][j];
    WordAt(bytes, m, 0);
    AddStep(m, 0, bytes);
    WordAt(bytes, Step(m), 4);
    BranchStep(Step(m), 4, bytes);
    RunUnfolds(m);
  }

  lemma BranchHaltReports(m: Machine, n: nat)
    requires At(m, 0, BranchHalt + Zeros(n))
    ensures var r := Reports(m);
      Plain(r(0), 0, ADDI_8) && Plain(r(1), 4, BEQ_8) && r(2).isHalt && r(2).instruction == HALT && !Faulty(r(2))
  {
    hide Info, Fetched, At, Plain, Run;
    var bytes := BranchHalt + Zeros(n);
    AddBranchReports(m, bytes);
    WordAt(bytes, Run(m, 2), 8);
    HaltReported(Run(m, 2));
  }

  lemma BranchFaultReports(m: Machine, n: nat)
    requires At(m, 0, BranchFault + Zeros(n))
    ensures var r := Reports(m);
      Plain(r(0), 0, ADDI_8) && Plain(r(1), 4, BEQ_8) && !r(2).isHalt && !r(2).isValid && !r(2).isOverflow
  {
    hide Info, Fetched, At, Plain, Run;
    var bytes := BranchFault + Zeros(n);
    AddBranchReports(m, bytes);
    WordAt(bytes, Run(m, 2), 8);
    IllegalReported(Run(m, 2));
  }

  // ---------- Single calls ----------

  /** A faultless fetch. */
  lemma FetchCall(s: Sim, info: InstructionInfo)
    requires Ready(s) && WillFetch(s) && !s.halted && Plain(info, info.pc, info.instruction)
    ensures var c, i := Cycle(s, info), Ingest(s, info.instruction, AddressOf(info));
      && c.pipe.instr == i.pipe.instr && c.addresses == i.addresses
      && c.fetched == s.fetched + 1 && c.except == 0 && !c.halted
      && c.xStall == XStallOf(c.pipe.instr) && c.dStall == DStallOf(c.pipe.instr)
      && c.iMiss == (if Holds(s.iCache, info.pc) then 0 else s.iCache.config.missLatency)
      && c.iCache == AccessCache(s.iCache, info.pc)
      && c.dMiss == Penalty(i) && c.dCache == DCacheAfter(i)
  {
    hide Enter, Holds, AccessCache, XStallOf, DStallOf, AddressOf;
    EnterFields(Stamp(s).(fetched := s.fetched + 1), info);
  }

  /** A stall that does not ask the data cache. */
  lemma StallCall(s: Sim, info: InstructionInfo)
    requires Ready(s) && s.except == 0 && Stalled(s) && (StillStalled(s) ==> !Asks(Shift(s)))
    ensures Cycle(s, info) == Dump(CountDown(Shift(Stamp(s))))
  {
    hide Stall, Holds, AccessCache, IsLoad, IsStore;
    StallFields(Stamp(s));
  }

  /** The counters, and how many instructions have been fetched; nothing has faulted or halted. */
  predicate Waits(s: Sim, iMiss: nat, dMiss: nat, xStall: nat, fetched: nat) {
    && s.iMiss == iMiss && s.dMiss == dMiss && s.xStall == xStall && s.dStall == 0
    && s.except == 0 && !s.halted && s.fetched == fetched
  }

  predicate Contains(s: Sim, f: Word, d: Word, x: Word, m: Word) {
    s.pipe.instr.ifS == f && s.pipe.instr.idS == d && s.pipe.instr.exS == x && s.pipe.instr.memS == m
  }

  /** A fetch after which MEM holds neither load nor store. */
  lemma QuietFetch(s: Sim, info: InstructionInfo)
    requires Ready(s) && Waits(s, 0, 0, 0, s.fetched) && Plain(info, info.pc, info.instruction)
    requires !IsLoad(s.pipe.instr.exS) && !IsStore(s.pipe.instr.exS)
    ensures var c, p := Cycle(s, info), s.pipe.instr;
      && Contains(c, info.instruction, p.ifS, p.idS, p.exS)
      && c.addresses == s.addresses.Ingest(AddressOf(info))
      && (DStallOf(c.pipe.instr) == 0 ==>
            Waits(c, if Holds(s.iCache, info.pc) then 0 else s.iCache.config.missLatency, 0,
                  XStallOf(c.pipe.instr), s.fetched + 1))
      && c.iCache == AccessCache(s.iCache, info.pc) && c.dCache == s.dCache && |c.output| == |s.output| + 1
  {
    hide Cycle, Holds, AccessCache, XStallOf, DStallOf, AddressOf, IsLoad, IsStore;
    FetchCall(s, info);
    OrdinaryDumps(s, info);
  }

  // ---------- A branch overtakes its value ----------

  /** The words of the program wait for nothing, but the branch for the addition right before it. */
  lemma BranchWaits(p: Stages<Word>)
    ensures p.idS == 0 ==> XStallOf(p) == 0
    ensures p.idS == SW_0X100 && p.exS == 0 ==> XStallOf(p) == 0
    ensures p.idS == ADDI_8 && p.exS == SW_0X100 ==> XStallOf(p) == 0
    ensures p.idS == BEQ_8 && p.exS == ADDI_8 ==> XStallOf(p) == 1
    ensures p.ifS == SW_0X100 || p.ifS == ADDI_8 || p.ifS == 0 ==> DStallOf(p) == 0
    ensures p.ifS == BEQ_8 && p.idS == ADDI_8 && p.exS == SW_0X100 ==> DStallOf(p) == 0
  {
  }

  lemma WordClasses()
    ensures IsStore(SW_0X100) && !IsLoad(SW_0X100)
    ensures !IsLoad(ADDI_8) && !IsStore(ADDI_8) && !IsLoad(BEQ_8) && !IsStore(BEQ_8)
    ensures IsLoad(LW_8) && !IsStore(LW_8) && !IsLoad(0) && !IsStore(0)
  {
  }

  ghost predicate StoreBranchStream(infos: Stream) {
    && Plain(infos(0), 0, SW_0X100) && infos(0).storeAddress == 0x100 && Plain(infos(1), 4, ADDI_8)
    && Plain(infos(2), 8, BEQ_8) && Plain(infos(3), 12, 0) && Plain(infos(4), 16, 0)
  }

  lemma ThreeFetches(infos: Stream, i: CacheConfig, d: CacheConfig)
    requires ValidConfig(i) && ValidConfig(d) && i.missLatency == 0 && StoreBranchStream(infos)
    ensures var s := StateAt(infos, i, d, 3);
      && Waits(s, 0, 0, 0, 3) && Contains(s, BEQ_8, ADDI_8, SW_0X100, 0)
      && s.addresses.exS == 0x100 && s.dCache == Cold(d) && s.iCache.config == i
  {
    hide Cycle, XStallOf, DStallOf, IsLoad, IsStore, Holds, AccessCache, StateAt;
    var s0, s1 := StateAt(infos, i, d, 0), StateAt(infos, i, d, 1);
    var s2, s3 := StateAt(infos, i, d, 2), StateAt(infos, i, d, 3);
    WordClasses();
    StartState(infos, i, d);
    OneMoreCall(infos, i, d, 0);
    QuietFetch(s0, infos(0));
    BranchWaits(s1.pipe.instr);
    OneMoreCall(infos, i, d, 1);
    QuietFetch(s1, infos(1));
    BranchWaits(s2.pipe.instr);
    OneMoreCall(infos, i, d, 2);
    QuietFetch(s2, infos(2));
    BranchWaits(s3.pipe.instr);
  }

  lemma StartState(infos: Stream, i: CacheConfig, d: CacheConfig)
    requires ValidConfig(i) && ValidConfig(d)
    ensures var s := StateAt(infos, i, d, 0);
      && Waits(s, 0, 0, 0, 0) && Contains(s, 0, 0, 0, 0) && s.iCache == Cold(i) && s.dCache == Cold(d)
      && s.output == []
  {
    hide Cold;
  }

  /** The store misses in the very call that makes the branch wait for the addition. */
  lemma StoreMisses(infos: Stream, i: CacheConfig, d: CacheConfig)
    requires ValidConfig(i) && ValidConfig(d) && i.missLatency == 0 && d.missLatency == 1 && StoreBranchStream(infos)
    ensures var s := StateAt(infos, i, d, 4);
      Waits(s, 0, 1, 1, 4) && Contains(s, 0, BEQ_8, ADDI_8, SW_0X100) && s.iCache.config == i
  {
    hide Cycle, XStallOf, DStallOf, IsLoad, IsStore, AccessCache, StateAt, Index, Tag;
    ThreeFetches(infos, i, d);
    OneMoreCall(infos, i, d, 3);
    FetchCall(StateAt(infos, i, d, 3), infos(3));
    WordClasses();
    BranchWaits(StateAt(infos, i, d, 4).pipe.instr);
  }

  lemma FreezeUsesUpStall(infos: Stream, i: CacheConfig, d: CacheConfig)
    requires ValidConfig(i) && ValidConfig(d) && i.missLatency == 0 && d.missLatency == 1 && StoreBranchStream(infos)
    ensures var s := StateAt(infos, i, d, 5);
      Waits(s, 0, 0, 0, 4) && Contains(s, 0, BEQ_8, ADDI_8, SW_0X100)
  {
    hide Cycle, StateAt;
    StoreMisses(infos, i, d);
    OneMoreCall(infos, i, d, 4);
    StallCall(StateAt(infos, i, d, 4), infos(4));
  }

  lemma BranchOvertakes(infos: Stream, i: CacheConfig, d: CacheConfig)
    requires ValidConfig(i) && ValidConfig(d) && i.missLatency == 0 && d.missLatency == 1 && StoreBranchStream(infos)
    ensures var s := StateAt(infos, i, d, 6);
      s.pipe.instr.exS == BEQ_8 && s.pipe.instr.memS == ADDI_8 && !Separated(s.pipe.instr)
  {
    hide Cycle, StateAt, XStallOf, DStallOf, AddressOf, Holds, AccessCache;
    FreezeUsesUpStall(infos, i, d);
    OneMoreCall(infos, i, d, 5);
    FetchCall(StateAt(infos, i, d, 5), infos(4));
    BranchDetected();
  }

  lemma BranchDetected()
    ensures OpBranch(BEQ_8, ADDI_8) == 1
  {
  }

  /** A data miss that ends together with the stall of EX: after six calls the branch is in EX and the addition that
      writes its register still in MEM. The program is sw, addi, beq and nops; data misses cost one cycle,
      instruction misses none, and the data cache is any whatever. */
  lemma HazardAfterMiss(m: Machine, n: nat, i: CacheConfig, d: CacheConfig)
    requires At(m, 0, StoreBranch + Zeros(n))
    requires ValidConfig(i) && ValidConfig(d) && i.missLatency == 0 && d.missLatency == 1
    ensures var p := SystemRun(StartOf(m, i, d), 6).sim.pipe.instr;
      p.exS == BEQ_8 && p.memS == ADDI_8 && !Separated(p)
  {
    hide At, Plain, StateAt, SystemRun, Separated;
    StoreBranchReports(m, n);
    BranchOvertakes(Reports(m), i, d);
    Coupled(m, i, d, 6);
  }

  // ---------- A branch overtakes its value without a miss ----------

  ghost predicate AddBranchStream(infos: Stream) {
    Plain(infos(0), 0, ADDI_8) && Plain(infos(1), 4, BEQ_8)
  }

  lemma ShortWaits(p: Stages<Word>)
    ensures p.idS == 0 ==> XStallOf(p) == 0
    ensures p.idS == ADDI_8 && p.exS == 0 ==> XStallOf(p) == 0
    ensures p.ifS == ADDI_8 ==> DStallOf(p) == 0
    ensures p.ifS == BEQ_8 && p.idS == ADDI_8 && p.exS == 0 ==> DStallOf(p) == 0
  {
  }

  lemma TwoFetches(infos: Stream, i: CacheConfig, d: CacheConfig)
    requires ValidConfig(i) && ValidConfig(d) && i.missLatency == 0 && AddBranchStream(infos)
    ensures var s := StateAt(infos, i, d, 2);
      Waits(s, 0, 0, 0, 2) && Contains(s, BEQ_8, ADDI_8, 0, 0) && |s.output| == 2
  {
    hide Cycle, XStallOf, DStallOf, IsLoad, IsStore, Holds, AccessCache, StateAt;
    var s0, s1, s2 := StateAt(infos, i, d, 0), StateAt(infos, i, d, 1), StateAt(infos, i, d, 2);
    WordClasses();
    StartState(infos, i, d);
    OneMoreCall(infos, i, d, 0);
    QuietFetch(s0, infos(0));
    ShortWaits(s1.pipe.instr);
    OneMoreCall(infos, i, d, 1);
    QuietFetch(s1, infos(1));
    ShortWaits(s2.pipe.instr);
  }

  /** The second pipe state that a HALT call dumps. */
  lemma SecondDump(s: Sim, info: InstructionInfo)
    requires Ready(s) && EntersHalt(s, info)
    ensures var c := Cycle(s, info);
      && |c.output| == |s.output| + 5 && c.halted
      && c.output[|s.output| + 1].instr == s.pipe.instr.Ingest(info.instruction).Ingest(0)
  {
    hide Cycle, Enter;
    CycleFetches(s, info);
    var t := Stamp(s).(fetched := s.fetched + 1);
    HaltDumps(s, info);
    EnterShifts(t, info);
    assert Cycle(s, info).output[|s.output| + 1] == FlushDumps(Enter(t, info))[1];
  }

  lemma FlushOvertakes(infos: Stream, i: CacheConfig, d: CacheConfig)
    requires ValidConfig(i) && ValidConfig(d) && i.missLatency == 0 && AddBranchStream(infos)
    requires infos(2).isHalt && !Faulty(infos(2))
    ensures var s := StateAt(infos, i, d, 3);
      s.halted && |s.output| == 7 && s.output[3].instr.exS == BEQ_8 && s.output[3].instr.memS == ADDI_8
  {
    hide Cycle, StateAt;
    TwoFetches(infos, i, d);
    OneMoreCall(infos, i, d, 2);
    SecondDump(StateAt(infos, i, d, 2), infos(2));
  }

  /** The flush after HALT waits for nobody: with no miss and no fault, the branch is in EX and the addition in MEM in
      the fourth pipe state dumped. The program is addi, beq, HALT; the data cache is any whatever. */
  lemma HazardInFlush(m: Machine, n: nat, i: CacheConfig, d: CacheConfig)
    requires At(m, 0, BranchHalt + Zeros(n)) && ValidConfig(i) && ValidConfig(d) && i.missLatency == 0
    ensures var s := SystemRun(StartOf(m, i, d), 3).sim;
      && s.halted && |s.output| == 7 && s.output[3].instr.exS == BEQ_8 && s.output[3].instr.memS == ADDI_8
      && !AllApart(s.output)
  {
    hide At, Plain, StateAt, SystemRun;
    BranchHaltReports(m, n);
    FlushOvertakes(Reports(m), i, d);
    Coupled(m, i, d, 3);
    BranchDetected();
    assert !Separated(SystemRun(StartOf(m, i, d), 3).sim.output[3].instr);
  }

  /** A faulting fetch lets an empty slot enter and looks at no hazard, and so does the bubble after it. */
  lemma FaultCall(s: Sim, info: InstructionInfo)
    requires Ready(s) && WillFetch(s) && !s.halted && !info.isValid && !info.isOverflow
    ensures var c := Cycle(s, info);
      c.except == 1 && !c.halted && c.pipe.instr == s.pipe.instr.Ingest(0)
  {
  }

  lemma BubbleCall(s: Sim, info: InstructionInfo)
    requires Ready(s) && s.except > 0
    ensures Cycle(s, info).pipe.instr == s.pipe.instr.Ingest(0)
  {
  }

  lemma BubbleOvertakes(infos: Stream, i: CacheConfig, d: CacheConfig)
    requires ValidConfig(i) && ValidConfig(d) && i.missLatency == 0 && AddBranchStream(infos)
    requires !infos(2).isValid && !infos(2).isOverflow
    ensures var p := StateAt(infos, i, d, 4).pipe.instr;
      p.exS == BEQ_8 && p.memS == ADDI_8
  {
    hide Cycle, StateAt;
    TwoFetches(infos, i, d);
    OneMoreCall(infos, i, d, 2);
    FaultCall(StateAt(infos, i, d, 2), infos(2));
    OneMoreCall(infos, i, d, 3);
    BubbleCall(StateAt(infos, i, d, 3), infos(StateAt(infos, i, d, 3).fetched));
  }

  /** A fault lets the branch overtake: after four calls it is in EX and the addition still in MEM. The program is addi,
      beq and an illegal instruction; the data cache is any whatever. */
  lemma HazardAfterFault(m: Machine, n: nat, i: CacheConfig, d: CacheConfig)
    requires At(m, 0, BranchFault + Zeros(n)) && ValidConfig(i) && ValidConfig(d) && i.missLatency == 0
    ensures var p := SystemRun(StartOf(m, i, d), 4).sim.pipe.instr;
      p.exS == BEQ_8 && p.memS == ADDI_8 && !Separated(p)
  {
    hide At, Plain, StateAt, SystemRun;
    BranchFaultReports(m, n);
    BubbleOvertakes(Reports(m), i, d);
    Coupled(m, i, d, 4);
    BranchDetected();
  }

  // ---------- A load is never looked up ----------

  ghost predicate LoadStream(infos: Stream) {
    Plain(infos(0), 0, LW_8) && infos(0).loadAddress == 0 && Plain(infos(1), 4, 0)
  }

  /** With blocks of four bytes, every word is a block of its own. */
  lemma NextWordMisses(c: CacheConfig)
    requires ValidConfig(c) && c.blockSize == 4
    ensures !Holds(Cold(c), 0) && !Holds(AccessCache(Cold(c), 0), 4)
  {
    assert CountBits(4) == 1 + CountBits(2);
    assert Shr(0, 2) == Shr(0, 1);
    assert Shr(4, 2) == Shr(2, 1);
    assert Block(c, 0) != Block(c, 4);
    TagAndIndexNameBlock(c, 0, 4);
    hide Tag, Index, Block;
  }

  lemma LoadWaits(p: Stages<Word>)
    ensures (p.ifS == 0 || p.ifS == LW_8) ==> DStallOf(p) == 0
    ensures (p.idS == 0 || p.idS == LW_8) ==> XStallOf(p) == 0
  {
  }

  /** The load enters IF and waits there for its block. */
  lemma LoadEnters(infos: Stream, i: CacheConfig, d: CacheConfig)
    requires ValidConfig(i) && ValidConfig(d) && i.missLatency == 2 && i.blockSize == 4 && LoadStream(infos)
    ensures var s := StateAt(infos, i, d, 1);
      Waits(s, 2, 0, 0, 1) && Contains(s, LW_8, 0, 0, 0) && s.iCache == AccessCache(Cold(i), 0)
  {
    hide Cycle, XStallOf, DStallOf, IsLoad, IsStore, AccessCache, StateAt, Holds;
    WordClasses();
    StartState(infos, i, d);
    NextWordMisses(i);
    OneMoreCall(infos, i, d, 0);
    QuietFetch(StateAt(infos, i, d, 0), infos(0));
    LoadWaits(StateAt(infos, i, d, 1).pipe.instr);
  }

  /** A stall cycle of an instruction miss with nothing in MEM afterwards that could be asked for. */
  lemma MissCall(s: Sim, info: InstructionInfo)
    requires Ready(s) && Waits(s, s.iMiss, 0, 0, s.fetched) && s.iMiss > 0 && s.pipe.instr.exS == 0
    ensures var c := Cycle(s, info);
      && Waits(c, s.iMiss - 1, 0, 0, s.fetched) && Contains(c, s.pipe.instr.ifS, 0, s.pipe.instr.idS, 0)
      && c.iCache == s.iCache
  {
    hide Cycle, IsLoad, IsStore, AccessCache, Holds;
    WordClasses();
    StallCall(s, info);
  }

  lemma BlockArrives(infos: Stream, i: CacheConfig, d: CacheConfig)
    requires ValidConfig(i) && ValidConfig(d) && i.missLatency == 2 && i.blockSize == 4 && LoadStream(infos)
    ensures var s := StateAt(infos, i, d, 3);
      Waits(s, 0, 0, 0, 1) && Contains(s, LW_8, 0, 0, 0) && s.iCache == AccessCache(Cold(i), 0)
  {
    hide Cycle, AccessCache, Cold, StateAt;
    LoadEnters(infos, i, d);
    OneMoreCall(infos, i, d, 1);
    MissCall(StateAt(infos, i, d, 1), infos(1));
    OneMoreCall(infos, i, d, 2);
    MissCall(StateAt(infos, i, d, 2), infos(1));
  }

  lemma NextEnters(infos: Stream, i: CacheConfig, d: CacheConfig)
    requires ValidConfig(i) && ValidConfig(d) && i.missLatency == 2 && i.blockSize == 4 && LoadStream(infos)
    ensures var s := StateAt(infos, i, d, 4);
      Waits(s, 2, 0, 0, 2) && Contains(s, 0, LW_8, 0, 0)
  {
    hide Cycle, XStallOf, DStallOf, IsLoad, IsStore, AccessCache, StateAt, Holds;
    WordClasses();
    BlockArrives(infos, i, d);
    NextWordMisses(i);
    OneMoreCall(infos, i, d, 3);
    QuietFetch(StateAt(infos, i, d, 3), infos(1));
    LoadWaits(StateAt(infos, i, d, 4).pipe.instr);
  }

  lemma LoadInEx(infos: Stream, i: CacheConfig, d: CacheConfig)
    requires ValidConfig(i) && ValidConfig(d) && i.missLatency == 2 && i.blockSize == 4 && LoadStream(infos)
    requires Sound(infos)
    ensures var s, h := StateAt(infos, i, d, 5), HistoryAt(infos, i, d, 5);
      Waits(s, 1, 0, 0, 2) && Contains(s, 0, 0, LW_8, 0) && h.tok.exS == Instr(0)
  {
    hide Cycle, StateAt, HistoryAt, Once, Waiting, AddressOf, Sound;
    NextEnters(infos, i, d);
    OneMoreCall(infos, i, d, 4);
    MissCall(StateAt(infos, i, d, 4), infos(2));
    LookupFacts(infos, i, d, 5);
  }

  lemma LoadInMem(infos: Stream, i: CacheConfig, d: CacheConfig)
    requires ValidConfig(i) && ValidConfig(d) && i.missLatency == 2 && i.blockSize == 4 && LoadStream(infos)
    requires Sound(infos)
    ensures Contains(StateAt(infos, i, d, 6), 0, 0, 0, LW_8)
  {
    hide Cycle, StateAt, HistoryAt, Sound;
    LoadInEx(infos, i, d);
    OneMoreCall(infos, i, d, 5);
    StallCall(StateAt(infos, i, d, 5), infos(2));
  }

  /** A load that reaches MEM in the last cycle of an instruction miss: though it has an address, it is in no
      call, early or late, one of the instructions the data cache is asked for. The program is lw and nops;
      instruction misses cost two cycles and blocks have four bytes; the data cache is any whatever. */
  lemma LoadNeverLookedUp(m: Machine, n: nat, i: CacheConfig, d: CacheConfig, calls: nat)
    requires At(m, 0, LoadOnly + Zeros(n))
    requires ValidConfig(i) && ValidConfig(d) && i.missLatency == 2 && i.blockSize == 4
    ensures HasAddress(Reports(m)(0)) && 0 !in HistoryAt(Reports(m), i, d, calls).lookups
    ensures Contains(SystemRun(StartOf(m, i, d), 6).sim, 0, 0, 0, LW_8)
  {
    hide At, StateAt, HistoryAt, SystemRun, Sound, IsLoad, IsStore, AddressOf, Reports, Stalled;
    var infos := Reports(m);
    LoadOnlyReports(m, n);
    ReportsSound(m);
    LoadAddressed(infos(0));
    LoadInEx(infos, i, d);
    LoadInMem(infos, i, d);
    Coupled(m, i, d, 6);
    NeverAsked(infos, i, d, calls);
  }

  lemma LoadAddressed(info: InstructionInfo)
    requires Plain(info, info.pc, LW_8) && info.loadAddress == 0
    ensures HasAddress(info)
  {
    WordClasses();
  }

  lemma NeverAsked(infos: Stream, i: CacheConfig, d: CacheConfig, calls: nat)
    requires ValidConfig(i) && ValidConfig(d) && Sound(infos)
    requires Waits(StateAt(infos, i, d, 5), 1, 0, 0, 2) && HistoryAt(infos, i, d, 5).tok.exS == Instr(0)
    ensures 0 !in HistoryAt(infos, i, d, calls).lookups
  {
    hide StateAt, HistoryAt, Sound, HasAddress;
    EntryDecides(infos, i, d, 5, calls + 6, 0);
    if 0 in HistoryAt(infos, i, d, calls).lookups {
      StaysLookedUp(infos, i, d, calls, calls + 6, 0);
    }
  }

  lemma LoadInIf(infos: Stream, i: CacheConfig, d: CacheConfig)
    requires ValidConfig(i) && ValidConfig(d) && i.missLatency == 0 && Plain(infos(0), 0, LW_8) && Sound(infos)
    ensures Waits(StateAt(infos, i, d, 1), 0, 0, 0, 1) && HistoryAt(infos, i, d, 1).tok.ifS == Instr(0)
  {
    hide Cycle, XStallOf, DStallOf, IsLoad, IsStore, AccessCache, Holds, StateAt, HistoryAt, Once, Waiting, Sound,
      AddressOf;
    WordClasses();
    StartState(infos, i, d);
    OneMoreCall(infos, i, d, 0);
    QuietFetch(StateAt(infos, i, d, 0), infos(0));
    LoadWaits(StateAt(infos, i, d, 1).pipe.instr);
    LookupFacts(infos, i, d, 1);
  }

  /** A load right before HALT: the flush takes it through MEM, and it is in no call looked up. The program is lw, HALT;
      the data cache is any whatever. */
  lemma LoadDrained(m: Machine, n: nat, i: CacheConfig, d: CacheConfig, calls: nat)
    requires At(m, 0, LoadHalt + Zeros(n)) && ValidConfig(i) && ValidConfig(d) && i.missLatency == 0
    ensures HasAddress(Reports(m)(0)) && 0 !in HistoryAt(Reports(m), i, d, calls).lookups
    ensures SystemRun(StartOf(m, i, d), 2).sim.halted
  {
    hide At, StateAt, HistoryAt, SystemRun, Sound, IsLoad, IsStore;
    var infos := Reports(m);
    LoadHaltReports(m, n);
    ReportsSound(m);
    WordClasses();
    LoadInIf(infos, i, d);
    HaltStops(infos, i, d, 1);
    Coupled(m, i, d, 2);
    DrainedUnasked(infos, i, d, 1, calls, 0);
  }
}
