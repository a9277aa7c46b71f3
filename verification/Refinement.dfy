/** The cycle simulator as a whole, timing machine and emulator together, against the functional simulator:
    a stuttering refinement that halts exactly when the functional run does, with the same machine. */
module Refinement {
  import opened Words
  import opened Memory
  import opened Instructions
  import opened EmulatorModel
  import opened CacheModel
  import opened Pipeline
  import opened History
  import opened Retirement
  import opened Runs
  import opened Accounting
  import opened Lookups

  datatype System = System(sim: Sim, machine: Machine)

  /** `runCycles(1)` with the emulator it drives: the emulator moves only when an instruction is fetched. */
  function SystemCycle(y: System): (y': System)
    requires Ready(y.sim)
    ensures Ready(y'.sim)
  {
    System(Cycle(y.sim, Info(y.machine)), if WillFetch(y.sim) then Step(y.machine) else y.machine)
  }

  /** n calls, as `runTillHalt` makes them. */
  function SystemRun(y: System, n: nat): (y': System)
    requires Ready(y.sim)
    ensures Ready(y'.sim)
  {
    if n == 0 then y
    else
      var p := SystemRun(y, n - 1);
      if p.sim.halted then p else SystemCycle(p)
  }

  /** The same state, ready to run on to the next HALT. */
  function Resumed(y: System): System {
    y.(sim := y.sim.(halted := false))
  }

  lemma RunStart(y: System)
    requires Ready(y.sim)
    ensures SystemRun(y, 0) == y
  {
  }

  lemma OneMoreSystemCall(y: System, n: nat)
    requires Ready(y.sim)
    ensures var p := SystemRun(y, n);
      SystemRun(y, n + 1) == if p.sim.halted then p else SystemCycle(p)
  {
    hide SystemCycle;
  }

  /** After HALT no call follows. */
  lemma {:induction false} HaltedStays(y: System, n: nat, k: nat)
    requires Ready(y.sim) && n <= k && SystemRun(y, n).sim.halted
    ensures SystemRun(y, k) == SystemRun(y, n)
  {
    hide SystemCycle;
    if n < k {
      HaltedStays(y, n, k - 1);
    }
  }

  function StartOf(m: Machine, iConfig: CacheConfig, dConfig: CacheConfig): (y: System)
    requires ValidConfig(iConfig) && ValidConfig(dConfig)
    ensures Ready(y.sim)
  {
    System(Initial(iConfig, dConfig), m)
  }

  /** The reports of the functional run from machine m. */
  function Reports(m: Machine): Stream {
    (k: nat) => InfoAt(m, k)
  }

  lemma ReportsSound(m: Machine)
    ensures Sound(Reports(m))
  {
    hide Info;
    forall k: nat
      ensures (Reports(m)(k).isHalt <==> Reports(m)(k).instruction == HALT)
           && (Reports(m)(k).isHalt ==> !Faulty(Reports(m)(k)))
    {
      FaultKinds(Run(m, k));
    }
  }

  /** A call that executes no instruction does not look at the report. */
  lemma ReportUnused(s: Sim, info: InstructionInfo, info': InstructionInfo)
    requires Ready(s) && !WillFetch(s)
    ensures Cycle(s, info) == Cycle(s, info')
  {
    hide Stall, Enter, Fetch;
  }

  /** The coupling: after n calls the timing machine is where the stream of functional reports puts it, and the
      emulator is the functional machine after as many instructions as have been fetched. */
  lemma {:induction false} Coupled(m: Machine, iConfig: CacheConfig, dConfig: CacheConfig, n: nat)
    requires ValidConfig(iConfig) && ValidConfig(dConfig)
    ensures var y := SystemRun(StartOf(m, iConfig, dConfig), n);
      y.sim == StateAt(Reports(m), iConfig, dConfig, n) && y.machine == Run(m, y.sim.fetched)
  {
    hide Cycle, Step, Info, Initial;
    if n == 0 {
      InitialFetched(iConfig, dConfig);
    } else {
      Coupled(m, iConfig, dConfig, n - 1);
      var p := SystemRun(StartOf(m, iConfig, dConfig), n - 1);
      var info := Info(p.machine);
      assert Reports(m)(p.sim.fetched) == info;
      CycleFetches(p.sim, info);
    }
  }

  lemma InitialFetched(iConfig: CacheConfig, dConfig: CacheConfig)
    requires ValidConfig(iConfig) && ValidConfig(dConfig)
    ensures Initial(iConfig, dConfig).fetched == 0
  {
  }

  /** Soundness of the refinement: when the cycle run has halted, the functional run halts after exactly as many
      instructions as were fetched, in the same machine: registers, memory, PC and instruction count. */
  lemma CycleHaltIsFunctionalHalt(m: Machine, iConfig: CacheConfig, dConfig: CacheConfig, n: nat)
    requires ValidConfig(iConfig) && ValidConfig(dConfig)
    requires SystemRun(StartOf(m, iConfig, dConfig), n).sim.halted
    ensures var y := SystemRun(StartOf(m, iConfig, dConfig), n);
      HaltsAfter(m, y.sim.fetched) && y.machine == Run(m, y.sim.fetched)
  {
    hide StateAt, HistoryAt, SystemRun, InOrder, Traced, Steady, Ledger, Balanced,
      StallsBounded, Once, ICacheReplays, DCacheReplays, InfoAt, Sound, Run;
    Coupled(m, iConfig, dConfig, n);
    ReportsSound(m);
    RunFacts(Reports(m), iConfig, dConfig, n);
    var y := SystemRun(StartOf(m, iConfig, dConfig), n);
    forall k: nat | k < y.sim.fetched - 1
      ensures !InfoAt(m, k).isHalt
    {
      assert Reports(m)(k) == InfoAt(m, k);
    }
    assert Reports(m)(y.sim.fetched - 1) == InfoAt(m, y.sim.fetched - 1);
  }

  /** Completeness: when the functional run halts after n instructions, the cycle run halts within the cycle bound,
      whatever the cache configurations, in the same machine after n instructions. */
  lemma FunctionalHaltIsCycleHalt(m: Machine, iConfig: CacheConfig, dConfig: CacheConfig, n: nat, calls: nat)
    requires ValidConfig(iConfig) && ValidConfig(dConfig)
    requires HaltsAfter(m, n) && calls > CycleBound(Reports(m), iConfig, dConfig, n - 1)
    ensures var y := SystemRun(StartOf(m, iConfig, dConfig), calls);
      y.sim.halted && y.sim.fetched == n && y.machine == Run(m, n)
  {
    hide StateAt, SystemRun, InfoAt, Sound, Run, CycleBound;
    assert Reports(m)(n - 1) == InfoAt(m, n - 1);
    ReportsSound(m);
    HaltsInTime(Reports(m), iConfig, dConfig, n, calls);
    Coupled(m, iConfig, dConfig, calls);
    CycleHaltIsFunctionalHalt(m, iConfig, dConfig, calls);
    HaltUnique(m, n, SystemRun(StartOf(m, iConfig, dConfig), calls).sim.fetched);
  }

  /** The cycle run halts if and only if the functional run does. */
  lemma HaltsIff(m: Machine, iConfig: CacheConfig, dConfig: CacheConfig)
    requires ValidConfig(iConfig) && ValidConfig(dConfig)
    ensures (exists n: nat :: SystemRun(StartOf(m, iConfig, dConfig), n).sim.halted)
       <==> (exists n: nat :: HaltsAfter(m, n))
  {
    hide SystemRun, HaltsAfter, CycleBound;
    if n: nat :| SystemRun(StartOf(m, iConfig, dConfig), n).sim.halted {
      CycleHaltIsFunctionalHalt(m, iConfig, dConfig, n);
    }
    if n: nat :| HaltsAfter(m, n) {
      HaltPositive(m, n);
      FunctionalHaltIsCycleHalt(m, iConfig, dConfig, n, CycleBound(Reports(m), iConfig, dConfig, n - 1) + 1);
    }
  }

  /** There are programs that halt: one whose first word is HALT. */
  lemma SomeProgramHalts(m: Machine, rest: seq<Byte>)
    requires m.PC == 0 && m.mem == Mem(0, [0xfe, 0xed, 0xfe, 0xed] + rest)
    ensures HaltsAfter(m, 1)
  {
    hide Execute, Decode;
    AssembleUnfolds(m.mem.bytes, 0);
    assert Run(m, 0) == m;
    assert Fetched(m) == HALT;
  }

  /** Cycle counts of two cache configurations differ only in time: halted runs of the same program end in the same
      machine. */
  lemma CachesDoNotMatter(m: Machine, i: CacheConfig, d: CacheConfig, i': CacheConfig, d': CacheConfig, n: nat, n': nat)
    requires ValidConfig(i) && ValidConfig(d) && ValidConfig(i') && ValidConfig(d')
    requires SystemRun(StartOf(m, i, d), n).sim.halted && SystemRun(StartOf(m, i', d'), n').sim.halted
    ensures SystemRun(StartOf(m, i, d), n).machine == SystemRun(StartOf(m, i', d'), n').machine
  {
    hide SystemRun, Run, HaltsAfter;
    CycleHaltIsFunctionalHalt(m, i, d, n);
    CycleHaltIsFunctionalHalt(m, i', d', n');
    HaltUnique(m, SystemRun(StartOf(m, i, d), n).sim.fetched, SystemRun(StartOf(m, i', d'), n').sim.fetched);
  }

  /** The address a load or store carries through the pipeline is its effective address in the functional run. */
  lemma TrueAddress(m: Machine, k: nat)
    ensures IsLoad(InfoAt(m, k).instruction) || IsStore(InfoAt(m, k).instruction) ==>
      AddressOf(Reports(m)(k)) == EffectiveAddress(Run(m, k).registers, Fetched(Run(m, k)))
  {
    hide Step, Execute, EffectiveAddress;
    InfoAddress(Run(m, k));
    ClassesDisjoint(Fetched(Run(m, k)));
  }

  /** A halted cycle run of a program, measured and displayed: N instructions take at least N cycles, the fault bubbles,
      the latency of the instruction misses or of the data misses, and 4, and at most the bound; the WB column
      shows exactly the faultless non-nop instructions of the functional run in order, ending in HALT, and
      the instruction cache has seen exactly their PCs. */
  lemma HaltedRun(m: Machine, iConfig: CacheConfig, dConfig: CacheConfig, calls: nat)
    requires ValidConfig(iConfig) && ValidConfig(dConfig)
    requires SystemRun(StartOf(m, iConfig, dConfig), calls).sim.halted
    ensures var s := SystemRun(StartOf(m, iConfig, dConfig), calls).sim;
      var ids := Faultless(Reports(m), s.fetched);
      && s.fetched > 0 && LeastCycles(s, Reports(m), iConfig, dConfig) <= s.cycleCount
      && s.cycleCount <= s.fetched * (1 + Max(iConfig.missLatency, 2))
                         + dConfig.missLatency * MemoryOps(Reports(m), s.fetched) + 4
      && Displayed(s.output) == InstructionsOf(Reports(m), ids)
      && Displayed(s.output) != [] && Displayed(s.output)[|Displayed(s.output)| - 1] == HALT
      && s.iCache == Replay(Cold(iConfig), Pcs(Reports(m), ids))
  {
    hide SystemRun, StateAt, HistoryAt, Displayed, InstructionsOf, Faultless, LeastCycles, MissesBefore, Replay, Sound,
      Run, MemoryOps, Max, Pcs;
    Coupled(m, iConfig, dConfig, calls);
    ReportsSound(m);
    RetiresInOrder(Reports(m), iConfig, dConfig, calls);
    CyclesBounded(Reports(m), iConfig, dConfig, calls);
    MissesCostCycles(Reports(m), iConfig, dConfig, calls);
    ICacheIgnoresTiming(Reports(m), iConfig, dConfig, calls);
  }

  // ---------- Lookups by address ----------

  /** The word is LW, LBU, LHU, SB, SH or SW. */
  predicate AccessesMemory(w: Word) {
    w / 0x400_0000 in {0x23, 0x24, 0x25, 0x28, 0x29, 0x2b}
  }

  /** Base register plus signed offset modulo 2^32, of the instruction that m executes next. */
  function AddressIn(m: Machine): Word {
    var w := Fetched(m);
    var r, h := w / 0x20_0000 % 32, w % 0x1_0000;
    ((if r == 0 then 0 else m.registers[r]) + (if h < 0x8000 then h else h - 0x1_0000)) % 0x1_0000_0000
  }

  lemma MemoryReports(m: Machine)
    requires AccessesMemory(Fetched(m))
    ensures !Faulty(Info(m)) && AddressOf(Info(m)) == AddressIn(m)
    ensures IsLoad(Fetched(m)) || IsStore(Fetched(m))
  {
    hide Fetched, ExecuteRType, Load, Store, JumpAddress, BranchOffset, SignExt, WordOp, AddTraps;
    InfoAddress(m);
    ClassesDisjoint(Fetched(m));
  }

  /** The data cache has something to ask for exactly when a load or store does not address 0xffffffff. */
  lemma HasAddressIff(m: Machine, k: nat)
    ensures HasAddress(Reports(m)(k))
       <==> AccessesMemory(Fetched(Run(m, k))) && AddressIn(Run(m, k)) != 0xffff_ffff
  {
    hide Fetched, Info, AddressOf, AddressIn, Run;
    var n := Run(m, k);
    FetchedReported(n);
    if AccessesMemory(Fetched(n)) {
      MemoryReports(n);
    }
  }

  lemma FetchedReported(m: Machine)
    ensures Info(m).instruction == Fetched(m)
  {
    hide Fetched, Execute;
  }

  /** Exactly which instructions of a program the data cache is asked for. */
  lemma LookedUpByAddress(m: Machine, iConfig: CacheConfig, dConfig: CacheConfig, calls: nat, k: nat)
    requires ValidConfig(iConfig) && ValidConfig(dConfig)
    ensures k in HistoryAt(Reports(m), iConfig, dConfig, calls).lookups
       <==> && AccessesMemory(Fetched(Run(m, k))) && AddressIn(Run(m, k)) != 0xffff_ffff
            && exists n: nat :: n < calls && EntersMem(Reports(m), iConfig, dConfig, n, k)
  {
    hide HistoryAt, Sound, HasAddress, AddressIn, AccessesMemory, Fetched, Run, AskedAt, EntersMem;
    var infos := Reports(m);
    ReportsSound(m);
    LookedUpIff(infos, iConfig, dConfig, calls, k);
    HasAddressIff(m, k);
    forall n: nat
      ensures AskedAt(infos, iConfig, dConfig, n, k)
         <==> EntersMem(infos, iConfig, dConfig, n, k) && HasAddress(infos(k))
    {
      AskedParts(infos, iConfig, dConfig, n, k);
    }
  }

  lemma AskedParts(infos: Stream, iConfig: CacheConfig, dConfig: CacheConfig, n: nat, k: nat)
    requires ValidConfig(iConfig) && ValidConfig(dConfig)
    ensures AskedAt(infos, iConfig, dConfig, n, k)
       <==> EntersMem(infos, iConfig, dConfig, n, k) && HasAddress(infos(k))
  {
    hide StateAt, HistoryAt, HasAddress, MovesOn, LooksUp;
  }

  /** Call n + 1 moves instruction k from EX to MEM and consults the data cache. */
  ghost predicate EntersMem(infos: Stream, iConfig: CacheConfig, dConfig: CacheConfig, n: nat, k: nat)
    requires ValidConfig(iConfig) && ValidConfig(dConfig)
  {
    var s, h := StateAt(infos, iConfig, dConfig, n), HistoryAt(infos, iConfig, dConfig, n);
    !s.halted && h.tok.exS == Instr(k) && MovesOn(s) && LooksUp(s, infos(s.fetched))
  }
}
