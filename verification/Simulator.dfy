/** The cycle simulator of cycle.cpp in its own form: the file's static variables as fields, updated in place
    around an emulator and two caches. It is proved to take the steps of module Refinement, and with that to
    end in the machine of the functional run. */
module Simulator {
  import opened Words
  import opened Memory
  import opened Instructions
  import opened EmulatorModel
  import opened CacheModel
  import opened LruCache
  import opened Pipeline
  import opened Refinement
  import opened History
  import opened Retirement
  import opened Lookups
  import opened Batches
  import Recency
  import Runs
  import Functional

  type Status = Functional.RunStatus

  class CycleSimulator {
    const emulator: Emulator
    const iCache: Cache
    const dCache: Cache
    var pipeState: PipeState
    const memAddresses: array<Word>
    var iMiss: nat
    var dMiss: nat
    var dStall: nat
    var xStall: nat
    var except: nat
    var cycleCount: nat
    var output: seq<PipeState>
    ghost var halted: bool

    ghost const EmulatorRepr: set<object> := {emulator, emulator.registers, emulator.memory.memArr}

    ghost predicate Disjoint() {
      && EmulatorRepr !! iCache.Repr !! dCache.Repr !! {this, memAddresses}
    }

    ghost predicate Valid()
      reads this, memAddresses, EmulatorRepr, iCache.Repr, dCache.Repr
    {
      && memAddresses.Length == 5 && Disjoint()
      && emulator.Valid() && iCache.Valid() && dCache.Valid()
    }

    ghost function Addresses(): Stages<Word>
      requires memAddresses.Length == 5
      reads memAddresses
    {
      Stages(memAddresses[0], memAddresses[1], memAddresses[2], memAddresses[3], memAddresses[4])
    }

    /** The timing state; the emulator's instruction count serves as the count of fetches. */
    ghost function Timing(): (s: Sim)
      requires Valid()
      reads this, memAddresses, EmulatorRepr, iCache.Repr, dCache.Repr
      ensures Ready(s)
    {
      Sim(pipeState, Addresses(), iMiss, dMiss, dStall, xStall, except, cycleCount,
          iCache.state, dCache.state, output, emulator.din, halted)
    }

    ghost function Model(): (y: System)
      requires Valid()
      reads this, memAddresses, EmulatorRepr, iCache.Repr, dCache.Repr
      ensures Ready(y.sim)
    {
      System(Timing(), emulator.Model())
    }

    /** `initSimulator` */
    constructor (iCacheConfig: CacheConfig, dCacheConfig: CacheConfig, mem: MemoryStore)
      requires iCacheConfig.ways >= 1 && iCacheConfig.blockSize >= 1
      requires dCacheConfig.ways >= 1 && dCacheConfig.blockSize >= 1 && mem.Valid()
      ensures ValidConfig(iCacheConfig) && ValidConfig(dCacheConfig) ==>
        Valid()
        && Model() == StartOf(Machine(0, false, 0, seq(32, _ => 0), mem.Model(), 0), iCacheConfig, dCacheConfig)
      ensures !halted && emulator.memory == mem
      ensures fresh(memAddresses) && fresh(EmulatorRepr - {mem.memArr}) && fresh(iCache.Repr) && fresh(dCache.Repr)
    {
      hide Cache.Valid, Cache.AllRepresent, Cold, Recency.Access, ValidConfig, NumSets, WellFormed, StartOf;
      emulator := new Emulator(mem);
      iCache := new Cache(iCacheConfig);
      dCache := new Cache(dCacheConfig);
      pipeState := PipeState(0, Stages(0, 0, 0, 0, 0));
      memAddresses := new Word[5](_ => 0);
      iMiss, dMiss, dStall, xStall, except, cycleCount := 0, 0, 0, 0, 0, 0;
      output := [];
      halted := false;
      new;
      assert Addresses() == Stages(0, 0, 0, 0, 0);
      if ValidConfig(iCacheConfig) && ValidConfig(dCacheConfig) {
        StartModel(iCacheConfig, dCacheConfig);
      }
    }

    /** A simulator with all counters at zero and cold caches. */
    lemma StartModel(i: CacheConfig, d: CacheConfig)
      requires Valid() && ValidConfig(i) && ValidConfig(d)
      requires iCache.state == Cold(i) && dCache.state == Cold(d) && emulator.din == 0 && !halted && output == []
      requires pipeState == PipeState(0, Stages(0, 0, 0, 0, 0)) && Addresses() == Stages(0, 0, 0, 0, 0)
      requires iMiss == dMiss == dStall == xStall == except == cycleCount == 0
      ensures Model() == StartOf(emulator.Model(), i, d)
    {
      hide Cache.Valid, Cache.AllRepresent, Cold;
    }

    method IngestPipeline(x: Word)
      modifies this`pipeState
      ensures pipeState == PipeState(cycleCount, old(pipeState.instr).Ingest(x))
    {
      var p := pipeState.instr;
      pipeState := PipeState(cycleCount, Stages(x, p.ifS, p.idS, p.exS, p.memS));
    }

    method IngestBuffer(x: Word)
      requires memAddresses.Length == 5
      modifies memAddresses
      ensures Addresses() == old(Addresses()).Ingest(x)
    {
      memAddresses[4] := memAddresses[3];
      memAddresses[3] := memAddresses[2];
      memAddresses[2] := memAddresses[1];
      memAddresses[1] := memAddresses[0];
      memAddresses[0] := x;
    }

    /** Both at once: an instruction, or an empty slot, enters. */
    method IngestSlot(x: Word, address: Word)
      requires Valid()
      modifies this`pipeState, memAddresses
      ensures Valid() && Timing() == Ingest(old(Timing()), x, address)
      ensures emulator.Model() == old(emulator.Model())
    {
      hide Cache.Valid, Cache.AllRepresent;
      IngestPipeline(x);
      IngestBuffer(address);
    }

    method DumpPipe()
      modifies this`output
      ensures output == old(output) + [pipeState]
    {
      output := output + [pipeState];
    }

    /** The shift of a stall cycle. */
    method ShiftStalled()
      requires Valid()
      modifies this`pipeState, memAddresses
      ensures Valid() && Timing() == Shift(old(Timing()))
    {
      hide Cache.Valid, Cache.AllRepresent;
      var p := pipeState.instr;
      if dMiss == 0 {
        if xStall > 0 {
          pipeState := PipeState(pipeState.cycle, Stages(p.ifS, p.idS, 0, p.exS, p.memS));
          memAddresses[4] := memAddresses[3];
          memAddresses[3] := memAddresses[2];
          memAddresses[2] := NONE;
        } else if dStall > 0 || iMiss > 0 {
          pipeState := PipeState(pipeState.cycle, Stages(p.ifS, 0, p.idS, p.exS, p.memS));
          memAddresses[4] := memAddresses[3];
          memAddresses[3] := memAddresses[2];
          memAddresses[2] := memAddresses[1];
          memAddresses[1] := NONE;
        }
      } else {
        pipeState := PipeState(pipeState.cycle, Stages(p.ifS, p.idS, p.exS, p.memS, 0));
      }
    }

    /** One data cache access for the instruction in MEM, when `c` and when there is an address. */
    method AccessData(c: bool)
      requires Valid()
      modifies this`dMiss, dCache.Repr
      ensures Valid() && Timing() == ChargeIf(old(Timing()), c)
      ensures emulator.Model() == old(emulator.Model())
    {
      hide Cache.Valid, Cache.AllRepresent;
      if c && memAddresses[3] != NONE {
        var hit := dCache.Access(memAddresses[3]);
        dMiss := dMiss + if hit then 0 else dCache.config.missLatency;
      }
    }

    /** The instruction cache access of a fetch. */
    method AccessInstruction(pc: Word)
      requires Valid()
      modifies this`iMiss, iCache.Repr
      ensures Valid() && Timing() == FetchMiss(old(Timing()), pc)
      ensures emulator.Model() == old(emulator.Model())
    {
      hide Cache.Valid, Cache.AllRepresent, Holds, AccessCache;
      var hit := iCache.Access(pc);
      iMiss := if hit then 0 else iCache.config.missLatency;
    }

    method AccessDataForMem()
      requires Valid()
      modifies this`dMiss, dCache.Repr
      ensures Valid() && Timing() == LookUp(old(Timing()))
      ensures emulator.Model() == old(emulator.Model())
    {
      hide Cache.Valid, Cache.AllRepresent, ChargeIf;
      AccessData(IsLoad(pipeState.instr.memS));
      AccessData(IsStore(pipeState.instr.memS));
    }

    method CountDownStalls()
      modifies this`iMiss, this`dMiss, this`dStall, this`xStall
      ensures iMiss == Minus(old(iMiss), 1) && dMiss == Minus(old(dMiss), 1)
      ensures dStall == Minus(old(dStall), 1) && xStall == Minus(old(xStall), 1)
    {
      if iMiss > 0 {
        iMiss := iMiss - 1;
      }
      if dMiss > 0 {
        dMiss := dMiss - 1;
      }
      if dStall > 0 {
        dStall := dStall - 1;
      }
      if xStall > 0 {
        xStall := xStall - 1;
      }
    }

    /** A stall cycle. */
    method StallCycle()
      requires Valid()
      modifies this`pipeState, this`iMiss, this`dMiss, this`dStall, this`xStall, memAddresses, dCache.Repr
      ensures Valid() && Timing() == Stall(old(Timing()))
      ensures emulator.Model() == old(emulator.Model())
    {
      hide Cache.Valid, Cache.AllRepresent, LookUp, Shift;
      ShiftStalled();
      ghost var s := Timing();
      CountDownStalls();
      assert Timing() == CountDown(s);
      if iMiss > 0 || dStall > 0 || xStall > 0 {
        AccessDataForMem();
      }
    }

    /** Stall delays found after a fetch. */
    method DetectHazards()
      requires Valid()
      modifies this`xStall, this`dStall
      ensures Valid() && Timing() == SetStalls(old(Timing()))
    {
      hide Cache.Valid, Cache.AllRepresent;
      var fin, din, xin := pipeState.instr.ifS, pipeState.instr.idS, pipeState.instr.exS;
      xStall := OpBranch(din, xin) + LoadOp(din, xin);
      if LoadBranch(fin, din) == LoadBranch(fin, xin) && LoadBranch(fin, din) == 2 {
        dStall := 2;
      } else if LoadBranch(fin, din) == 2 || LoadBranch(fin, xin) == 2 {
        dStall := LoadBranch(fin, din) + LoadBranch(fin, xin) / 2;
      }
    }

    /** A faultless instruction enters; `info` is what the emulator has just reported. */
    method EnterInstruction(info: InstructionInfo)
      requires Valid()
      modifies this`pipeState, this`iMiss, this`dMiss, this`xStall, this`dStall, memAddresses, iCache.Repr, dCache.Repr
      ensures Valid() && Timing() == Enter(old(Timing()), info)
      ensures emulator.Model() == old(emulator.Model())
    {
      hide Cache.Valid, Cache.AllRepresent, LookUp, SetStalls, Ingest, Holds, AccessCache;
      IngestSlot(info.instruction, AddressOf(info));
      AccessInstruction(info.pc);
      AccessDataForMem();
      DetectHazards();
    }

    /** The flush after HALT. */
    method FlushPipeline()
      requires Valid()
      modifies this`pipeState, this`output, this`cycleCount, this`halted, memAddresses
      ensures Valid()
      ensures Timing() == Flush(Flush(Flush(Flush(old(Timing()))))).(halted := true)
    {
      hide Cache.Valid, Cache.AllRepresent, Flush;
      ghost var s := Timing();
      for i := 0 to 4
        invariant Valid()
        invariant Timing() == Flushes(s, i)
      {
        FlushOnce();
      }
      halted := true;
      FlushesUnfold(s);
    }

    method FlushOnce()
      requires Valid()
      modifies this`pipeState, this`output, this`cycleCount, memAddresses
      ensures Valid() && Timing() == Flush(old(Timing()))
    {
      hide Cache.Valid, Cache.AllRepresent;
      DumpPipe();
      cycleCount := cycleCount + 1;
      pipeState := pipeState.(cycle := cycleCount);
      IngestSlot(0, NONE);
    }

    /** A cycle that executes an instruction. */
    method FetchCycle() returns (status: Status)
      requires Valid()
      modifies this, memAddresses, EmulatorRepr, iCache.Repr, dCache.Repr
      ensures Valid() && Timing() == Fetch(old(Timing()), Info(old(emulator.Model())))
      ensures emulator.Model() == Step(old(emulator.Model()))
      ensures status == Functional.HALT <==> Info(old(emulator.Model())).isHalt && !Faulty(Info(old(emulator.Model())))
    {
      hide Cache.Valid, Cache.AllRepresent, Enter, Flush, Info, Step, Ingest;
      StepCounts(emulator.Model());
      status := Functional.SUCCESS;
      ghost var s := Timing();
      var info := emulator.ExecuteInstruction();
      assert Timing() == s.(fetched := s.fetched + 1);
      if info.isOverflow {
        except := 2;
        IngestSlot(0, NONE);
      } else if !info.isValid {
        except := 1;
        IngestSlot(0, NONE);
      } else {
        EnterInstruction(info);
        if info.isHalt {
          status := Functional.HALT;
          FlushPipeline();
        }
      }
    }

    /** The three kinds of cycle. */
    method AdvanceCycle() returns (status: Status)
      requires Valid()
      modifies this, memAddresses, EmulatorRepr, iCache.Repr, dCache.Repr
      ensures Valid() && Timing() == Pipeline.Advance(old(Timing()), Info(old(emulator.Model())))
      ensures emulator.Model() == if WillFetch(old(Timing())) then Step(old(emulator.Model()))
                                  else old(emulator.Model())
      ensures status == Functional.HALT <==> EntersHalt(old(Timing()), Info(old(emulator.Model())))
    {
      hide Cache.Valid, Cache.AllRepresent, Stall, Fetch, Info, Step, Ingest;
      status := Functional.SUCCESS;
      if except > 0 {
        ghost var s := Timing();
        except := except - 1;
        assert Timing() == s.(except := s.except - 1);
        IngestSlot(0, NONE);
      } else if iMiss > 0 || dMiss > 0 || dStall > 0 || xStall > 0 {
        StallCycle();
      } else {
        status := FetchCycle();
      }
    }

    /** `runCycles`: the given number of cycles, 0 meaning until HALT; `bound` is a number of turns that meets HALT in
        that case. */
    method RunCycles(cycles: nat, ghost bound: nat) returns (status: Status)
      requires Valid()
      requires cycles == 0 ==> Turns(Model(), bound).stopped
      modifies this, memAddresses, EmulatorRepr, iCache.Repr, dCache.Repr
      ensures Valid() && Model() == Batch(old(Model()), if cycles == 0 then bound else cycles)
      ensures status == Functional.HALT <==> Turns(old(Model()), if cycles == 0 then bound else cycles).stopped
    {
      hide Cache.Valid, Cache.AllRepresent, SystemAdvance, EntersHalt, Turns, Info, Step;
      ghost var y, n := Model(), if cycles == 0 then bound else cycles;
      var count := 0;
      status := Functional.SUCCESS;
      TurnsStart(y);
      while cycles == 0 || count < cycles
        invariant Valid() && count <= n
        invariant Turns(y, count) == Turn(Model(), false) && status == Functional.SUCCESS
        decreases n - count
      {
        OneMoreTurn(y, count);
        status := TurnCycle();
        if status == Functional.HALT {
          StoppedStays(y, count + 1, n);
          break;
        }
        count := count + 1;
      }
      assert Turns(y, n) == Turn(Model(), status == Functional.HALT);
      EndCall();
    }

    /** The end of every call. */
    method EndCall()
      requires Valid()
      modifies this`output, this`cycleCount
      ensures Valid() && Timing() == Dump(old(Timing())) && emulator.Model() == old(emulator.Model())
    {
      hide Cache.Valid, Cache.AllRepresent;
      DumpPipe();
      cycleCount := cycleCount + 1;
    }

    /** One turn of the loop. */
    method TurnCycle() returns (status: Status)
      requires Valid()
      modifies this, memAddresses, EmulatorRepr, iCache.Repr, dCache.Repr
      ensures Valid() && Model() == SystemAdvance(old(Model()))
      ensures status == Functional.HALT <==> EntersHalt(old(Timing()), Info(old(emulator.Model())))
    {
      hide Cache.Valid, Cache.AllRepresent, Pipeline.Advance, Info, Step, EntersHalt;
      ghost var y := Model();
      HaltUnstamped(y.sim, Info(y.machine));
      pipeState := pipeState.(cycle := cycleCount);
      assert Timing() == Stamp(y.sim) && emulator.Model() == y.machine;
      status := AdvanceCycle();
    }

    /** Calls `runCycles(1)` until HALT, from wherever the simulator stands, an earlier HALT included; n is a number of
        calls that meets HALT. */
    method RunTillHalt(ghost n: nat) returns (status: Status)
      requires Valid() && SystemRun(Resumed(Model()), n).sim.halted
      modifies this, memAddresses, EmulatorRepr, iCache.Repr, dCache.Repr
      ensures Valid() && status == Functional.HALT && halted
      ensures Model() == SystemRun(Resumed(old(Model())), n)
    {
      hide Cache.Valid, Cache.AllRepresent, SystemCycle, SystemRun, Turns, Batch, EntersHalt, Info;
      halted := false;
      ghost var y, calls := Model(), 0;
      RunStart(y);
      while true
        invariant Valid() && !halted && calls <= n
        invariant Model() == SystemRun(y, calls)
        decreases n - calls
      {
        BatchOfOne(Model());
        OneMoreSystemCall(y, calls);
        status := RunCycles(1, 1);
        calls := calls + 1;
        if status == Functional.HALT {
          HaltedStays(y, calls, n);
          break;
        }
      }
    }
  }

  /** n turns of the flush. */
  function Flushes(s: Sim, n: nat): Sim {
    if n == 0 then s else Flush(Flushes(s, n - 1))
  }

  lemma FlushesUnfold(s: Sim)
    ensures Flushes(s, 4) == Flush(Flush(Flush(Flush(s))))
  {
    hide Flush;
    assert Flushes(s, 1) == Flush(Flushes(s, 0));
    assert Flushes(s, 2) == Flush(Flushes(s, 1));
    assert Flushes(s, 3) == Flush(Flushes(s, 2));
  }

  const MEMORY_SIZE: Word := 0x1_0000

  /** The machine both simulators start from, for a program image. */
  function InitialMachine(image: seq<SignedChar>): Machine {
    Machine(0, false, 0, seq(32, _ => 0), Loaded(Mem(0, seq(MEMORY_SIZE, _ => 0)), image), 0)
  }

  method LoadImage(image: seq<SignedChar>) returns (mem: MemoryStore)
    requires |image| < 0x8000_0000
    ensures mem.Valid() && fresh(mem.memArr)
    ensures mem.Model() == InitialMachine(image).mem && mem.memArr.Length == 0x1_0000
    ensures forall a :: 0 <= a < 0x1_0000 ==> mem.memArr[a] == if a < |image| then (image[a] as int) % 0x100 else 0
  {
    mem := new MemoryStore(0, MEMORY_SIZE);
    mem.LoadFromFile(image);
    InitialMemory(image);
    assert forall a :: 0 <= a < 0x1_0000 ==> mem.memArr[a] == mem.Model().bytes[a];
  }

  /** Both simulators start with the image at address 0 of 65536 bytes and zeros behind it; what does not fit is
      dropped. */
  lemma InitialMemory(image: seq<SignedChar>)
    ensures var m := InitialMachine(image);
      && m.mem.start == 0 && |m.mem.bytes| == 0x1_0000
      && forall a :: 0 <= a < 0x1_0000 ==> m.mem.bytes[a] == if a < |image| then (image[a] as int) % 0x100 else 0
  {
  }

  /** The bytes fe ed fe ed, as signed characters. */
  const HALT_CHARS: seq<SignedChar> := [-2, -19, -2, -19]

  /** An image that begins with HALT halts after one instruction, in both simulators. */
  lemma HaltImage(rest: seq<SignedChar>)
    ensures HaltsAfter(InitialMachine(HALT_CHARS + rest), 1)
  {
    hide HaltsAfter, Loaded;
    var image := HALT_CHARS + rest;
    var m := InitialMachine(image);
    InitialMemory(image);
    assert m.mem.bytes == [0xfe, 0xed, 0xfe, 0xed] + m.mem.bytes[4..];
    SomeProgramHalts(m, m.mem.bytes[4..]);
  }

  method RunFunctional(image: seq<SignedChar>, ghost n: nat) returns (funct: Functional.FunctionalSimulator)
    requires |image| < 0x8000_0000 && HaltsAfter(InitialMachine(image), n)
    ensures funct.emulator.Valid() && funct.emulator.Model() == Run(InitialMachine(image), n)
  {
    hide Run, HaltsAfter, Loaded;
    var mem := LoadImage(image);
    funct := new Functional.FunctionalSimulator(mem);
    var status := funct.RunTillHalt(n);
  }

  /** The cycle simulator on an image whose functional run halts after n instructions: it ends in the machine of that
      run, with the cycle count within its bounds and the WB column equal to the retired instructions. */
  method RunCycle(iConfig: CacheConfig, dConfig: CacheConfig, image: seq<SignedChar>, ghost n: nat)
    returns (cycle: CycleSimulator)
    requires ValidConfig(iConfig) && ValidConfig(dConfig)
    requires |image| < 0x8000_0000 && HaltsAfter(InitialMachine(image), n)
    ensures cycle.Valid() && cycle.emulator.Model() == Run(InitialMachine(image), n)
    ensures HaltedOutcome(cycle.Model(), InitialMachine(image), iConfig, dConfig, n)
  {
    hide Run, HaltsAfter, Loaded, Cache.Valid, Cache.AllRepresent, StartOf, SystemRun, HaltedOutcome,
      Runs.CycleBound;
    var mem := LoadImage(image);
    cycle := new CycleSimulator(iConfig, dConfig, mem);
    ghost var m := InitialMachine(image);
    HaltPositive(m, n);
    ghost var calls := Runs.CycleBound(Reports(m), iConfig, dConfig, n - 1) + 1;
    assert cycle.Model() == StartOf(m, iConfig, dConfig);
    FunctionalHaltIsCycleHalt(m, iConfig, dConfig, n, calls);
    var status := cycle.RunTillHalt(calls);
    RunEnds(m, iConfig, dConfig, n, calls);
  }

  /** Machine, cycle count and WB column after a program of n instructions. */
  ghost predicate HaltedOutcome(y: System, m: Machine, iConfig: CacheConfig, dConfig: CacheConfig, n: nat)
    requires ValidConfig(iConfig) && ValidConfig(dConfig)
  {
    && y.sim.halted && y.sim.fetched == n && n > 0 && y.machine == Run(m, n)
    && Runs.LeastCycles(y.sim, Reports(m), iConfig, dConfig) <= y.sim.cycleCount
    && y.sim.cycleCount <= n * (1 + Max(iConfig.missLatency, 2))
                           + dConfig.missLatency * MemoryOps(Reports(m), n) + 4
    && Displayed(y.sim.output) == InstructionsOf(Reports(m), Faultless(Reports(m), n))
  }

  lemma RunEnds(m: Machine, iConfig: CacheConfig, dConfig: CacheConfig, n: nat, calls: nat)
    requires ValidConfig(iConfig) && ValidConfig(dConfig)
    requires HaltsAfter(m, n) && calls > Runs.CycleBound(Reports(m), iConfig, dConfig, n - 1)
    ensures HaltedOutcome(SystemRun(StartOf(m, iConfig, dConfig), calls), m, iConfig, dConfig, n)
  {
    hide SystemRun, StartOf, HaltsAfter, Runs.CycleBound, Runs.LeastCycles, Run, Displayed, InstructionsOf, Faultless,
      MemoryOps, Max;
    HaltPositive(m, n);
    FunctionalHaltIsCycleHalt(m, iConfig, dConfig, n, calls);
    HaltedRun(m, iConfig, dConfig, calls);
  }

  /** A client: both simulators run the same image to HALT and agree, whatever the cache configurations. */
  method RunBoth(iConfig: CacheConfig, dConfig: CacheConfig, image: seq<SignedChar>, ghost n: nat)
    returns (cycle: CycleSimulator, funct: Functional.FunctionalSimulator)
    requires ValidConfig(iConfig) && ValidConfig(dConfig)
    requires |image| < 0x8000_0000 && HaltsAfter(InitialMachine(image), n)
    ensures cycle.emulator.Valid() && funct.emulator.Valid()
    ensures cycle.emulator.Model() == funct.emulator.Model()
  {
    hide Run, HaltsAfter, HaltedOutcome, Cache.Valid, Cache.AllRepresent;
    cycle := RunCycle(iConfig, dConfig, image, n);
    funct := RunFunctional(image, n);
  }
}
