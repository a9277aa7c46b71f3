/** The timing machine of cycle.cpp as a value: one call of `runCycles(1)` is `Cycle`. The machine sees the
    program only through what the emulator reports per instruction, so it runs on any stream of reports. */
module Pipeline {
  import opened Words
  import opened Instructions
  import opened EmulatorModel
  import opened CacheModel

  /** One slot per stage; the operations move the contents one way for whatever the slots hold. */
  datatype Stages<T> = Stages(ifS: T, idS: T, exS: T, memS: T, wbS: T) {
    function Ingest(x: T): Stages<T> {
      Stages(x, ifS, idS, exS, memS)
    }

    /** A bubble enters EX; IF and ID wait. */
    function HoldId(hole: T): Stages<T> {
      Stages(ifS, idS, hole, exS, memS)
    }

    /** A bubble enters ID; IF waits. */
    function HoldIf(hole: T): Stages<T> {
      Stages(ifS, hole, idS, exS, memS)
    }
  }

  datatype PipeState = PipeState(cycle: nat, instr: Stages<Word>)

  /** The -1 that marks a slot without a memory access. */
  const NONE: Word := 0xffff_ffff

  /** What the emulator reports, instruction by instruction. */
  type Stream = nat -> InstructionInfo

  datatype Sim = Sim(pipe: PipeState, addresses: Stages<Word>,
                     iMiss: nat, dMiss: nat, dStall: nat, xStall: nat, except: nat, cycleCount: nat,
                     iCache: CacheState, dCache: CacheState,
                     output: seq<PipeState>,  // the file the pipe states are dumped to
                     fetched: nat,            // instructions taken from the stream
                     halted: bool)            // HALT has been returned

  predicate Ready(s: Sim) {
    WellFormed(s.iCache) && WellFormed(s.dCache)
  }

  function Initial(iConfig: CacheConfig, dConfig: CacheConfig): (s: Sim)
    requires ValidConfig(iConfig) && ValidConfig(dConfig)
    ensures Ready(s)
  {
    Sim(PipeState(0, Stages(0, 0, 0, 0, 0)), Stages(0, 0, 0, 0, 0), 0, 0, 0, 0, 0, 0,
        Cold(iConfig), Cold(dConfig), [], 0, false)
  }

  predicate Faulty(info: InstructionInfo) {
    info.isOverflow || !info.isValid
  }

  function AddressOf(info: InstructionInfo): Word {
    if IsLoad(info.instruction) then info.loadAddress
    else if IsStore(info.instruction) then info.storeAddress
    else NONE
  }

  /** `ingestPipeline` and `ingestBuffer` */
  function Ingest(s: Sim, instr: Word, address: Word): Sim {
    s.(pipe := PipeState(s.cycleCount, s.pipe.instr.Ingest(instr)), addresses := s.addresses.Ingest(address))
  }

  // ---------- The three kinds of cycle ----------

  /** An exception is being drained: an empty slot enters the pipeline. */
  function Bubble(s: Sim): Sim
    requires s.except > 0
  {
    Ingest(s.(except := s.except - 1), 0, NONE)
  }

  predicate Stalled(s: Sim) {
    s.iMiss > 0 || s.dMiss > 0 || s.dStall > 0 || s.xStall > 0
  }

  /** What moves in a stall cycle: nothing but WB under a data miss; else EX or ID receives a bubble. */
  function Shift(s: Sim): Sim {
    if s.dMiss == 0 then
      if s.xStall > 0 then
        s.(pipe := s.pipe.(instr := s.pipe.instr.HoldId(0)), addresses := s.addresses.HoldId(NONE))
      else if s.dStall > 0 || s.iMiss > 0 then
        s.(pipe := s.pipe.(instr := s.pipe.instr.HoldIf(0)), addresses := s.addresses.HoldIf(NONE))
      else s
    else
      s.(pipe := s.pipe.(instr := s.pipe.instr.(wbS := 0)))
  }

  function CountDown(s: Sim): Sim {
    s.(iMiss := Minus(s.iMiss, 1), dMiss := Minus(s.dMiss, 1),
       dStall := Minus(s.dStall, 1), xStall := Minus(s.xStall, 1))
  }

  /** One data cache access for the instruction in MEM. */
  function Charge(s: Sim): (s': Sim)
    requires Ready(s)
    ensures Ready(s')
  {
    var a := s.addresses.memS;
    s.(dMiss := s.dMiss + (if Holds(s.dCache, a) then 0 else s.dCache.config.missLatency),
       dCache := AccessCache(s.dCache, a))
  }

  function ChargeIf(s: Sim, c: bool): (s': Sim)
    requires Ready(s)
    ensures Ready(s')
  {
    if c && s.addresses.memS != NONE then Charge(s) else s
  }

  /** The load test and then the store test on the instruction in MEM. */
  function LookUp(s: Sim): (s': Sim)
    requires Ready(s)
    ensures Ready(s')
  {
    ChargeIf(ChargeIf(s, IsLoad(s.pipe.instr.memS)), IsStore(s.pipe.instr.memS))
  }

  /** The data cache is consulted again only while some other counter is still running. */
  function Stall(s: Sim): (s': Sim)
    requires Ready(s)
    ensures Ready(s')
  {
    var s1 := CountDown(Shift(s));
    if s1.iMiss > 0 || s1.dStall > 0 || s1.xStall > 0 then LookUp(s1) else s1
  }

  /** Detection of hazards after a fetch. */
  function SetStalls(s: Sim): Sim {
    var fin, din, xin := s.pipe.instr.ifS, s.pipe.instr.idS, s.pipe.instr.exS;
    s.(xStall := OpBranch(din, xin) + LoadOp(din, xin),
       dStall :=
         if LoadBranch(fin, din) == LoadBranch(fin, xin) && LoadBranch(fin, din) == 2 then 2
         else if LoadBranch(fin, din) == 2 || LoadBranch(fin, xin) == 2 then
           LoadBranch(fin, din) + LoadBranch(fin, xin) / 2
         else s.dStall)
  }

  /** The instruction cache is consulted for every instruction that enters. */
  function FetchMiss(s: Sim, pc: Word): (s': Sim)
    requires Ready(s)
    ensures Ready(s')
  {
    s.(iMiss := if Holds(s.iCache, pc) then 0 else s.iCache.config.missLatency, iCache := AccessCache(s.iCache, pc))
  }

  /** One turn of the final flush. */
  function Flush(s: Sim): Sim {
    Ingest(s.(output := s.output + [s.pipe], cycleCount := s.cycleCount + 1), 0, NONE)
  }

  function Enter(s: Sim, info: InstructionInfo): (s': Sim)
    requires Ready(s)
    ensures Ready(s')
  {
    SetStalls(LookUp(FetchMiss(Ingest(s, info.instruction, AddressOf(info)), info.pc)))
  }

  /** An instruction is executed and enters the pipeline, unless it faults. */
  function Fetch(s0: Sim, info: InstructionInfo): (s': Sim)
    requires Ready(s0)
    ensures Ready(s')
  {
    var s := s0.(fetched := s0.fetched + 1);
    if info.isOverflow then Ingest(s.(except := 2), 0, NONE)
    else if !info.isValid then Ingest(s.(except := 1), 0, NONE)
    else if info.isHalt then Flush(Flush(Flush(Flush(Enter(s, info))))).(halted := true)
    else Enter(s, info)
  }

  /** The part of `runCycles(1)` inside its loop. */
  function Advance(s: Sim, info: InstructionInfo): (s': Sim)
    requires Ready(s)
    ensures Ready(s')
  {
    if s.except > 0 then Bubble(s) else if Stalled(s) then Stall(s) else Fetch(s, info)
  }

  /** The dump at the end of every call. */
  function Dump(s: Sim): Sim {
    s.(output := s.output + [s.pipe], cycleCount := s.cycleCount + 1)
  }

  /** Every call first stamps the pipe state with the cycle number. */
  function Stamp(s: Sim): Sim {
    s.(pipe := s.pipe.(cycle := s.cycleCount))
  }

  /** `runCycles(1)` */
  function Cycle(s: Sim, info: InstructionInfo): (s': Sim)
    requires Ready(s)
    ensures Ready(s')
  {
    Dump(Advance(Stamp(s), info))
  }

  /** The machine after n calls, stopping at HALT as `runTillHalt` does. */
  function RunCycles(s: Sim, infos: Stream, n: nat): (s': Sim)
    requires Ready(s)
    ensures Ready(s')
  {
    if n == 0 then s
    else
      var p := RunCycles(s, infos, n - 1);
      if p.halted then p else Cycle(p, infos(p.fetched))
  }

  /** Whether the next call executes an instruction. */
  predicate WillFetch(s: Sim) {
    s.except == 0 && !Stalled(s)
  }

  /** Whether the next call fetches HALT. */
  predicate EntersHalt(s: Sim, info: InstructionInfo) {
    WillFetch(s) && !Faulty(info) && info.isHalt
  }

  lemma HaltUnstamped(s: Sim, info: InstructionInfo)
    ensures EntersHalt(Stamp(s), info) == EntersHalt(s, info) && WillFetch(Stamp(s)) == WillFetch(s)
  {
  }

  // ---------- Facts about the parts ----------

  /** The instruction in MEM is one whose address the data cache is asked for. */
  predicate Asks(s: Sim) {
    (IsLoad(s.pipe.instr.memS) || IsStore(s.pipe.instr.memS)) && s.addresses.memS != NONE
  }

  function Penalty(s: Sim): nat
    requires Ready(s)
  {
    if Asks(s) && !Holds(s.dCache, s.addresses.memS) then s.dCache.config.missLatency else 0
  }

  function DCacheAfter(s: Sim): (c: CacheState)
    requires Ready(s)
    ensures WellFormed(c) && c.config == s.dCache.config
  {
    if Asks(s) then AccessCache(s.dCache, s.addresses.memS) else s.dCache
  }

  /** At most one of the two tests applies, so a cycle makes at most one data cache access, and the lookup
      touches the data cache and its counter only. */
  lemma LookUpOnce(s: Sim)
    requires Ready(s)
    ensures LookUp(s) == s.(dMiss := s.dMiss + Penalty(s), dCache := DCacheAfter(s))
  {
    hide Holds, AccessCache, IsLoad, IsStore;
    ClassesDisjoint(s.pipe.instr.memS);
  }

  /** Some counter besides `dMiss` will still be running after this stall cycle. */
  predicate StillStalled(s: Sim) {
    s.iMiss > 1 || s.dStall > 1 || s.xStall > 1
  }

  lemma ShiftKeepsCounters(s: Sim)
    ensures var s' := CountDown(Shift(s));
      s'.except == s.except && s'.iMiss == Minus(s.iMiss, 1) && s'.dMiss == Minus(s.dMiss, 1)
      && s'.dStall == Minus(s.dStall, 1) && s'.xStall == Minus(s.xStall, 1)
    ensures Ready(s) ==> Ready(CountDown(Shift(s)))
  {
  }

  /** A stall cycle, field by field. */
  lemma StallFields(s: Sim)
    requires Ready(s)
    ensures var s1, s' := CountDown(Shift(s)), Stall(s);
      s' == if StillStalled(s) then s1.(dMiss := s1.dMiss + Penalty(s1), dCache := DCacheAfter(s1)) else s1
  {
    hide Penalty, DCacheAfter, LookUp;
    LookUpOnce(CountDown(Shift(s)));
  }

  function XStallOf(p: Stages<Word>): nat {
    OpBranch(p.idS, p.exS) + LoadOp(p.idS, p.exS)
  }

  function DStallOf(p: Stages<Word>): nat {
    if LoadBranch(p.ifS, p.idS) == 2 then 2 else if LoadBranch(p.ifS, p.exS) == 2 then 1 else 0
  }

  /** An instruction that enters, field by field. */
  lemma EnterFields(s: Sim, info: InstructionInfo)
    requires Ready(s) && !Stalled(s)
    ensures var i := Ingest(s, info.instruction, AddressOf(info));
      Enter(s, info) == i.(dMiss := Penalty(i), dCache := DCacheAfter(i),
                           iMiss := if Holds(s.iCache, info.pc) then 0 else s.iCache.config.missLatency,
                           iCache := AccessCache(s.iCache, info.pc),
                           xStall := XStallOf(i.pipe.instr), dStall := DStallOf(i.pipe.instr))
  {
    hide Holds, AccessCache, LookUp, OpBranch, LoadOp, IsLoad, IsStore;
    var i := Ingest(s, info.instruction, AddressOf(info));
    LookUpOnce(FetchMiss(i, info.pc));
  }
}
