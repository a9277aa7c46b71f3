/** One call of `runCycles` for several cycles. The turns of its loop do what as many calls for one cycle do, but
    only the end of the call dumps the pipe state and counts, so the counter and the dumps miss all turns but one. */
module Batches {
  import opened Instructions
  import opened EmulatorModel
  import opened CacheModel
  import opened Pipeline
  import opened Retirement
  import opened Refinement

  /** Where the loop stands, and whether HALT has left it. */
  datatype Turn = Turn(system: System, stopped: bool)

  function SystemAdvance(y: System): (y': System)
    requires Ready(y.sim)
    ensures Ready(y'.sim)
  {
    System(Pipeline.Advance(Stamp(y.sim), Info(y.machine)), if WillFetch(y.sim) then Step(y.machine) else y.machine)
  }

  /** The loop after at most n turns. */
  function Turns(y: System, n: nat): (t: Turn)
    requires Ready(y.sim)
    ensures Ready(t.system.sim)
  {
    if n == 0 then Turn(y, false)
    else
      var p := Turns(y, n - 1);
      if p.stopped then p
      else Turn(SystemAdvance(p.system), EntersHalt(p.system.sim, Info(p.system.machine)))
  }

  /** The whole call. */
  function Batch(y: System, n: nat): (y': System)
    requires Ready(y.sim)
    ensures Ready(y'.sim)
  {
    var z := Turns(y, n).system;
    z.(sim := Dump(z.sim))
  }

  lemma OneMoreTurn(y: System, n: nat)
    requires Ready(y.sim) && !Turns(y, n).stopped
    ensures var z := Turns(y, n).system;
      Turns(y, n + 1) == Turn(SystemAdvance(z), EntersHalt(z.sim, Info(z.machine)))
  {
    hide SystemAdvance, EntersHalt;
  }

  lemma TurnsStart(y: System)
    requires Ready(y.sim)
    ensures Turns(y, 0) == Turn(y, false)
  {
  }

  lemma NoMoreTurn(y: System, n: nat)
    requires Ready(y.sim) && Turns(y, n).stopped
    ensures Turns(y, n + 1) == Turns(y, n)
  {
    hide SystemAdvance, EntersHalt;
  }

  /** Once HALT has left the loop, nothing follows. */
  lemma {:induction false} StoppedStays(y: System, n: nat, k: nat)
    requires Ready(y.sim) && n <= k && Turns(y, n).stopped
    ensures Turns(y, k) == Turns(y, n)
  {
    hide Turns;
    if n < k {
      StoppedStays(y, n, k - 1);
      NoMoreTurn(y, k - 1);
    }
  }

  /** A call sets the halted flag exactly when it fetches HALT. */
  lemma HaltByCycle(s: Sim, info: InstructionInfo)
    requires Ready(s)
    ensures EntersHalt(Stamp(s), info) == EntersHalt(s, info)
    ensures Cycle(s, info).halted == (s.halted || EntersHalt(s, info))
  {
    hide Cycle;
    CycleFetches(s, info);
  }

  /** A call for one cycle, which halts exactly when it meets HALT. */
  lemma BatchOfOne(y: System)
    requires Ready(y.sim)
    ensures Batch(y, 1) == SystemCycle(y)
    ensures Turns(y, 1).stopped == EntersHalt(y.sim, Info(y.machine))
    ensures SystemCycle(y).sim.halted == (y.sim.halted || Turns(y, 1).stopped)
  {
    hide Pipeline.Advance, Step, Info, EntersHalt;
    HaltByCycle(y.sim, Info(y.machine));
    assert Turns(y, 0) == Turn(y, false);
  }

  /** Equal in all but the cycle counter and what records it. */
  predicate SameButClock(s: Sim, s': Sim) {
    && s.pipe.instr == s'.pipe.instr && s.addresses == s'.addresses
    && s.iMiss == s'.iMiss && s.dMiss == s'.dMiss && s.dStall == s'.dStall && s.xStall == s'.xStall
    && s.except == s'.except && s.iCache == s'.iCache && s.dCache == s'.dCache
    && s.fetched == s'.fetched && s.halted == s'.halted
  }

  lemma StallIgnoresClock(s: Sim, s': Sim)
    requires Ready(s) && Ready(s') && SameButClock(s, s')
    ensures SameButClock(Stall(s), Stall(s'))
  {
    hide Stall, Holds, AccessCache, IsLoad, IsStore;
    StallFields(s);
    StallFields(s');
  }

  lemma EnterIgnoresClock(s: Sim, s': Sim, info: InstructionInfo)
    requires Ready(s) && Ready(s') && SameButClock(s, s') && !Stalled(s)
    ensures SameButClock(Enter(s, info), Enter(s', info))
  {
    hide Enter, Holds, AccessCache, IsLoad, IsStore, XStallOf, DStallOf, AddressOf;
    EnterFields(s, info);
    EnterFields(s', info);
  }

  lemma AdvanceIgnoresClock(s: Sim, s': Sim, info: InstructionInfo)
    requires Ready(s) && Ready(s') && SameButClock(s, s')
    ensures SameButClock(Pipeline.Advance(s, info), Pipeline.Advance(s', info))
    ensures WillFetch(s) == WillFetch(s') && EntersHalt(s, info) == EntersHalt(s', info)
  {
    hide Stall, Enter;
    if s.except == 0 {
      if Stalled(s) {
        StallIgnoresClock(s, s');
      } else {
        EnterIgnoresClock(s.(fetched := s.fetched + 1), s'.(fetched := s.fetched + 1), info);
      }
    }
  }

  /** One call for n cycles and n calls for one cycle, up to HALT, end in the same pipeline, counters, caches and
      emulator, and agree on whether HALT was met. */
  lemma {:induction false} BatchIsCalls(y: System, n: nat)
    requires Ready(y.sim) && !y.sim.halted
    ensures var t := Turns(y, n);
      && t.system.machine == SystemRun(y, n).machine && SameButClock(t.system.sim, SystemRun(y, n).sim)
      && t.stopped == SystemRun(y, n).sim.halted
  {
    hide Pipeline.Advance, Step, Info, EntersHalt;
    if n != 0 {
      BatchIsCalls(y, n - 1);
      var p, q := Turns(y, n - 1).system, SystemRun(y, n - 1);
      if !q.sim.halted {
        AdvanceIgnoresClock(Stamp(p.sim), Stamp(q.sim), Info(q.machine));
        HaltByCycle(q.sim, Info(q.machine));
        HaltUnstamped(p.sim, Info(p.machine));
      }
    }
  }

  /** However many cycles a call is for, it moves the cycle counter by one and dumps once, plus four at HALT. */
  lemma {:induction false} BatchCountsOnce(y: System, n: nat)
    requires Ready(y.sim)
    ensures var drain := if Turns(y, n).stopped then 4 else 0;
      && Batch(y, n).sim.cycleCount == y.sim.cycleCount + 1 + drain
      && |Batch(y, n).sim.output| == |y.sim.output| + 1 + drain
  {
    hide Pipeline.Advance, Step, Info, EntersHalt;
    if n != 0 {
      BatchCountsOnce(y, n - 1);
      var p := Turns(y, n - 1).system;
      TurnCounts(Stamp(p.sim), Info(p.machine));
      HaltUnstamped(p.sim, Info(p.machine));
    }
  }

  lemma TurnCounts(s: Sim, info: InstructionInfo)
    requires Ready(s)
    ensures var s', drain := Pipeline.Advance(s, info), if EntersHalt(s, info) then 4 else 0;
      s'.cycleCount == s.cycleCount + drain && |s'.output| == |s.output| + drain
  {
    hide Enter, Stall, Penalty, DCacheAfter, XStallOf, DStallOf, AddressOf, AccessCache, Holds;
    if s.except == 0 {
      if Stalled(s) {
        StallFields(s);
      } else {
        EnterFields(s.(fetched := s.fetched + 1), info);
      }
    }
  }
}
