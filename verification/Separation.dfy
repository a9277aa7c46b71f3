/** What the stalls achieve: an instruction and the one it depends on never stand in neighbouring stages
    in which the value could not be forwarded, as long as no fault and no data miss intervenes. */
module Separation {
  import opened Words
  import opened Instructions
  import opened EmulatorModel
  import opened CacheModel
  import opened Pipeline

  /** No branch or op in EX waits for MEM, and no branch in ID for a load in EX or MEM. */
  predicate Separated(p: Stages<Word>) {
    && OpBranch(p.exS, p.memS) == 0 && LoadOp(p.exS, p.memS) == 0
    && LoadBranch(p.idS, p.exS) == 0 && LoadBranch(p.idS, p.memS) == 0
  }

  /** The running stall counters cover every hazard still in the pipeline. */
  predicate HazardsCovered(s: Sim) {
    s.xStall == XStallOf(s.pipe.instr) && s.dStall >= DStallOf(s.pipe.instr)
  }

  /** An empty slot depends on nothing and nothing depends on it. */
  lemma EmptySlotFree(w: Word)
    ensures OpBranch(0, w) == OpBranch(w, 0) == 0
    ensures LoadOp(0, w) == LoadOp(w, 0) == 0
    ensures LoadBranch(0, w) == LoadBranch(w, 0) == 0
  {
    ClassesDisjoint(w);
  }

  lemma HazardValues(use: Word, dep: Word)
    ensures OpBranch(use, dep) + LoadOp(use, dep) <= 1
    ensures LoadBranch(use, dep) == 0 || LoadBranch(use, dep) == 2
    ensures OpBranch(use, dep) + LoadOp(use, dep) > 0 ==> forall w: Word :: LoadBranch(w, use) == 0
  {
    ClassesDisjoint(use);
  }

  /** A stall cycle that moves the pipeline keeps hazards apart and covered, however the counters overlap. */
  lemma ShiftSeparates(s: Sim)
    requires Stalled(s) && s.dMiss == 0 && s.xStall <= 1
    requires Separated(s.pipe.instr) && HazardsCovered(s)
    ensures Separated(Shift(s).pipe.instr) && HazardsCovered(CountDown(Shift(s)))
  {
    hide OpBranch, LoadOp, LoadBranch;
    var p := s.pipe.instr;
    EmptySlotFree(p.ifS);
    EmptySlotFree(p.idS);
    EmptySlotFree(p.exS);
    EmptySlotFree(p.memS);
    HazardValues(p.idS, p.exS);
    HazardValues(p.ifS, p.idS);
    HazardValues(p.ifS, p.exS);
    if s.xStall > 0 {
      assert LoadBranch(p.ifS, p.idS) == 0;
    }
  }

  lemma StallSeparates(s: Sim)
    requires Ready(s) && Stalled(s) && s.dMiss == 0 && s.xStall <= 1
    requires Separated(s.pipe.instr) && HazardsCovered(s)
    ensures Separated(Stall(s).pipe.instr) && HazardsCovered(Stall(s))
  {
    hide Stall, Penalty, DCacheAfter, StillStalled, Separated, XStallOf, DStallOf;
    ShiftSeparates(s);
    StallFields(s);
  }

  /** Exactly when an instruction enters without breaking the separation: when no hazard is left uncovered in
      ID and IF. This holds for whatever enters, a fault's empty slot included. */
  lemma IngestSeparatesIff(p: Stages<Word>, w: Word)
    requires Separated(p)
    ensures Separated(p.Ingest(w)) <==> XStallOf(p) == 0 && DStallOf(p) == 0
  {
    hide OpBranch, LoadOp, LoadBranch;
    HazardValues(p.ifS, p.idS);
    HazardValues(p.ifS, p.exS);
  }

  lemma EnterSeparates(s: Sim, info: InstructionInfo)
    requires Ready(s) && WillFetch(s) && Separated(s.pipe.instr) && HazardsCovered(s)
    ensures Separated(Enter(s, info).pipe.instr) && HazardsCovered(Enter(s, info))
  {
    hide Enter, Penalty, DCacheAfter, AccessCache, XStallOf, DStallOf, AddressOf, Holds, Separated;
    EnterFields(s, info);
    IngestSeparatesIff(s.pipe.instr, info.instruction);
  }

  // ---------- Exactly when dependents stay apart ----------

  /** Dependents stand apart in every dumped pipe state. */
  ghost predicate AllApart(output: seq<PipeState>) {
    forall j :: 0 <= j < |output| ==> Separated(output[j].instr)
  }

  /** What the next call needs to leave dependents apart in all it dumps, read off the state before it. A shift out of
      ID, by an entering slot or by a stall for ID, needs the hazards of ID to be over; an entering slot needs those
      of IF to be over too; a freeze and a stall for EX need nothing. The flush after HALT waits for nobody, so
      when HALT enters, what then stands in ID must not have to wait for what stands in EX. */
  predicate StaysApart(s: Sim, info: InstructionInfo) {
    var p := s.pipe.instr;
    if s.except > 0 || !Stalled(s) then
      && XStallOf(p) == 0 && DStallOf(p) == 0
      && (EntersHalt(s, info) ==> XStallOf(p.Ingest(info.instruction)) == 0)
    else s.dMiss > 0 || s.xStall > 0 || XStallOf(p) == 0
  }

  lemma ShiftSeparatesIff(s: Sim)
    requires Stalled(s) && Separated(s.pipe.instr)
    ensures Separated(Shift(s).pipe.instr) <==> s.dMiss > 0 || s.xStall > 0 || XStallOf(s.pipe.instr) == 0
  {
    hide OpBranch, LoadOp, LoadBranch;
    var p := s.pipe.instr;
    EmptySlotFree(p.ifS);
    EmptySlotFree(p.idS);
    EmptySlotFree(p.exS);
    EmptySlotFree(p.memS);
  }

  lemma StallSeparatesIff(s: Sim)
    requires Ready(s) && Stalled(s) && Separated(s.pipe.instr)
    ensures Separated(Stall(s).pipe.instr) <==> s.dMiss > 0 || s.xStall > 0 || XStallOf(s.pipe.instr) == 0
  {
    hide Stall, Penalty, DCacheAfter, StillStalled, Separated, XStallOf;
    ShiftSeparatesIff(s);
    StallFields(s);
  }

  lemma EnterShifts(s: Sim, info: InstructionInfo)
    requires Ready(s) && WillFetch(s)
    ensures Enter(s, info).pipe.instr == s.pipe.instr.Ingest(info.instruction)
  {
    hide Enter, Penalty, DCacheAfter, AccessCache, XStallOf, DStallOf, AddressOf, Holds;
    EnterFields(s, info);
  }

  /** The five pipe states of a HALT call. */
  lemma FlushSeparatesIff(p: Stages<Word>)
    requires Separated(p)
    ensures var q := p.Ingest(HALT);
      && Separated(q) && Separated(q.Ingest(0)) && Separated(q.Ingest(0).Ingest(0))
      && Separated(q.Ingest(0).Ingest(0).Ingest(0)) && Separated(q.Ingest(0).Ingest(0).Ingest(0).Ingest(0))
      <==> XStallOf(p) == 0 && DStallOf(p) == 0 && XStallOf(q) == 0
  {
    hide Separated, XStallOf, DStallOf;
    var q := p.Ingest(HALT);
    IngestSeparatesIff(p, HALT);
    if Separated(q) {
      IngestSeparatesIff(q, 0);
      HaltWaitsForNobody(q);
      if Separated(q.Ingest(0)) {
        DrainSeparated(q.Ingest(0));
      }
    }
  }

  lemma HaltWaitsForNobody(q: Stages<Word>)
    requires q.ifS == HALT
    ensures DStallOf(q) == 0 && XStallOf(q.Ingest(0)) == 0 && DStallOf(q.Ingest(0)) == 0
  {
    ClassesDisjoint(0);
  }

  lemma DrainSeparated(q: Stages<Word>)
    requires Separated(q) && q.ifS == 0 && q.idS == HALT
    ensures Separated(q.Ingest(0)) && Separated(q.Ingest(0).Ingest(0)) && Separated(q.Ingest(0).Ingest(0).Ingest(0))
  {
    hide OpBranch, LoadOp, LoadBranch;
    EmptySlotFree(0);
    EmptySlotFree(q.exS);
    EmptySlotFree(HALT);
    HaltFree(q.exS);
  }

  lemma HaltFree(w: Word)
    ensures OpBranch(HALT, w) == LoadOp(HALT, w) == LoadBranch(HALT, w) == 0
  {
    ClassesDisjoint(0);
  }

  /** What one call dumps: the pipe states of its cycles. */
  function DumpedBy(s: Sim, info: InstructionInfo): seq<PipeState>
    requires Ready(s)
  {
    if EntersHalt(s, info) then FlushDumps(Enter(Stamp(s).(fetched := s.fetched + 1), info)) else [Cycle(s, info).pipe]
  }

  function FlushDumps(e: Sim): seq<PipeState> {
    [e.pipe, Flush(e).pipe, Flush(Flush(e)).pipe, Flush(Flush(Flush(e))).pipe, Flush(Flush(Flush(Flush(e)))).pipe]
  }

  lemma CycleDumps(s: Sim, info: InstructionInfo)
    requires Ready(s)
    ensures Cycle(s, info).output == s.output + DumpedBy(s, info)
    ensures var d := DumpedBy(s, info);
      |d| > 0 && d[|d| - 1] == Cycle(s, info).pipe
  {
    hide Cycle, Enter, FlushDumps, EntersHalt;
    if EntersHalt(s, info) {
      FlushDumpsFive(Enter(Stamp(s).(fetched := s.fetched + 1), info));
      HaltDumps(s, info);
    } else {
      OrdinaryDumps(s, info);
    }
  }

  lemma OrdinaryDumps(s: Sim, info: InstructionInfo)
    requires Ready(s) && !EntersHalt(s, info)
    ensures Cycle(s, info).output == s.output + [Cycle(s, info).pipe]
  {
    hide Pipeline.Advance, EntersHalt;
    HaltUnstamped(s, info);
    AdvanceOutput(Stamp(s), info);
  }

  lemma FlushDumpsFive(e: Sim)
    ensures |FlushDumps(e)| == 5
  {
  }

  lemma HaltDumps(s: Sim, info: InstructionInfo)
    requires Ready(s) && EntersHalt(s, info)
    ensures var e, c := Enter(Stamp(s).(fetched := s.fetched + 1), info), Cycle(s, info);
      c.output == s.output + FlushDumps(e) && FlushDumps(e)[4] == c.pipe
  {
    hide Enter, Flush;
    var e := Enter(Stamp(s).(fetched := s.fetched + 1), info);
    EnterOutput(Stamp(s).(fetched := s.fetched + 1), info);
    FlushOutput(e);
  }

  lemma AdvanceOutput(s: Sim, info: InstructionInfo)
    requires Ready(s) && !EntersHalt(s, info)
    ensures Pipeline.Advance(s, info).output == s.output
  {
    hide Enter, Stall, Flush;
    if s.except == 0 {
      if Stalled(s) {
        StallOutput(s);
      } else {
        EnterOutput(s.(fetched := s.fetched + 1), info);
      }
    }
  }

  lemma StallOutput(s: Sim)
    requires Ready(s)
    ensures Stall(s).output == s.output
  {
    hide Stall, Penalty, DCacheAfter;
    StallFields(s);
  }

  lemma EnterOutput(s: Sim, info: InstructionInfo)
    requires Ready(s) && WillFetch(s)
    ensures Enter(s, info).output == s.output
  {
    hide Enter, Penalty, DCacheAfter, AccessCache, XStallOf, DStallOf, AddressOf, Holds;
    EnterFields(s, info);
  }

  lemma FlushOutput(e: Sim)
    ensures var f := Flush(Flush(Flush(Flush(e))));
      f.output + [f.pipe] == e.output + FlushDumps(e)
  {
  }

  /** The pipe state in which an ordinary call ends. */
  lemma AdvanceSeparatesIff(s: Sim, info: InstructionInfo)
    requires Ready(s) && Separated(s.pipe.instr) && !EntersHalt(s, info)
    ensures Separated(Pipeline.Advance(s, info).pipe.instr) <==> StaysApart(s, info)
  {
    hide Enter, Stall, Separated, XStallOf, DStallOf;
    IngestSeparatesIff(s.pipe.instr, 0);
    IngestSeparatesIff(s.pipe.instr, info.instruction);
    if s.except == 0 {
      if Stalled(s) {
        StallSeparatesIff(s);
      } else {
        EnterShifts(s.(fetched := s.fetched + 1), info);
      }
    }
  }

  lemma FlushDumpsIff(e: Sim)
    ensures var q := e.pipe.instr;
      AllApart(FlushDumps(e)) <==>
        && Separated(q) && Separated(q.Ingest(0)) && Separated(q.Ingest(0).Ingest(0))
        && Separated(q.Ingest(0).Ingest(0).Ingest(0)) && Separated(q.Ingest(0).Ingest(0).Ingest(0).Ingest(0))
  {
    hide Separated;
    var d := FlushDumps(e);
    assert AllApart(d) ==> Separated(d[0].instr) && Separated(d[1].instr) && Separated(d[2].instr)
                           && Separated(d[3].instr) && Separated(d[4].instr);
  }

  lemma DumpsSeparatedIff(s: Sim, info: InstructionInfo)
    requires Ready(s) && Separated(s.pipe.instr) && (info.isHalt ==> info.instruction == HALT)
    ensures AllApart(DumpedBy(s, info)) <==> StaysApart(s, info)
  {
    hide Pipeline.Advance, EntersHalt, Enter, FlushDumps, AllApart, Separated, StaysApart;
    if EntersHalt(s, info) {
      HaltSeparatesIff(s, info);
    } else {
      HaltUnstamped(s, info);
      StampKeeps(s, info);
      AdvanceSeparatesIff(Stamp(s), info);
      ApartOne(Cycle(s, info).pipe);
    }
  }

  lemma ApartOne(p: PipeState)
    ensures AllApart([p]) <==> Separated(p.instr)
  {
    hide Separated;
    assert [p][0] == p;
  }

  lemma StampKeeps(s: Sim, info: InstructionInfo)
    ensures StaysApart(Stamp(s), info) == StaysApart(s, info)
  {
    hide XStallOf, DStallOf;
  }

  lemma HaltSeparatesIff(s: Sim, info: InstructionInfo)
    requires Ready(s) && Separated(s.pipe.instr) && EntersHalt(s, info)
    requires info.isHalt ==> info.instruction == HALT
    ensures AllApart(FlushDumps(Enter(Stamp(s).(fetched := s.fetched + 1), info))) <==> StaysApart(s, info)
  {
    hide Enter, FlushDumps, AllApart, Separated, XStallOf, DStallOf;
    var t := Stamp(s).(fetched := s.fetched + 1);
    EnterShifts(t, info);
    FlushDumpsIff(Enter(t, info));
    FlushSeparatesIff(s.pipe.instr);
  }

  /** Faults, misses, HALT and overlapping counters included, one call leaves dependents apart in every pipe state it
      dumps if and only if `StaysApart` held before it. */
  lemma CycleSeparatesIff(s: Sim, info: InstructionInfo)
    requires Ready(s) && Separated(s.pipe.instr) && (info.isHalt ==> info.instruction == HALT)
    ensures AllApart(Cycle(s, info).output) <==> AllApart(s.output) && StaysApart(s, info)
  {
    hide Cycle, AllApart, StaysApart, DumpedBy;
    CycleDumps(s, info);
    DumpsSeparatedIff(s, info);
    ApartConcat(s.output, DumpedBy(s, info));
  }

  /** A call ends in the pipe state it dumps last. */
  lemma CycleEnds(s: Sim, info: InstructionInfo)
    requires Ready(s) && AllApart(Cycle(s, info).output)
    ensures Separated(Cycle(s, info).pipe.instr)
  {
    hide Cycle, Separated, DumpedBy;
    CycleDumps(s, info);
    ApartConcat(s.output, DumpedBy(s, info));
  }

  lemma ApartConcat(a: seq<PipeState>, b: seq<PipeState>)
    ensures AllApart(a + b) <==> AllApart(a) && AllApart(b)
  {
    hide Separated;
    if AllApart(a + b) {
      forall j | 0 <= j < |b|
        ensures Separated(b[j].instr)
      {
        assert b[j] == (a + b)[|a| + j];
      }
      assert forall j :: 0 <= j < |a| ==> a[j] == (a + b)[j];
    }
  }

  // ---------- A whole stall phase ----------

  /** The hazards of IF that are left once the one of EX has been stalled for. */
  function DStallAfterX(p: Stages<Word>): nat {
    if LoadBranch(p.ifS, p.idS) == 2 then 2 else 0
  }

  /** What the calls up to and including the next one that is no stall need to leave dependents apart, if no further
      data miss is charged. A freeze of f calls uses up an `xStall` and f of each other counter; `iMiss` and `dStall`
      hold IF back alike, so the longer of the two counts. */
  predicate PhaseCovered(s: Sim) {
    if s.dMiss == 0 && s.xStall > 0 then Max(Minus(s.iMiss, 1), Minus(s.dStall, 1)) >= DStallAfterX(s.pipe.instr)
    else
      && XStallOf(s.pipe.instr) == 0
      && Max(Minus(s.iMiss, s.dMiss), Minus(s.dStall, s.dMiss)) >= DStallOf(s.pipe.instr)
  }

  lemma PhaseStep(s: Sim)
    requires Stalled(s) && s.xStall <= 1
    requires s.dMiss > 0 || s.xStall > 0 || XStallOf(s.pipe.instr) == 0
    ensures PhaseCovered(CountDown(Shift(s))) <==> PhaseCovered(s)
  {
    hide OpBranch, LoadOp, LoadBranch;
    var p := s.pipe.instr;
    EmptySlotFree(p.ifS);
    EmptySlotFree(p.idS);
    EmptySlotFree(p.exS);
    HazardValues(p.ifS, p.idS);
    HazardValues(p.ifS, p.exS);
  }

  lemma PhaseFrame(s: Sim, s': Sim)
    requires s'.pipe.instr == s.pipe.instr && s'.iMiss == s.iMiss && s'.dStall == s.dStall && s'.xStall == s.xStall
    requires s'.dMiss == s.dMiss || (s'.dMiss > s.dMiss && s.xStall == 0)
    ensures PhaseCovered(s') ==> PhaseCovered(s)
    ensures s'.dMiss == s.dMiss && PhaseCovered(s) ==> PhaseCovered(s')
  {
    hide XStallOf, DStallOf, DStallAfterX;
  }

  lemma StallCovers(s: Sim)
    requires Ready(s) && Stalled(s) && s.xStall <= 1 && Separated(s.pipe.instr)
    ensures PhaseCovered(s) && Stall(s).dMiss == Minus(s.dMiss, 1) ==> PhaseCovered(Stall(s))
    ensures Separated(Stall(s).pipe.instr) && PhaseCovered(Stall(s)) ==> PhaseCovered(s)
  {
    hide Stall, Shift, Penalty, DCacheAfter, StillStalled, Separated, XStallOf, DStallOf, DStallAfterX, PhaseCovered;
    StallSeparatesIff(s);
    StallFields(s);
    ShiftKeepsCounters(s);
    PhaseFrame(CountDown(Shift(s)), Stall(s));
    if Separated(Stall(s).pipe.instr) {
      PhaseStep(s);
    } else {
      NotCovered(s);
    }
  }

  lemma NotCovered(s: Sim)
    requires s.dMiss == 0 && s.xStall == 0 && XStallOf(s.pipe.instr) != 0
    ensures !PhaseCovered(s)
  {
  }

  lemma EnterCovers(s: Sim, info: InstructionInfo)
    requires Ready(s) && WillFetch(s)
    ensures Enter(s, info).dMiss == 0 ==> PhaseCovered(Enter(s, info))
  {
    hide Enter, Penalty, DCacheAfter, AccessCache, AddressOf, Holds, OpBranch, LoadOp, LoadBranch;
    EnterFields(s, info);
    var p := Enter(s, info).pipe.instr;
    HazardValues(p.idS, p.exS);
  }

  /** The call charges a data miss. */
  predicate Charges(s: Sim, info: InstructionInfo)
    requires Ready(s)
  {
    Cycle(s, info).dMiss > Minus(s.dMiss, 1)
  }

  /** The calls after which the counters need not cover the hazards: those that charge a data miss, and those in which
      a fault lets an empty slot enter without a look at the hazards. */
  predicate Disturbs(s: Sim, info: InstructionInfo)
    requires Ready(s)
  {
    Charges(s, info) || s.except > 0 || (WillFetch(s) && Faulty(info))
  }

  lemma AdvanceCovers(s: Sim, info: InstructionInfo)
    requires Ready(s) && Separated(s.pipe.instr) && s.xStall <= 1 && !EntersHalt(s, info)
    requires s.except > 0 ==> !Stalled(s)
    ensures var c := Pipeline.Advance(s, info);
      && (PhaseCovered(s) ==> Separated(c.pipe.instr))
      && (PhaseCovered(s) && c.dMiss <= Minus(s.dMiss, 1) && s.except == 0 && !(WillFetch(s) && Faulty(info))
          ==> PhaseCovered(c))
      && (Separated(c.pipe.instr) && PhaseCovered(c) ==> PhaseCovered(s))
  {
    hide Enter, Stall, Flush, Separated, XStallOf, DStallOf, DStallAfterX;
    AdvanceSeparatesIff(s, info);
    if s.except == 0 {
      if Stalled(s) {
        StallMiss(s);
        StallCovers(s);
      } else {
        EnterCovers(s.(fetched := s.fetched + 1), info);
      }
    }
  }

  lemma StallMiss(s: Sim)
    requires Ready(s)
    ensures Stall(s).dMiss >= Minus(s.dMiss, 1)
  {
    hide Stall, Penalty, DCacheAfter;
    StallFields(s);
  }

  /** One call, if it does not fetch HALT: coverage keeps dependents apart, lasts through every call that does not
      disturb it, and cannot come back once it is lost unless they have met. */
  lemma CycleCovers(s: Sim, info: InstructionInfo)
    requires Ready(s) && Separated(s.pipe.instr) && s.xStall <= 1 && !EntersHalt(s, info)
    requires s.except > 0 ==> !Stalled(s)
    ensures var c := Cycle(s, info);
      && (PhaseCovered(s) ==> Separated(c.pipe.instr))
      && (PhaseCovered(s) && !Disturbs(s, info) ==> PhaseCovered(c))
      && (Separated(c.pipe.instr) && PhaseCovered(c) ==> PhaseCovered(s))
  {
    hide Pipeline.Advance, EntersHalt, Separated, PhaseCovered;
    var t := Stamp(s);
    HaltUnstamped(s, info);
    PhaseFrame(s, t);
    AdvanceCovers(t, info);
    PhaseFrame(Pipeline.Advance(t, info), Cycle(s, info));
  }

  lemma AdvanceSeparates(s: Sim, info: InstructionInfo)
    requires Ready(s) && s.dMiss == 0 && s.xStall <= 1 && s.except == 0
    requires Separated(s.pipe.instr) && HazardsCovered(s) && !(WillFetch(s) && (Faulty(info) || info.isHalt))
    ensures Separated(Pipeline.Advance(s, info).pipe.instr) && HazardsCovered(Pipeline.Advance(s, info))
  {
    hide Enter, Stall, Separated, HazardsCovered;
    if Stalled(s) {
      StallSeparates(s);
    } else {
      var t := s.(fetched := s.fetched + 1);
      HazardsCoveredFrame(s, t);
      EnterSeparates(t, info);
    }
  }

  lemma HazardsCoveredFrame(s: Sim, s': Sim)
    requires HazardsCovered(s) && s'.pipe.instr == s.pipe.instr && s'.xStall == s.xStall && s'.dStall == s.dStall
    ensures HazardsCovered(s')
  {
  }

  lemma CycleSeparates(s: Sim, info: InstructionInfo)
    requires Ready(s) && s.dMiss == 0 && s.xStall <= 1 && s.except == 0
    requires Separated(s.pipe.instr) && HazardsCovered(s) && !(WillFetch(s) && (Faulty(info) || info.isHalt))
    ensures Separated(Cycle(s, info).pipe.instr) && HazardsCovered(Cycle(s, info))
  {
    hide Pipeline.Advance, Separated, HazardsCovered;
    HazardsCoveredFrame(s, Stamp(s));
    AdvanceSeparates(Stamp(s), info);
    HazardsCoveredFrame(Pipeline.Advance(Stamp(s), info), Cycle(s, info));
  }
}
