/** Where the cycles go: every cycle is a fetch, a stall or an exception bubble; every miss is paid for in
    full, once; and the whole run is bounded by the number of instructions. */
module Accounting {
  import opened Words
  import opened Instructions
  import opened EmulatorModel
  import opened CacheModel
  import opened Pipeline
  import opened History

  // ---------- Frames ----------

  /** The fields that accounting looks at, apart from the cycle counter. */
  ghost predicate SameCounters(s: Sim, s': Sim) {
    && s'.iMiss == s.iMiss && s'.dMiss == s.dMiss && s'.dStall == s.dStall && s'.xStall == s.xStall
    && s'.except == s.except && s'.iCache == s.iCache && s'.dCache == s.dCache && s'.fetched == s.fetched
  }

  ghost predicate SameCounts(h: Hist, h': Hist) {
    && h'.stalls == h.stalls && h'.bubbles == h.bubbles && h'.frozen == h.frozen && h'.charged == h.charged
    && h'.lookups == h.lookups && h'.missed == h.missed
  }

  lemma FlushesFrame(s: Sim, h: Hist)
    ensures SameCounters(s, Flush(Flush(Flush(Flush(s)))).(halted := true))
    ensures SameCounts(h, FlushTokens(FlushTokens(FlushTokens(FlushTokens(h)))))
    ensures Flush(Flush(Flush(Flush(s)))).cycleCount == s.cycleCount + 4
  {
  }

  // ---------- Bounds of the counters ----------

  ghost predicate Bounded(s: Sim) {
    && (s.except > 0 ==> !Stalled(s))
    && s.except <= 2 && s.xStall <= 1 && s.dStall <= 2
    && s.iMiss <= s.iCache.config.missLatency
    && s.dMiss <= s.dCache.config.missLatency
  }

  /** A pending data miss belongs to the instruction in MEM, whose block has arrived already: looking it up
      again during the freeze hits. */
  ghost predicate Resident(s: Sim)
    requires Ready(s)
  {
    s.dMiss > 0 ==> Asks(s) && Holds(s.dCache, s.addresses.memS)
  }

  lemma PenaltyBound(s: Sim)
    requires Ready(s)
    ensures Penalty(s) <= s.dCache.config.missLatency
    ensures Penalty(s) > 0 ==> Asks(s)
    ensures Asks(s) ==> Holds(DCacheAfter(s), s.addresses.memS)
    ensures Asks(s) && Holds(s.dCache, s.addresses.memS) ==> Penalty(s) == 0
  {
    hide Holds, AccessCache;
    if Asks(s) {
      HoldsAfterAccess(s.dCache, s.addresses.memS);
    }
  }

  lemma StallBounded(s: Sim)
    requires Ready(s) && Stalled(s) && Bounded(s) && Resident(s)
    ensures Bounded(Stall(s)) && Resident(Stall(s))
  {
    hide Stall, Penalty, DCacheAfter, Holds, Asks;
    var s1 := CountDown(Shift(s));
    StallFields(s);
    PenaltyBound(s1);
    AsksFrame(s1, Stall(s));
    if s.dMiss > 0 {
      AsksFrame(s, s1);
    }
  }

  lemma AsksFrame(s: Sim, s': Sim)
    requires s'.pipe.instr.memS == s.pipe.instr.memS && s'.addresses.memS == s.addresses.memS
    ensures Asks(s') == Asks(s)
  {
  }

  lemma DetectorBounds(p: Stages<Word>)
    ensures XStallOf(p) <= 1 && DStallOf(p) <= 2
  {
    ClassesDisjoint(p.idS);
  }

  lemma EnterBounded(s: Sim, info: InstructionInfo)
    requires Ready(s) && WillFetch(s)
    ensures Bounded(Enter(s, info)) && Resident(Enter(s, info))
  {
    hide Enter, Penalty, DCacheAfter, Holds, Asks, XStallOf, DStallOf, AccessCache;
    var i := Ingest(s, info.instruction, AddressOf(info));
    EnterFields(s, info);
    PenaltyBound(i);
    DetectorBounds(i.pipe.instr);
    AsksFrame(i, Enter(s, info));
    SameICacheConfig(s.iCache, info.pc);
  }

  lemma SameICacheConfig(c: CacheState, pc: Word)
    requires WellFormed(c)
    ensures AccessCache(c, pc).config == c.config
  {
  }

  ghost predicate Steady(s: Sim)
    requires Ready(s)
  {
    Bounded(s) && (!s.halted ==> Resident(s))
  }

  lemma AdvanceSteady(s: Sim, info: InstructionInfo)
    requires Ready(s) && !s.halted && Steady(s)
    ensures Steady(Pipeline.Advance(s, info))
  {
    hide Enter, Stall, Holds, Asks, IsLoad, IsStore;
    if s.except > 0 {
    } else if Stalled(s) {
      StallBounded(s);
    } else if !Faulty(info) {
      var t := s.(fetched := s.fetched + 1);
      EnterBounded(t, info);
      if info.isHalt {
        FlushesFrame(Enter(t, info), UNSTARTED);
      }
    }
  }

  lemma CycleSteady(s: Sim, info: InstructionInfo)
    requires Ready(s) && !s.halted && Steady(s)
    ensures Steady(Cycle(s, info))
  {
    hide Pipeline.Advance, Holds, Asks;
    AsksFrame(s, Stamp(s));
    AdvanceSteady(Stamp(s), info);
    AsksFrame(Pipeline.Advance(Stamp(s), info), Cycle(s, info));
  }

  // ---------- Latency conservation ----------

  /** Cycles spent on misses and cycles still owed are exactly the latencies of the misses that occurred. */
  ghost predicate Ledger(s: Sim, h: Hist) {
    && h.frozen + s.dMiss == s.dCache.config.missLatency * s.dCache.misses
    && h.charged + s.iMiss == s.iCache.config.missLatency * s.iCache.misses
  }

  lemma AccessLedger(c: CacheState, a: Word)
    requires WellFormed(c)
    ensures var c' := AccessCache(c, a);
      c'.config == c.config
      && c.config.missLatency * c'.misses
      == c.config.missLatency * c.misses + if Holds(c, a) then 0 else c.config.missLatency
  {
    hide Holds, Recency.Access, Index, Tag;
    var k := c.config.missLatency;
    assert k * (c.misses + 1) == k * c.misses + k;
  }

  lemma PenaltyLedger(s: Sim)
    requires Ready(s)
    ensures DCacheAfter(s).config == s.dCache.config
    ensures s.dCache.config.missLatency * DCacheAfter(s).misses
         == s.dCache.config.missLatency * s.dCache.misses + Penalty(s)
  {
    hide Holds, AccessCache, Asks;
    AccessLedger(s.dCache, s.addresses.memS);
  }

  lemma StallLedger(s: Sim, h: Hist)
    requires Ready(s) && Ledger(s, h)
    ensures Ledger(Stall(s), Stalls(s, h))
  {
    hide Stall, Penalty, DCacheAfter, Holds, Asks;
    StallFields(s);
    PenaltyLedger(CountDown(Shift(s)));
  }

  lemma EnterLedger(s: Sim, h: Hist, info: InstructionInfo)
    requires Ready(s) && WillFetch(s) && Ledger(s, h)
    ensures Ledger(Enter(s.(fetched := s.fetched + 1), info), FetchedInto(s, h, info))
  {
    hide Enter, Penalty, DCacheAfter, Holds, Asks, AccessCache, XStallOf, DStallOf, AddressOf;
    var t := s.(fetched := s.fetched + 1);
    EnterFields(t, info);
    PenaltyLedger(Ingest(t, info.instruction, AddressOf(info)));
    AccessLedger(s.iCache, info.pc);
  }

  lemma AdvanceLedger(s: Sim, h: Hist, info: InstructionInfo)
    requires Ready(s) && Ledger(s, h)
    ensures Ledger(Pipeline.Advance(s, info), Advances(s, h, info))
  {
    hide Enter, Stall, Stalls, FetchedInto, Ledger;
    if s.except > 0 {
      LedgerFrame(s, Bubble(s), h, Enters(h.(bubbles := h.bubbles + 1), Empty));
    } else if Stalled(s) {
      StallLedger(s, h);
    } else if Faulty(info) {
      LedgerFrame(s, Pipeline.Fetch(s, info), h, Enters(h, Empty));
    } else {
      var e, g := Enter(s.(fetched := s.fetched + 1), info), FetchedInto(s, h, info);
      EnterLedger(s, h, info);
      if info.isHalt {
        FlushesFrame(e, g);
        LedgerFrame(e, Pipeline.Fetch(s, info), g, History.Fetches(s, h, info));
      }
    }
  }

  lemma LedgerFrame(s: Sim, s': Sim, h: Hist, h': Hist)
    requires Ledger(s, h)
    requires s'.iMiss == s.iMiss && s'.dMiss == s.dMiss && s'.iCache == s.iCache && s'.dCache == s.dCache
    requires h'.frozen == h.frozen && h'.charged == h.charged
    ensures Ledger(s', h')
  {
  }

  lemma NextLedger(s: Sim, h: Hist, info: InstructionInfo)
    requires Ready(s) && Ledger(s, h)
    ensures Ledger(Cycle(s, info), Next(s, h, info))
  {
    hide Pipeline.Advance, Advances, Ledger;
    LedgerFrame(s, Stamp(s), h, h);
    AdvanceLedger(Stamp(s), h, info);
    LedgerFrame(Pipeline.Advance(Stamp(s), info), Cycle(s, info), Advances(Stamp(s), h, info), Next(s, h, info));
  }

  // ---------- Every cycle is a fetch, a stall or a bubble ----------

  /** Cycles the counters other than `dMiss` will still cost. */
  function Owed(s: Sim): nat {
    Max(s.iMiss, Max(s.dStall, s.xStall))
  }

  ghost predicate Balanced(s: Sim, h: Hist, infos: Stream) {
    && s.cycleCount == s.fetched + h.stalls + h.bubbles + (if s.halted then 4 else 0)
    && h.bubbles + s.except == FaultBubbles(infos, s.fetched)
  }

  /** Stall cycles so far and owed: at most max(iLatency, 2) per instruction that entered, and dLatency
      per data miss. */
  ghost predicate StallsBounded(s: Sim, h: Hist, infos: Stream) {
    h.stalls + Owed(s) + s.dMiss
    <= Max(s.iCache.config.missLatency, 2) * |Faultless(infos, s.fetched)|
       + s.dCache.config.missLatency * s.dCache.misses
  }

  lemma StallStallsBounded(s: Sim, h: Hist, infos: Stream)
    requires Ready(s) && Stalled(s) && StallsBounded(s, h, infos)
    ensures StallsBounded(Stall(s), Stalls(s, h), infos)
  {
    hide Stall, Penalty, DCacheAfter, Holds, Asks, Faultless;
    StallFields(s);
    PenaltyLedger(CountDown(Shift(s)));
    StallFetched(s, h);
  }

  lemma StallFetched(s: Sim, h: Hist)
    requires Ready(s)
    ensures Stall(s).fetched == s.fetched && Stall(s).halted == s.halted && Stall(s).cycleCount == s.cycleCount
    ensures Stall(s).except == s.except && Stall(s).iCache == s.iCache
    ensures Stalls(s, h).stalls == h.stalls + 1 && Stalls(s, h).bubbles == h.bubbles
  {
    hide Stall, Penalty, DCacheAfter, Holds, Asks;
    StallFields(s);
  }

  lemma EnterStallsBounded(s: Sim, h: Hist, infos: Stream)
    requires Ready(s) && WillFetch(s) && StallsBounded(s, h, infos) && !Faulty(infos(s.fetched))
    ensures StallsBounded(Enter(s.(fetched := s.fetched + 1), infos(s.fetched)),
                          FetchedInto(s, h, infos(s.fetched)), infos)
  {
    hide Enter, Penalty, DCacheAfter, Holds, Asks, AccessCache, XStallOf, DStallOf, AddressOf;
    var info := infos(s.fetched);
    var t := s.(fetched := s.fetched + 1);
    var i := Ingest(t, info.instruction, AddressOf(info));
    EnterFields(t, info);
    PenaltyLedger(i);
    DetectorBounds(i.pipe.instr);
    SameICacheConfig(s.iCache, info.pc);
    OneMore(Max(s.iCache.config.missLatency, 2), |Faultless(infos, s.fetched)|);
  }

  lemma OneMore(k: nat, n: nat)
    ensures k * (n + 1) == k * n + k
  {
  }

  lemma EnterFetched(s: Sim, h: Hist, info: InstructionInfo)
    requires Ready(s) && WillFetch(s)
    ensures var e, g := Enter(s.(fetched := s.fetched + 1), info), FetchedInto(s, h, info);
      e.fetched == s.fetched + 1 && e.halted == s.halted && e.cycleCount == s.cycleCount && e.except == 0
      && g.stalls == h.stalls && g.bubbles == h.bubbles
  {
    hide Enter, Penalty, DCacheAfter, Holds, Asks, AccessCache, XStallOf, DStallOf, AddressOf;
    EnterFields(s.(fetched := s.fetched + 1), info);
  }

  lemma NextBalanced(s: Sim, h: Hist, infos: Stream)
    requires Ready(s) && !s.halted && Bounded(s) && Balanced(s, h, infos)
    ensures Balanced(Cycle(s, infos(s.fetched)), Next(s, h, infos(s.fetched)), infos)
  {
    hide Enter, Stall, Stalls, FetchedInto, Holds, Flush, FlushTokens;
    var t, info := Stamp(s), infos(s.fetched);
    if s.except > 0 {
    } else if Stalled(s) {
      StallFetched(t, h);
    } else if !Faulty(info) {
      EnterFetched(t, h, info);
      FlushesFrame(Enter(t.(fetched := s.fetched + 1), info), FetchedInto(t, h, info));
    }
  }

  lemma NextStallsBounded(s: Sim, h: Hist, infos: Stream)
    requires Ready(s) && StallsBounded(s, h, infos)
    ensures StallsBounded(Cycle(s, infos(s.fetched)), Next(s, h, infos(s.fetched)), infos)
  {
    hide StallsBounded, Pipeline.Advance, Advances;
    var t, info := Stamp(s), infos(s.fetched);
    StallsFrame(s, t, h, h, infos);
    AdvanceStallsBounded(t, h, infos);
    StallsFrame(Pipeline.Advance(t, info), Cycle(s, info), Advances(t, h, info), Next(s, h, info), infos);
  }

  lemma StallsFrame(s: Sim, s': Sim, h: Hist, h': Hist, infos: Stream)
    requires StallsBounded(s, h, infos) && h'.stalls == h.stalls
    requires s'.iMiss == s.iMiss && s'.dMiss == s.dMiss && s'.dStall == s.dStall && s'.xStall == s.xStall
    requires s'.iCache == s.iCache && s'.dCache == s.dCache
    requires s'.fetched == s.fetched || (s'.fetched == s.fetched + 1 && Faulty(infos(s.fetched)))
    ensures StallsBounded(s', h', infos)
  {
  }

  lemma AdvanceStallsBounded(s: Sim, h: Hist, infos: Stream)
    requires Ready(s) && StallsBounded(s, h, infos)
    ensures StallsBounded(Pipeline.Advance(s, infos(s.fetched)), Advances(s, h, infos(s.fetched)), infos)
  {
    hide Enter, Stall, Stalls, FetchedInto, StallsBounded, Flush, FlushTokens;
    var info := infos(s.fetched);
    if s.except > 0 {
      StallsFrame(s, Bubble(s), h, Enters(h.(bubbles := h.bubbles + 1), Empty), infos);
    } else if Stalled(s) {
      StallStallsBounded(s, h, infos);
    } else if Faulty(info) {
      StallsFrame(s, Pipeline.Fetch(s, info), h, Enters(h, Empty), infos);
    } else {
      var e, g := Enter(s.(fetched := s.fetched + 1), info), FetchedInto(s, h, info);
      EnterStallsBounded(s, h, infos);
      if info.isHalt {
        FlushesFrame(e, g);
        StallsFrame(e, Pipeline.Fetch(s, info), g, History.Fetches(s, h, info), infos);
      }
    }
  }

  // ---------- Exactly how many stall cycles ----------

  /** The stall cycles still due: all counters run down together. */
  function Due(s: Sim): nat {
    Max(Owed(s), s.dMiss)
  }

  /** By how much a call lengthens what is due. A fetch sets four counters at once, and the longest counts; a data miss
      charged during a stall counts with what it has more than the counters that run beside it. */
  function AddedStalls(s: Sim, info: InstructionInfo): nat
    requires Ready(s)
  {
    if s.except > 0 then 0
    else if Stalled(s) then
      if StillStalled(s) then Minus(Penalty(CountDown(Shift(s))), Minus(Owed(s), 1)) else 0
    else if Faulty(info) then 0
    else
      var i := Ingest(s, info.instruction, AddressOf(info));
      var miss := if Holds(s.iCache, info.pc) then 0 else s.iCache.config.missLatency;
      Max(Max(miss, Max(DStallOf(i.pipe.instr), XStallOf(i.pipe.instr))), Penalty(i))
  }

  lemma StallAdds(s: Sim, info: InstructionInfo)
    requires Ready(s) && s.except == 0 && Stalled(s) && Resident(s)
    ensures Due(Stall(s)) + 1 == Due(s) + AddedStalls(s, info)
  {
    hide Stall, Penalty, DCacheAfter, Resident, Shift, CountDown;
    StallFields(s);
    ShiftKeepsCounters(s);
    if s.dMiss > 0 {
      FreezeHits(s);
    }
  }

  /** What is looked up again during a freeze is there. */
  lemma FreezeHits(s: Sim)
    requires Ready(s) && Resident(s) && s.dMiss > 0
    ensures Penalty(CountDown(Shift(s))) == 0
  {
    hide Penalty, Holds, Asks;
    AsksFrame(s, CountDown(Shift(s)));
    PenaltyBound(CountDown(Shift(s)));
  }

  lemma EnterAdds(s: Sim, info: InstructionInfo)
    requires Ready(s) && WillFetch(s) && !Faulty(info)
    ensures Due(Enter(s.(fetched := s.fetched + 1), info)) == AddedStalls(s, info)
  {
    hide Enter, Penalty, DCacheAfter, Holds, Asks, AccessCache, XStallOf, DStallOf, AddressOf;
    var t := s.(fetched := s.fetched + 1);
    EnterFields(t, info);
    PenaltyFrame(Ingest(t, info.instruction, AddressOf(info)), Ingest(s, info.instruction, AddressOf(info)));
  }

  lemma PenaltyFrame(s: Sim, s': Sim)
    requires Ready(s) && Ready(s') && s'.dCache == s.dCache
    requires s'.pipe.instr == s.pipe.instr && s'.addresses == s.addresses
    ensures Penalty(s') == Penalty(s)
  {
  }

  lemma AdvanceAdds(s: Sim, h: Hist, info: InstructionInfo)
    requires Ready(s) && !s.halted && Steady(s)
    ensures Advances(s, h, info).stalls + Due(Pipeline.Advance(s, info)) == h.stalls + Due(s) + AddedStalls(s, info)
  {
    hide Enter, Stall, Stalls, FetchedInto, Resident, Penalty, Holds, XStallOf, DStallOf, Flush, FlushTokens;
    if s.except == 0 {
      if Stalled(s) {
        StallFetched(s, h);
        StallAdds(s, info);
      } else if !Faulty(info) {
        EnterFetched(s, h, info);
        EnterAdds(s, info);
        FlushesFrame(Enter(s.(fetched := s.fetched + 1), info), FetchedInto(s, h, info));
      }
    }
  }

  /** Stall cycles spent and due grow in every call by exactly what it adds. */
  lemma NextAdds(s: Sim, h: Hist, info: InstructionInfo)
    requires Ready(s) && !s.halted && Steady(s)
    ensures Next(s, h, info).stalls + Due(Cycle(s, info)) == h.stalls + Due(s) + AddedStalls(s, info)
  {
    hide Pipeline.Advance, Advances, Holds, Asks, AddedStalls;
    AsksFrame(s, Stamp(s));
    StampAdds(s, info);
    AdvanceAdds(Stamp(s), h, info);
  }

  lemma StampAdds(s: Sim, info: InstructionInfo)
    requires Ready(s)
    ensures AddedStalls(Stamp(s), info) == AddedStalls(s, info)
  {
    hide Holds, XStallOf, DStallOf, AddressOf, IsLoad, IsStore;
  }
}
