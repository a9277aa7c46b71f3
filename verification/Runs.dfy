/** Whole runs of the timing machine from a cold start, over any stream of instruction reports: what holds
    after every number of calls, and at HALT. */
module Runs {
  import opened Words
  import opened Instructions
  import opened EmulatorModel
  import opened CacheModel
  import opened Pipeline
  import opened History
  import opened Retirement
  import opened Accounting
  import opened Lookups

  predicate Drained(tok: Stages<Token>) {
    tok.ifS == tok.idS == tok.exS == tok.memS == Empty
  }

  /** Exactly the last instruction fetched by a halted machine is HALT, and its pipeline is drained. */
  ghost predicate Halting(s: Sim, h: Hist, infos: Stream) {
    && (forall k: nat :: k < s.fetched && infos(k).isHalt ==> s.halted && k == s.fetched - 1)
    && (s.halted ==> s.fetched > 0 && infos(s.fetched - 1).isHalt && s.except == 0 && Drained(h.tok))
  }

  lemma NextHalting(s: Sim, h: Hist, infos: Stream)
    requires Ready(s) && !s.halted && Halting(s, h, infos) && Sound(infos)
    ensures Halting(Cycle(s, infos(s.fetched)), Next(s, h, infos(s.fetched)), infos)
  {
    hide Enter, Stall, Stalls, Noted, Holds, Flush, FlushTokens;
    var t, info := Stamp(s), infos(s.fetched);
    CycleFetches(s, info);
    if WillFetch(s) && !Faulty(info) && info.isHalt {
      FlushKeepsOrder(FetchedInto(t, h, info));
      EnterFetched(t, h, info);
      FlushesFrame(Enter(t.(fetched := s.fetched + 1), info), FetchedInto(t, h, info));
    }
  }

  /** The latency of so many misses. */
  function MissCycles(c: CacheConfig, misses: nat): nat {
    c.missLatency * misses
  }

  /** Stall cycles at HALT pay in full for the instruction misses of all instructions but HALT itself. */
  ghost predicate Paid(s: Sim, h: Hist, infos: Stream, c: CacheConfig)
    requires ValidConfig(c)
  {
    && h.frozen <= h.stalls && h.charged <= h.stalls
    && (s.halted ==> s.fetched > 0 && h.charged == MissCycles(c, MissesBefore(infos, c, s.fetched - 1)))
  }

  /** The instruction misses among the first n instructions. */
  function MissesBefore(infos: Stream, c: CacheConfig, n: nat): nat
    requires ValidConfig(c)
  {
    Replay(Cold(c), Pcs(infos, Faultless(infos, n))).misses
  }

  lemma NextCounts(s: Sim, h: Hist, info: InstructionInfo)
    requires Ready(s)
    ensures var h' := Next(s, h, info);
      var one := if s.except == 0 && Stalled(s) then 1 else 0;
      && h'.stalls == h.stalls + one
      && h'.frozen == h.frozen + (if s.dMiss > 0 then one else 0)
      && h'.charged == h.charged + (if s.iMiss > 0 then one else 0)
  {
    hide Asks, Holds, AddressOf, Shift, ShiftTokens, StillStalled;
  }

  lemma NextPaid(s: Sim, h: Hist, infos: Stream, c: CacheConfig)
    requires Ready(s) && !s.halted && ValidConfig(c) && Ledger(s, h) && ICacheReplays(s, infos, c)
    requires Paid(s, h, infos, c)
    ensures Paid(Cycle(s, infos(s.fetched)), Next(s, h, infos(s.fetched)), infos, c)
  {
    hide Cycle, Next, Replay, Pcs, Faultless;
    CycleFetches(s, infos(s.fetched));
    NextCounts(s, h, infos(s.fetched));
  }

  lemma SteadyBounds(s: Sim)
    requires Ready(s) && Steady(s)
    ensures s.except > 0 ==> !Stalled(s)
  {
  }

  /** Everything that holds of a run. */
  ghost predicate Invariant(s: Sim, h: Hist, infos: Stream, iConfig: CacheConfig, dConfig: CacheConfig)
    requires Ready(s) && ValidConfig(iConfig) && ValidConfig(dConfig)
  {
    && InOrder(s, h, infos) && Traced(s, h, infos)
    && Steady(s) && Ledger(s, h) && Balanced(s, h, infos) && StallsBounded(s, h, infos)
    && Once(s, h) && ICacheReplays(s, infos, iConfig) && DCacheReplays(s, h, infos, dConfig)
    && Waiting(s, h) && Halting(s, h, infos) && Paid(s, h, infos, iConfig)
  }

  lemma InitiallyInvariant(infos: Stream, iConfig: CacheConfig, dConfig: CacheConfig)
    requires ValidConfig(iConfig) && ValidConfig(dConfig)
    ensures Invariant(Initial(iConfig, dConfig), UNSTARTED, infos, iConfig, dConfig)
  {
    hide Recency.Access, Holds, IsLoad, IsStore;
  }

  lemma InvariantKept(s: Sim, h: Hist, infos: Stream, iConfig: CacheConfig, dConfig: CacheConfig)
    requires Ready(s) && ValidConfig(iConfig) && ValidConfig(dConfig)
    requires Sound(infos) && !s.halted && Invariant(s, h, infos, iConfig, dConfig)
    ensures Invariant(Cycle(s, infos(s.fetched)), Next(s, h, infos(s.fetched)), infos, iConfig, dConfig)
  {
    hide Cycle, Next, InOrder, Aligned, Shown, Bounded, Resident, Ledger, Balanced, StallsBounded, Once,
      ICacheReplays, DCacheReplays, Waiting, Halting, Paid, Sound;
    var info := infos(s.fetched);
    NextKeepsOrder(s, h, infos);
    NextKeepsTrace(s, h, infos);
    CycleSteady(s, info);
    NextLedger(s, h, info);
    NextBalanced(s, h, infos);
    NextStallsBounded(s, h, infos);
    NextOnce(s, h, info);
    NextICache(s, infos, iConfig);
    NextDCache(s, h, infos, dConfig);
    SteadyBounds(s);
    NextWaits(s, h, infos);
    NextHalting(s, h, infos);
    NextPaid(s, h, infos, iConfig);
  }

  lemma {:induction false} RunInvariant(infos: Stream, iConfig: CacheConfig, dConfig: CacheConfig, n: nat)
    requires ValidConfig(iConfig) && ValidConfig(dConfig) && Sound(infos)
    ensures var s0 := Initial(iConfig, dConfig);
      Invariant(RunCycles(s0, infos, n), HistoryOf(s0, infos, n), infos, iConfig, dConfig)
  {
    hide Cycle, Next, Invariant, Initial, Sound;
    var s0 := Initial(iConfig, dConfig);
    if n == 0 {
      InitiallyInvariant(infos, iConfig, dConfig);
    } else {
      RunInvariant(infos, iConfig, dConfig, n - 1);
      var p := RunCycles(s0, infos, n - 1);
      if !p.halted {
        InvariantKept(p, HistoryOf(s0, infos, n - 1), infos, iConfig, dConfig);
      }
    }
  }

  /** The state after n calls from a cold start, and its history. */
  function StateAt(infos: Stream, iConfig: CacheConfig, dConfig: CacheConfig, n: nat): (s: Sim)
    requires ValidConfig(iConfig) && ValidConfig(dConfig)
    ensures Ready(s)
  {
    RunCycles(Initial(iConfig, dConfig), infos, n)
  }

  function HistoryAt(infos: Stream, iConfig: CacheConfig, dConfig: CacheConfig, n: nat): Hist
    requires ValidConfig(iConfig) && ValidConfig(dConfig)
  {
    HistoryOf(Initial(iConfig, dConfig), infos, n)
  }

  lemma OneMoreCall(infos: Stream, iConfig: CacheConfig, dConfig: CacheConfig, n: nat)
    requires ValidConfig(iConfig) && ValidConfig(dConfig)
    ensures var s, h := StateAt(infos, iConfig, dConfig, n), HistoryAt(infos, iConfig, dConfig, n);
      && StateAt(infos, iConfig, dConfig, n + 1) == (if s.halted then s else Cycle(s, infos(s.fetched)))
      && HistoryAt(infos, iConfig, dConfig, n + 1) == (if s.halted then h else Next(s, h, infos(s.fetched)))
  {
    hide Cycle, Next, Initial;
  }

  // ---------- Retirement ----------

  /** In-order, exactly-once retirement. At every moment the retired instructions followed by those in flight are
      the faultless instructions fetched; the WB values dumped so far, empty slots dropped, are the words of
      the retired ones; and at HALT they are the words of all of them, HALT being the last. */
  lemma RetiresInOrder(infos: Stream, iConfig: CacheConfig, dConfig: CacheConfig, n: nat)
    requires ValidConfig(iConfig) && ValidConfig(dConfig) && Sound(infos)
    ensures var s, h := StateAt(infos, iConfig, dConfig, n), HistoryAt(infos, iConfig, dConfig, n);
      var shown := Displayed(s.output);
      && h.retired + InFlight(h.tok) == Faultless(infos, s.fetched)
      && shown == InstructionsOf(infos, h.retired)
      && (s.halted ==> shown == InstructionsOf(infos, Faultless(infos, s.fetched))
                       && shown != [] && shown[|shown| - 1] == HALT)
  {
    hide StateAt, HistoryAt, Displayed, Faultless, InstructionsOf, Aligned, Steady, Ledger, Balanced,
      StallsBounded, Once, ICacheReplays, DCacheReplays;
    RunFacts(infos, iConfig, dConfig, n);
    var s, h := StateAt(infos, iConfig, dConfig, n), HistoryAt(infos, iConfig, dConfig, n);
    if s.halted {
      LastIsHalt(infos, s.fetched);
      assert h.retired + InFlight(h.tok) == h.retired;
    }
  }

  lemma RunFacts(infos: Stream, iConfig: CacheConfig, dConfig: CacheConfig, n: nat)
    requires ValidConfig(iConfig) && ValidConfig(dConfig) && Sound(infos)
    ensures Invariant(StateAt(infos, iConfig, dConfig, n), HistoryAt(infos, iConfig, dConfig, n),
                      infos, iConfig, dConfig)
  {
    hide Invariant, Sound;
    RunInvariant(infos, iConfig, dConfig, n);
  }

  lemma LastIsHalt(infos: Stream, n: nat)
    requires n > 0 && infos(n - 1).isHalt && Sound(infos)
    ensures var words := InstructionsOf(infos, Faultless(infos, n));
      words != [] && words[|words| - 1] == HALT
  {
    var ids := Faultless(infos, n);
    assert ids[..|ids| - 1] == Faultless(infos, n - 1);
    assert infos(n - 1).instruction == HALT;
  }

  // ---------- Addresses and caches ----------

  /** Every occupied stage holds the word and the effective address of one and the same dynamic instruction; the
      data cache has been fed the true addresses of the loads and stores it was asked for. */
  lemma AddressesFollowInstructions(infos: Stream, iConfig: CacheConfig, dConfig: CacheConfig, n: nat)
    requires ValidConfig(iConfig) && ValidConfig(dConfig) && Sound(infos)
    ensures var s, h := StateAt(infos, iConfig, dConfig, n), HistoryAt(infos, iConfig, dConfig, n);
      && Aligned(s, h.tok, infos)
      && s.dCache == Replay(Cold(dConfig), Addresses(infos, h.lookups))
      && (forall i :: 0 <= i < |h.lookups| ==> IsMemoryOp(infos(h.lookups[i])))
  {
    hide StateAt, HistoryAt, Aligned, Shown, Steady, Ledger, Balanced, StallsBounded, Once, ICacheReplays,
      Halting, InOrder;
    RunFacts(infos, iConfig, dConfig, n);
  }

  /** The instruction cache depends on no stall: its state, hits and misses included, is that of LRU fed the PCs of
      the faultless instructions. */
  lemma ICacheIgnoresTiming(infos: Stream, iConfig: CacheConfig, dConfig: CacheConfig, n: nat)
    requires ValidConfig(iConfig) && ValidConfig(dConfig) && Sound(infos)
    ensures var s := StateAt(infos, iConfig, dConfig, n);
      s.iCache == Replay(Cold(iConfig), Pcs(infos, Faultless(infos, s.fetched)))
  {
    hide StateAt, HistoryAt, Traced, Steady, Ledger, Balanced, StallsBounded, Once, DCacheReplays, Halting, InOrder;
    RunFacts(infos, iConfig, dConfig, n);
  }

  /** The loads and stores that miss are pairwise different, in program order, and account for every miss. */
  lemma MissesOncePerInstruction(infos: Stream, iConfig: CacheConfig, dConfig: CacheConfig, n: nat)
    requires ValidConfig(iConfig) && ValidConfig(dConfig) && Sound(infos)
    ensures var s, h := StateAt(infos, iConfig, dConfig, n), HistoryAt(infos, iConfig, dConfig, n);
      && Increasing(h.missed) && s.dCache.misses == |h.missed|
      && s.dCache.misses <= MemoryOps(infos, s.fetched)
  {
    hide StateAt, HistoryAt, Traced, Steady, Ledger, Balanced, StallsBounded, ICacheReplays, Halting, InOrder, Replay;
    RunFacts(infos, iConfig, dConfig, n);
    var s, h := StateAt(infos, iConfig, dConfig, n), HistoryAt(infos, iConfig, dConfig, n);
    IncreasingCount(infos, h.missed, s.fetched);
  }

  /** Lookups come in program order, and repeated ones, which a stall makes for an instruction that waits in MEM, only
      add hits: contents and misses of the data cache are those of LRU asked once per instruction. */
  lemma LookupsInOrder(infos: Stream, iConfig: CacheConfig, dConfig: CacheConfig, n: nat)
    requires ValidConfig(iConfig) && ValidConfig(dConfig) && Sound(infos)
    ensures var s, h := StateAt(infos, iConfig, dConfig, n), HistoryAt(infos, iConfig, dConfig, n);
      && NonDecreasing(h.lookups)
      && Increasing(Dedup(h.lookups)) && (forall k :: k in Dedup(h.lookups) <==> k in h.lookups)
      && SameButHits(Replay(Cold(dConfig), Addresses(infos, Dedup(h.lookups))), s.dCache)
  {
    hide StateAt, HistoryAt, Traced, Steady, Ledger, Balanced, StallsBounded, ICacheReplays, Waiting, Halting, Paid,
      InOrder, Replay, Increasing, Addresses, Dedup, NonDecreasing, ReachedMem, Holds, IsMemoryOp;
    RunFacts(infos, iConfig, dConfig, n);
    var h := HistoryAt(infos, iConfig, dConfig, n);
    DedupIncreasing(h.lookups);
    RepeatsDoNotMatter(infos, h.lookups, dConfig);
  }

  lemma {:induction false} StaysPassedBy(infos: Stream, iConfig: CacheConfig, dConfig: CacheConfig,
                                         n: nat, m: nat, k: nat)
    requires ValidConfig(iConfig) && ValidConfig(dConfig) && n <= m
    requires PassedBy(StateAt(infos, iConfig, dConfig, n), HistoryAt(infos, iConfig, dConfig, n), k)
    ensures PassedBy(StateAt(infos, iConfig, dConfig, m), HistoryAt(infos, iConfig, dConfig, m), k)
  {
    hide StateAt, HistoryAt, PassedBy, Cycle, Next;
    if n < m {
      StaysPassedBy(infos, iConfig, dConfig, n, m - 1, k);
      OneMoreCall(infos, iConfig, dConfig, m - 1);
      NextPassesBy(StateAt(infos, iConfig, dConfig, m - 1), HistoryAt(infos, iConfig, dConfig, m - 1), infos, k);
    }
  }

  lemma {:induction false} StaysLookedUp(infos: Stream, iConfig: CacheConfig, dConfig: CacheConfig,
                                         n: nat, m: nat, k: nat)
    requires ValidConfig(iConfig) && ValidConfig(dConfig) && n <= m
    requires k in HistoryAt(infos, iConfig, dConfig, n).lookups
    ensures k in HistoryAt(infos, iConfig, dConfig, m).lookups
  {
    hide StateAt, HistoryAt, Cycle, Next;
    if n < m {
      StaysLookedUp(infos, iConfig, dConfig, n, m - 1, k);
      OneMoreCall(infos, iConfig, dConfig, m - 1);
      var s, h := StateAt(infos, iConfig, dConfig, m - 1), HistoryAt(infos, iConfig, dConfig, m - 1);
      NextKeepsLookups(s, h, infos(s.fetched), k);
    }
  }

  /** An instruction that is in MEM and has not been looked up never is, however long the run goes on. */
  lemma SkippedForever(infos: Stream, iConfig: CacheConfig, dConfig: CacheConfig, n: nat, m: nat, k: nat)
    requires ValidConfig(iConfig) && ValidConfig(dConfig) && Sound(infos) && n <= m
    requires HistoryAt(infos, iConfig, dConfig, n).tok.memS == Instr(k)
    requires k !in HistoryAt(infos, iConfig, dConfig, n).lookups
    ensures k !in HistoryAt(infos, iConfig, dConfig, m).lookups
  {
    hide StateAt, HistoryAt, Shown, Steady, Ledger, Balanced, StallsBounded, ICacheReplays, DCacheReplays, Paid,
      InOrder, Increasing, NonDecreasing, ReachedMem, Holds, Sound;
    RunFacts(infos, iConfig, dConfig, n);
    StaysPassedBy(infos, iConfig, dConfig, n, m, k);
  }

  /** Call n + 1 asks the data cache for instruction k, which it moves from EX to MEM. */
  ghost predicate AskedAt(infos: Stream, iConfig: CacheConfig, dConfig: CacheConfig, n: nat, k: nat)
    requires ValidConfig(iConfig) && ValidConfig(dConfig)
  {
    var s, h := StateAt(infos, iConfig, dConfig, n), HistoryAt(infos, iConfig, dConfig, n);
    !s.halted && AsksFor(s, h, infos, k)
  }

  /** Exactly which instructions the data cache is asked for, over any run. An instruction is looked up if and only if
      some call before HALT has been returned moves it from EX to MEM, that call is a faultless fetch or a stall that
      leaves another counter running, and the instruction is a load or store with an address. */
  lemma {:induction false} LookedUpIff(infos: Stream, iConfig: CacheConfig, dConfig: CacheConfig, m: nat, k: nat)
    requires ValidConfig(iConfig) && ValidConfig(dConfig) && Sound(infos)
    ensures k in HistoryAt(infos, iConfig, dConfig, m).lookups
       <==> exists n: nat :: n < m && AskedAt(infos, iConfig, dConfig, n, k)
  {
    hide StateAt, HistoryAt, AskedAt, Sound;
    if m == 0 {
      NothingAsked(infos, iConfig, dConfig);
    } else {
      LookedUpIff(infos, iConfig, dConfig, m - 1, k);
      OneCallAsks(infos, iConfig, dConfig, m - 1, k);
    }
  }

  lemma NothingAsked(infos: Stream, iConfig: CacheConfig, dConfig: CacheConfig)
    requires ValidConfig(iConfig) && ValidConfig(dConfig)
    ensures HistoryAt(infos, iConfig, dConfig, 0).lookups == []
  {
  }

  lemma OneCallAsks(infos: Stream, iConfig: CacheConfig, dConfig: CacheConfig, n: nat, k: nat)
    requires ValidConfig(iConfig) && ValidConfig(dConfig) && Sound(infos)
    ensures k in HistoryAt(infos, iConfig, dConfig, n + 1).lookups
       <==> k in HistoryAt(infos, iConfig, dConfig, n).lookups || AskedAt(infos, iConfig, dConfig, n, k)
  {
    hide StateAt, HistoryAt, Cycle, Next, AsksFor, Once, Waiting, Aligned, Stalled, Sound;
    var s, h := StateAt(infos, iConfig, dConfig, n), HistoryAt(infos, iConfig, dConfig, n);
    OneMoreCall(infos, iConfig, dConfig, n);
    LookupFacts(infos, iConfig, dConfig, n);
    if !s.halted {
      EntryLookup(s, h, infos, k);
    }
  }

  /** The call that moves an instruction to MEM decides about its lookup once and for all. */
  lemma EntryDecides(infos: Stream, iConfig: CacheConfig, dConfig: CacheConfig, n: nat, m: nat, k: nat)
    requires ValidConfig(iConfig) && ValidConfig(dConfig) && Sound(infos) && n < m
    requires var s, h := StateAt(infos, iConfig, dConfig, n), HistoryAt(infos, iConfig, dConfig, n);
      !s.halted && h.tok.exS == Instr(k) && MovesOn(s)
    ensures var s := StateAt(infos, iConfig, dConfig, n);
      k in HistoryAt(infos, iConfig, dConfig, m).lookups <==> LooksUp(s, infos(s.fetched)) && HasAddress(infos(k))
  {
    hide StateAt, HistoryAt, Cycle, Next, LooksUp, HasAddress, Once, Waiting, Aligned, Stalled, MovesOn, Sound;
    var s, h := StateAt(infos, iConfig, dConfig, n), HistoryAt(infos, iConfig, dConfig, n);
    LookupFacts(infos, iConfig, dConfig, n);
    LookupFromEx(s, h, infos, k);
    OneMoreCall(infos, iConfig, dConfig, n);
    if k in HistoryAt(infos, iConfig, dConfig, n + 1).lookups {
      StaysLookedUp(infos, iConfig, dConfig, n + 1, m, k);
    } else {
      EntryPassesBy(s, h, infos, k);
      StaysPassedBy(infos, iConfig, dConfig, n + 1, m, k);
    }
  }

  /** What stands in IF or ID when HALT enters is drained through MEM by the flush, and never looked up. */
  lemma DrainedUnasked(infos: Stream, iConfig: CacheConfig, dConfig: CacheConfig, n: nat, m: nat, k: nat)
    requires ValidConfig(iConfig) && ValidConfig(dConfig) && Sound(infos)
    requires var s, h := StateAt(infos, iConfig, dConfig, n), HistoryAt(infos, iConfig, dConfig, n);
      !s.halted && EntersHalt(s, infos(s.fetched)) && (h.tok.ifS == Instr(k) || h.tok.idS == Instr(k))
    ensures k !in HistoryAt(infos, iConfig, dConfig, m).lookups
  {
    hide StateAt, HistoryAt, Cycle, Next, Waiting, Aligned, Stalled, EntersHalt, Sound;
    var s, h := StateAt(infos, iConfig, dConfig, n), HistoryAt(infos, iConfig, dConfig, n);
    LookupFacts(infos, iConfig, dConfig, n);
    OneCallAsks(infos, iConfig, dConfig, n, k);
    assert k !in HistoryAt(infos, iConfig, dConfig, n + 1).lookups;
    HaltStops(infos, iConfig, dConfig, n);
    if m <= n {
      if k in HistoryAt(infos, iConfig, dConfig, m).lookups {
        StaysLookedUp(infos, iConfig, dConfig, m, n, k);
      }
    } else {
      HaltedKeeps(infos, iConfig, dConfig, n + 1, m);
    }
  }

  lemma HaltStops(infos: Stream, iConfig: CacheConfig, dConfig: CacheConfig, n: nat)
    requires ValidConfig(iConfig) && ValidConfig(dConfig)
    requires EntersHalt(StateAt(infos, iConfig, dConfig, n), infos(StateAt(infos, iConfig, dConfig, n).fetched))
    ensures StateAt(infos, iConfig, dConfig, n + 1).halted
  {
    hide Cycle, StateAt;
    var s := StateAt(infos, iConfig, dConfig, n);
    OneMoreCall(infos, iConfig, dConfig, n);
    CycleFetches(s, infos(s.fetched));
  }

  lemma {:induction false} HaltedKeeps(infos: Stream, iConfig: CacheConfig, dConfig: CacheConfig, n: nat, m: nat)
    requires ValidConfig(iConfig) && ValidConfig(dConfig) && n <= m && StateAt(infos, iConfig, dConfig, n).halted
    ensures StateAt(infos, iConfig, dConfig, m) == StateAt(infos, iConfig, dConfig, n)
    ensures HistoryAt(infos, iConfig, dConfig, m) == HistoryAt(infos, iConfig, dConfig, n)
  {
    hide Cycle, Next, StateAt, HistoryAt;
    if n < m {
      HaltedKeeps(infos, iConfig, dConfig, n, m - 1);
      OneMoreCall(infos, iConfig, dConfig, m - 1);
    }
  }

  lemma LookupFacts(infos: Stream, iConfig: CacheConfig, dConfig: CacheConfig, n: nat)
    requires ValidConfig(iConfig) && ValidConfig(dConfig) && Sound(infos)
    ensures var s, h := StateAt(infos, iConfig, dConfig, n), HistoryAt(infos, iConfig, dConfig, n);
      Once(s, h) && Aligned(s, h.tok, infos) && Waiting(s, h) && (s.except > 0 ==> !Stalled(s))
  {
    hide StateAt, HistoryAt, Aligned, Shown, Resident, Stalled, Ledger, Balanced, StallsBounded, Once, ICacheReplays,
      DCacheReplays, Waiting, Halting, Paid, InOrder, Sound;
    RunFacts(infos, iConfig, dConfig, n);
  }

  // ---------- Latency and cycles ----------

  /** Latency conservation: cycles spent frozen plus cycles owed are the latency of all data misses, and likewise
      for instruction misses; the counters stay within their bounds. */
  lemma LatencyConserved(infos: Stream, iConfig: CacheConfig, dConfig: CacheConfig, n: nat)
    requires ValidConfig(iConfig) && ValidConfig(dConfig) && Sound(infos)
    ensures var s, h := StateAt(infos, iConfig, dConfig, n), HistoryAt(infos, iConfig, dConfig, n);
      && h.frozen + s.dMiss == dConfig.missLatency * s.dCache.misses
      && h.charged + s.iMiss == iConfig.missLatency * s.iCache.misses
      && s.dMiss <= dConfig.missLatency && s.iMiss <= iConfig.missLatency
      && s.dStall <= 2 && s.xStall <= 1 && s.except <= 2
      && (s.except > 0 ==> !Stalled(s))
  {
    hide StateAt, HistoryAt, Traced, Balanced, StallsBounded, Once, Halting, InOrder, Replay;
    RunFacts(infos, iConfig, dConfig, n);
  }

  /** Every cycle is a fetch, a stall or an exception bubble (four more drain the pipeline at HALT), and the stall
      cycles are bounded. */
  lemma CyclesAccountedFor(infos: Stream, iConfig: CacheConfig, dConfig: CacheConfig, n: nat)
    requires ValidConfig(iConfig) && ValidConfig(dConfig) && Sound(infos)
    ensures var s, h := StateAt(infos, iConfig, dConfig, n), HistoryAt(infos, iConfig, dConfig, n);
      && s.cycleCount == s.fetched + h.stalls + h.bubbles + (if s.halted then 4 else 0)
      && h.bubbles + s.except == FaultBubbles(infos, s.fetched)
      && (s.halted ==> s.cycleCount == s.fetched + h.stalls + FaultBubbles(infos, s.fetched) + 4)
      && h.stalls <= Max(iConfig.missLatency, 2) * |Faultless(infos, s.fetched)| + dConfig.missLatency * s.dCache.misses
  {
    hide StateAt, HistoryAt, Traced, Ledger, Steady, Once, InOrder, Replay, Faultless, FaultBubbles;
    RunFacts(infos, iConfig, dConfig, n);
  }

  /** The least a halted run can take: its instructions, the bubbles of its faults, the drain, and on top all of the
      latency of the instruction misses, counted by LRU on the program's PCs alone, or of the data misses,
      whichever is more. */
  function LeastCycles(s: Sim, infos: Stream, iConfig: CacheConfig, dConfig: CacheConfig): nat
    requires ValidConfig(iConfig) && s.fetched > 0
  {
    s.fetched + FaultBubbles(infos, s.fetched) + 4
    + Max(MissCycles(iConfig, MissesBefore(infos, iConfig, s.fetched - 1)),
          Minus(MissCycles(dConfig, s.dCache.misses), s.dMiss))
  }

  /** What the misses cost at least. */
  lemma MissesCostCycles(infos: Stream, iConfig: CacheConfig, dConfig: CacheConfig, n: nat)
    requires ValidConfig(iConfig) && ValidConfig(dConfig) && Sound(infos)
    ensures var s, h := StateAt(infos, iConfig, dConfig, n), HistoryAt(infos, iConfig, dConfig, n);
      && h.stalls >= Max(h.charged, h.frozen)
      && h.frozen + s.dMiss == MissCycles(dConfig, s.dCache.misses)
      && (s.halted ==>
            && s.fetched > 0
            && h.charged == MissCycles(iConfig, MissesBefore(infos, iConfig, s.fetched - 1))
            && s.cycleCount >= LeastCycles(s, infos, iConfig, dConfig))
  {
    hide StateAt, HistoryAt, FaultBubbles, MissesBefore, Faultless, Stalled;
    PaidFacts(infos, iConfig, dConfig, n);
    CyclesAccountedFor(infos, iConfig, dConfig, n);
    LatencyConserved(infos, iConfig, dConfig, n);
  }

  lemma PaidFacts(infos: Stream, iConfig: CacheConfig, dConfig: CacheConfig, n: nat)
    requires ValidConfig(iConfig) && ValidConfig(dConfig) && Sound(infos)
    ensures Paid(StateAt(infos, iConfig, dConfig, n), HistoryAt(infos, iConfig, dConfig, n), infos, iConfig)
  {
    hide StateAt, HistoryAt, Traced, Steady, Ledger, Balanced, StallsBounded, Once, ICacheReplays, DCacheReplays,
      Waiting, Halting, Paid, InOrder, Sound;
    RunFacts(infos, iConfig, dConfig, n);
  }

  /** What the calls have added to the stall cycles, call by call. */
  function StallTotal(infos: Stream, iConfig: CacheConfig, dConfig: CacheConfig, n: nat): nat
    requires ValidConfig(iConfig) && ValidConfig(dConfig)
  {
    if n == 0 then 0
    else
      var s := StateAt(infos, iConfig, dConfig, n - 1);
      StallTotal(infos, iConfig, dConfig, n - 1) + if s.halted then 0 else AddedStalls(s, infos(s.fetched))
  }

  /** The stall cycles of a run exactly, and with them its cycle count: each fetch adds the longest of the four delays
      that it causes, and each data miss charged during a stall what it lasts beyond the other delays. What HALT
      adds itself is still due at the end and never spent. */
  lemma {:induction false} StallsExact(infos: Stream, iConfig: CacheConfig, dConfig: CacheConfig, n: nat)
    requires ValidConfig(iConfig) && ValidConfig(dConfig) && Sound(infos)
    ensures var s, h := StateAt(infos, iConfig, dConfig, n), HistoryAt(infos, iConfig, dConfig, n);
      h.stalls + Due(s) == StallTotal(infos, iConfig, dConfig, n)
  {
    hide StateAt, HistoryAt, Steady, AddedStalls, Due, Cycle, Next, Sound;
    if n == 0 {
      NothingDue(infos, iConfig, dConfig);
    } else {
      var s, h := StateAt(infos, iConfig, dConfig, n - 1), HistoryAt(infos, iConfig, dConfig, n - 1);
      StallsExact(infos, iConfig, dConfig, n - 1);
      OneMoreCall(infos, iConfig, dConfig, n - 1);
      SteadyFacts(infos, iConfig, dConfig, n - 1);
      if !s.halted {
        NextAdds(s, h, infos(s.fetched));
      }
    }
  }

  lemma NothingDue(infos: Stream, iConfig: CacheConfig, dConfig: CacheConfig)
    requires ValidConfig(iConfig) && ValidConfig(dConfig)
    ensures HistoryAt(infos, iConfig, dConfig, 0).stalls == 0 && Due(StateAt(infos, iConfig, dConfig, 0)) == 0
  {
  }

  lemma SteadyFacts(infos: Stream, iConfig: CacheConfig, dConfig: CacheConfig, n: nat)
    requires ValidConfig(iConfig) && ValidConfig(dConfig) && Sound(infos)
    ensures Steady(StateAt(infos, iConfig, dConfig, n))
  {
    hide StateAt, HistoryAt, Traced, Steady, Ledger, Balanced, StallsBounded, Once, ICacheReplays, DCacheReplays,
      Waiting, Halting, Paid, InOrder, Sound;
    RunFacts(infos, iConfig, dConfig, n);
  }

  /** The cycle count at HALT, exactly. */
  lemma CyclesExact(infos: Stream, iConfig: CacheConfig, dConfig: CacheConfig, n: nat)
    requires ValidConfig(iConfig) && ValidConfig(dConfig) && Sound(infos)
    requires StateAt(infos, iConfig, dConfig, n).halted
    ensures var s := StateAt(infos, iConfig, dConfig, n);
      s.cycleCount + Due(s)
      == s.fetched + FaultBubbles(infos, s.fetched) + StallTotal(infos, iConfig, dConfig, n) + 4
  {
    hide StateAt, HistoryAt, Due, FaultBubbles, StallTotal, Faultless, Max;
    CyclesAccountedFor(infos, iConfig, dConfig, n);
    StallsExact(infos, iConfig, dConfig, n);
  }

  function CycleBound(infos: Stream, iConfig: CacheConfig, dConfig: CacheConfig, n: nat): nat {
    n * (1 + Max(iConfig.missLatency, 2) + dConfig.missLatency)
  }

  /** The cycle count of N instructions: at least one cycle each, and at most the larger of the instruction latency
      and 2 more, plus one data latency per load or store. */
  lemma CyclesBounded(infos: Stream, iConfig: CacheConfig, dConfig: CacheConfig, n: nat)
    requires ValidConfig(iConfig) && ValidConfig(dConfig) && Sound(infos)
    ensures var s := StateAt(infos, iConfig, dConfig, n);
      var drain := if s.halted then 4 else 0;
      && s.fetched + drain <= s.cycleCount
      && s.cycleCount <= s.fetched * (1 + Max(iConfig.missLatency, 2))
                         + dConfig.missLatency * MemoryOps(infos, s.fetched) + drain
      && s.cycleCount <= CycleBound(infos, iConfig, dConfig, s.fetched) + drain
  {
    hide StateAt, HistoryAt, Faultless, FaultBubbles, MemoryOps, Max;
    var s, h := StateAt(infos, iConfig, dConfig, n), HistoryAt(infos, iConfig, dConfig, n);
    CyclesAccountedFor(infos, iConfig, dConfig, n);
    MissesOncePerInstruction(infos, iConfig, dConfig, n);
    FaultlessBound(infos, s.fetched);
    MemoryOpsBound(infos, s.fetched);
    MaxAtLeastTwo(iConfig.missLatency);
    BoundArithmetic(Max(iConfig.missLatency, 2), dConfig.missLatency, s.fetched, |Faultless(infos, s.fetched)|,
                    s.dCache.misses, MemoryOps(infos, s.fetched), h.stalls, h.bubbles);
  }

  lemma MaxAtLeastTwo(x: nat)
    ensures Max(x, 2) >= 2
  {
  }

  lemma BoundArithmetic(k: nat, d: nat, n: nat, f: nat, m: nat, ops: nat, stalls: nat, bubbles: nat)
    requires k >= 2 && f <= n && m <= ops <= f
    requires stalls <= k * f + d * m && bubbles <= 2 * (n - f)
    ensures n + stalls + bubbles <= n * (1 + k) + d * ops
    ensures n + stalls + bubbles <= n * (1 + k + d)
  {
    BoundMonotone(2, k, n - f);
    BoundMonotone(m, ops, d);
    BoundMonotone(ops, n, d);
    SplitProduct(k, f, n - f);
    SplitProduct(n, 1, k);
    SplitProduct(n, 1 + k, d);
  }

  lemma BoundMonotone(a: nat, b: nat, k: nat)
    requires a <= b
    ensures a * k <= b * k
    ensures k * a <= k * b
  {
  }

  lemma SplitProduct(k: nat, a: nat, b: nat)
    ensures k * a + k * b == k * (a + b)
  {
  }

  // ---------- Progress ----------

  /** Until HALT the cycle counter counts the calls. */
  lemma {:induction false} CallsCounted(infos: Stream, iConfig: CacheConfig, dConfig: CacheConfig, n: nat)
    requires ValidConfig(iConfig) && ValidConfig(dConfig) && Sound(infos)
    ensures !StateAt(infos, iConfig, dConfig, n).halted ==> StateAt(infos, iConfig, dConfig, n).cycleCount == n
  {
    hide Cycle;
    if n != 0 {
      CallsCounted(infos, iConfig, dConfig, n - 1);
      var p := StateAt(infos, iConfig, dConfig, n - 1);
      CycleCounts(p, infos(p.fetched));
    }
  }

  lemma CycleCounts(s: Sim, info: InstructionInfo)
    requires Ready(s)
    ensures !Cycle(s, info).halted ==> Cycle(s, info).cycleCount == s.cycleCount + 1 && !s.halted
  {
    hide Enter, Stall, Holds;
    var t := Stamp(s);
    StallFetched(t, UNSTARTED);
    if WillFetch(s) {
      EnterFetched(t, UNSTARTED, info);
    }
  }

  /** Progress: the machine cannot stall for ever. If instruction N - 1 of the stream is HALT, the machine halts
      within CycleBound(N - 1) + 1 calls, having fetched exactly up to the first HALT. */
  lemma HaltsInTime(infos: Stream, iConfig: CacheConfig, dConfig: CacheConfig, n: nat, calls: nat)
    requires ValidConfig(iConfig) && ValidConfig(dConfig) && Sound(infos)
    requires n > 0 && infos(n - 1).isHalt && calls > CycleBound(infos, iConfig, dConfig, n - 1)
    ensures StateAt(infos, iConfig, dConfig, calls).halted
  {
    hide StateAt, HistoryAt, Traced, Ledger, Steady, Once, InOrder, ICacheReplays, DCacheReplays, StallsBounded,
      Balanced;
    var s := StateAt(infos, iConfig, dConfig, calls);
    if !s.halted {
      RunFacts(infos, iConfig, dConfig, calls);
      CallsCounted(infos, iConfig, dConfig, calls);
      CyclesBounded(infos, iConfig, dConfig, calls);
      assert s.fetched <= n - 1;
      BoundMonotone(s.fetched, n - 1, 1 + Max(iConfig.missLatency, 2) + dConfig.missLatency);
    }
  }

  /** Lexicographic order on the measure. */
  predicate Smaller(e: nat, c: nat, d: nat, e': nat, c': nat, d': nat) {
    e' < e || (e' == e && (c' < c || (c' == c && d' < d)))
  }

  /** A call that executes no instruction makes (except, iMiss + dStall + xStall, dMiss) smaller, also when a
      lookup during the stall adds a data miss. */
  lemma StutterDecreases(s: Sim, info: InstructionInfo)
    requires Ready(s) && !WillFetch(s)
    ensures var s' := Cycle(s, info);
      Smaller(s.except, s.iMiss + s.dStall + s.xStall, s.dMiss, s'.except, s'.iMiss + s'.dStall + s'.xStall, s'.dMiss)
  {
    hide Stall, Fetch;
    if s.except == 0 {
      StallDecreases(Stamp(s));
    }
  }

  lemma StallDecreases(s: Sim)
    requires Ready(s) && Stalled(s)
    ensures var s' := Stall(s);
      Smaller(s.except, s.iMiss + s.dStall + s.xStall, s.dMiss, s'.except, s'.iMiss + s'.dStall + s'.xStall, s'.dMiss)
  {
    hide Stall, Penalty, DCacheAfter, Shift;
    StallFields(s);
    ShiftKeepsCounters(s);
  }
}
