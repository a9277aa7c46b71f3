/** Dependent instructions over whole runs: exactly when every dumped pipe state keeps them apart. */
module RunHazards {
  import opened Instructions
  import opened EmulatorModel
  import opened CacheModel
  import opened Pipeline
  import opened History
  import opened Retirement
  import opened Accounting
  import opened Separation
  import opened Runs

  /** Exactly when dependent instructions stand apart in all that a run dumps, faults, misses and the flush after HALT
      included: when every call starts in a state that satisfies `StaysApart`. */
  lemma {:induction false} SeparationIff(infos: Stream, iConfig: CacheConfig, dConfig: CacheConfig, n: nat)
    requires ValidConfig(iConfig) && ValidConfig(dConfig) && Sound(infos)
    ensures AllApart(StateAt(infos, iConfig, dConfig, n).output)
       <==> forall m: nat :: m < n ==> CallKeepsApart(StateAt(infos, iConfig, dConfig, m), infos)
  {
    hide StateAt, CallKeepsApart, AllApart, Sound;
    if n == 0 {
      StartsApart(infos, iConfig, dConfig);
    } else {
      SeparationIff(infos, iConfig, dConfig, n - 1);
      CallSeparatesIff(infos, iConfig, dConfig, n - 1);
    }
  }

  predicate CallKeepsApart(s: Sim, infos: Stream) {
    s.halted || StaysApart(s, infos(s.fetched))
  }

  lemma CallSeparatesIff(infos: Stream, iConfig: CacheConfig, dConfig: CacheConfig, n: nat)
    requires ValidConfig(iConfig) && ValidConfig(dConfig) && Sound(infos)
    ensures var s := StateAt(infos, iConfig, dConfig, n);
      AllApart(StateAt(infos, iConfig, dConfig, n + 1).output) <==> AllApart(s.output) && CallKeepsApart(s, infos)
  {
    hide StateAt, HistoryAt, AllApart, Separated, StaysApart, Cycle;
    var s := StateAt(infos, iConfig, dConfig, n);
    OneMoreCall(infos, iConfig, dConfig, n);
    if !s.halted {
      CycleDumps(s, infos(s.fetched));
      ApartConcat(s.output, DumpedBy(s, infos(s.fetched)));
      if AllApart(s.output) {
        PipeApart(infos, iConfig, dConfig, n);
        CycleSeparatesIff(s, infos(s.fetched));
      }
    }
  }

  lemma StartsApart(infos: Stream, iConfig: CacheConfig, dConfig: CacheConfig)
    requires ValidConfig(iConfig) && ValidConfig(dConfig)
    ensures var s := StateAt(infos, iConfig, dConfig, 0);
      AllApart(s.output) && Separated(s.pipe.instr) && PhaseCovered(s)
  {
    EmptySlotFree(0);
  }

  /** What the pipeline holds between two calls has just been dumped. */
  lemma PipeApart(infos: Stream, iConfig: CacheConfig, dConfig: CacheConfig, n: nat)
    requires ValidConfig(iConfig) && ValidConfig(dConfig)
    requires var s := StateAt(infos, iConfig, dConfig, n);
      !s.halted && AllApart(s.output)
    ensures Separated(StateAt(infos, iConfig, dConfig, n).pipe.instr)
  {
    hide StateAt, HistoryAt, AllApart, Separated, Cycle;
    if n == 0 {
      StartsApart(infos, iConfig, dConfig);
    } else {
      var p := StateAt(infos, iConfig, dConfig, n - 1);
      OneMoreCall(infos, iConfig, dConfig, n - 1);
      CycleEnds(p, infos(p.fetched));
    }
  }

  // ---------- Coverage ----------

  /** After each of the first n calls that charges a data miss or lets a fault's empty slot enter, the counters cover
      the hazards in the pipeline. */
  ghost predicate CoveredUntil(infos: Stream, iConfig: CacheConfig, dConfig: CacheConfig, n: nat)
    requires ValidConfig(iConfig) && ValidConfig(dConfig)
  {
    forall m: nat :: m < n ==> CoversAt(infos, iConfig, dConfig, m)
  }

  predicate CoversAt(infos: Stream, iConfig: CacheConfig, dConfig: CacheConfig, m: nat)
    requires ValidConfig(iConfig) && ValidConfig(dConfig)
  {
    var s := StateAt(infos, iConfig, dConfig, m);
    Disturbs(s, infos(s.fetched)) ==> PhaseCovered(StateAt(infos, iConfig, dConfig, m + 1))
  }

  /** One call of a run before HALT has been returned, and what it needs. */
  lemma CallCovers(infos: Stream, iConfig: CacheConfig, dConfig: CacheConfig, n: nat)
    requires ValidConfig(iConfig) && ValidConfig(dConfig) && Sound(infos)
    requires !StateAt(infos, iConfig, dConfig, n + 1).halted
    requires AllApart(StateAt(infos, iConfig, dConfig, n).output)
    ensures var s, c := StateAt(infos, iConfig, dConfig, n), StateAt(infos, iConfig, dConfig, n + 1);
      && !s.halted
      && (AllApart(c.output) <==> Separated(c.pipe.instr))
      && (PhaseCovered(s) ==> Separated(c.pipe.instr))
      && (PhaseCovered(s) && CoversAt(infos, iConfig, dConfig, n) ==> PhaseCovered(c))
      && (Separated(c.pipe.instr) && PhaseCovered(c) ==> PhaseCovered(s))
  {
    hide StateAt, HistoryAt, AllApart, Separated, PhaseCovered, Disturbs, Cycle, EntersHalt, Stalled, Sound;
    var s := StateAt(infos, iConfig, dConfig, n);
    OneMoreCall(infos, iConfig, dConfig, n);
    HaltByCall(s, infos(s.fetched));
    PipeApart(infos, iConfig, dConfig, n);
    LatencyConserved(infos, iConfig, dConfig, n);
    CycleCovers(s, infos(s.fetched));
    OrdinaryDumps(s, infos(s.fetched));
    ApartOne(Cycle(s, infos(s.fetched)).pipe);
    ApartConcat(s.output, [Cycle(s, infos(s.fetched)).pipe]);
  }

  lemma HaltByCall(s: Sim, info: InstructionInfo)
    requires Ready(s)
    ensures Cycle(s, info).halted == (s.halted || EntersHalt(s, info))
  {
    hide Cycle;
    CycleFetches(s, info);
  }

  /** Coverage after every disturbance keeps dependents apart. */
  lemma {:induction false} CoverageSuffices(infos: Stream, iConfig: CacheConfig, dConfig: CacheConfig, n: nat)
    requires ValidConfig(iConfig) && ValidConfig(dConfig) && Sound(infos)
    requires !StateAt(infos, iConfig, dConfig, n).halted && CoveredUntil(infos, iConfig, dConfig, n)
    ensures var s := StateAt(infos, iConfig, dConfig, n);
      AllApart(s.output) && PhaseCovered(s)
  {
    hide StateAt, AllApart, Separated, PhaseCovered, CoversAt, Sound;
    if n == 0 {
      StartsApart(infos, iConfig, dConfig);
    } else {
      NotHaltedBefore(infos, iConfig, dConfig, n);
      CoverageSuffices(infos, iConfig, dConfig, n - 1);
      CallCovers(infos, iConfig, dConfig, n - 1);
    }
  }

  lemma NotHaltedBefore(infos: Stream, iConfig: CacheConfig, dConfig: CacheConfig, n: nat)
    requires ValidConfig(iConfig) && ValidConfig(dConfig)
    requires n > 0 && !StateAt(infos, iConfig, dConfig, n).halted
    ensures !StateAt(infos, iConfig, dConfig, n - 1).halted
  {
    hide StateAt, HistoryAt, Cycle;
    OneMoreCall(infos, iConfig, dConfig, n - 1);
  }

  /** And nothing less does: where dependents have stayed apart and the counters cover what is there now, they have
      covered it after every disturbance before. */
  lemma {:induction false} CoverageNeeded(infos: Stream, iConfig: CacheConfig, dConfig: CacheConfig, n: nat)
    requires ValidConfig(iConfig) && ValidConfig(dConfig) && Sound(infos)
    requires var s := StateAt(infos, iConfig, dConfig, n);
      !s.halted && AllApart(s.output) && PhaseCovered(s)
    ensures CoveredUntil(infos, iConfig, dConfig, n)
  {
    hide StateAt, AllApart, Separated, PhaseCovered, Disturbs, Sound;
    if n > 0 {
      NotHaltedBefore(infos, iConfig, dConfig, n);
      CallSeparatesIff(infos, iConfig, dConfig, n - 1);
      CallCovers(infos, iConfig, dConfig, n - 1);
      CoverageNeeded(infos, iConfig, dConfig, n - 1);
    }
  }

  /** The effect of data misses and faults on the hazards, exactly. Up to and including a call that is no stall,
      dependents stand apart in all that is dumped if and only if the counters covered the hazards after every call
      that charged a data miss or let a fault's empty slot enter, and, when the last call is that of HALT, what
      then stands in ID does not wait for EX. Without faults and data misses there are no such calls. */
  lemma SeparatedIffCovered(infos: Stream, iConfig: CacheConfig, dConfig: CacheConfig, n: nat)
    requires ValidConfig(iConfig) && ValidConfig(dConfig) && Sound(infos)
    requires var s := StateAt(infos, iConfig, dConfig, n);
      !s.halted && !Stalled(s)
    ensures var s := StateAt(infos, iConfig, dConfig, n);
      AllApart(StateAt(infos, iConfig, dConfig, n + 1).output)
      <==> && CoveredUntil(infos, iConfig, dConfig, n)
           && (EntersHalt(s, infos(s.fetched)) ==> XStallOf(s.pipe.instr.Ingest(HALT)) == 0)
  {
    hide StateAt, HistoryAt, AllApart, Separated, CoveredUntil, XStallOf, DStallOf;
    var s := StateAt(infos, iConfig, dConfig, n);
    CallSeparatesIff(infos, iConfig, dConfig, n);
    if AllApart(s.output) && PhaseCovered(s) {
      CoverageNeeded(infos, iConfig, dConfig, n);
    }
    if CoveredUntil(infos, iConfig, dConfig, n) {
      CoverageSuffices(infos, iConfig, dConfig, n);
    }
  }

  // ---------- Runs without faults and data misses ----------

  /** After every call of a fault-free run in which no data miss occurs, up to HALT, dependent instructions stand
      apart. */
  lemma {:induction false} HazardsSeparated(infos: Stream, iConfig: CacheConfig, dConfig: CacheConfig, n: nat)
    requires ValidConfig(iConfig) && ValidConfig(dConfig) && Sound(infos)
    requires !StateAt(infos, iConfig, dConfig, n).halted
    requires forall m :: 0 <= m <= n ==> StateAt(infos, iConfig, dConfig, m).dMiss == 0
    requires forall k :: 0 <= k < StateAt(infos, iConfig, dConfig, n).fetched ==> !Faulty(infos(k))
    ensures Separated(StateAt(infos, iConfig, dConfig, n).pipe.instr)
    ensures HazardsCovered(StateAt(infos, iConfig, dConfig, n))
    ensures StateAt(infos, iConfig, dConfig, n).except == 0
  {
    hide Cycle, Separated, HazardsCovered, Initial, Sound;
    var s := StateAt(infos, iConfig, dConfig, n);
    if n == 0 {
      InitiallySeparated(iConfig, dConfig);
    } else {
      var p := StateAt(infos, iConfig, dConfig, n - 1);
      var info := infos(p.fetched);
      CycleFetches(p, info);
      HazardsSeparated(infos, iConfig, dConfig, n - 1);
      LatencyConserved(infos, iConfig, dConfig, n - 1);
      CycleSeparates(p, info);
      NoNewException(p, info);
    }
  }

  lemma InitiallySeparated(iConfig: CacheConfig, dConfig: CacheConfig)
    requires ValidConfig(iConfig) && ValidConfig(dConfig)
    ensures var s := Initial(iConfig, dConfig);
      Separated(s.pipe.instr) && HazardsCovered(s) && s.except == 0
  {
    EmptySlotFree(0);
  }

  lemma NoNewException(s: Sim, info: InstructionInfo)
    requires Ready(s) && s.except == 0 && !(WillFetch(s) && (Faulty(info) || info.isHalt))
    ensures Cycle(s, info).except == 0
  {
    hide Enter, Stall, Holds;
    var t := Stamp(s);
    StallFetched(t, UNSTARTED);
    if WillFetch(s) {
      EnterFetched(t, UNSTARTED, info);
    }
  }
}
